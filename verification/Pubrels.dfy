/** How often PUBREL is sent: per accepted PUBREC, and per packet id over a whole run. */
module Pubrels {
  import opened Bytes
  import opened Packets
  import opened PacketIds
  import opened Session

  /** PUBRELs queued for one accepted PUBREC. */
  function RelsOf(frames: seq<Frame>, serial: nat): nat {
    if frames == [] then 0
    else
      var last := frames[|frames| - 1];
      RelsOf(frames[..|frames| - 1], serial) + if last.PubrelFrame? && last.serial == serial then 1 else 0
  }

  /** PUBRELs queued for a packet id, over the whole history. */
  function RelsFor(frames: seq<Frame>, id: u16): nat {
    if frames == [] then 0
    else
      var last := frames[|frames| - 1];
      RelsFor(frames[..|frames| - 1], id) + if last.PubrelFrame? && last.packetId == id then 1 else 0
  }

  /** PUBRECs accepted for a packet id, over the whole history. */
  function AcceptedFor(accepted: seq<u16>, id: u16): nat {
    if accepted == [] then 0
    else AcceptedFor(accepted[..|accepted| - 1], id) + if accepted[|accepted| - 1] == id then 1 else 0
  }

  lemma Snocs(frames: seq<Frame>, f: Frame, serial: nat, id: u16)
    ensures RelsOf(frames + [f], serial)
         == RelsOf(frames, serial) + if f.PubrelFrame? && f.serial == serial then 1 else 0
    ensures RelsFor(frames + [f], id) == RelsFor(frames, id) + if f.PubrelFrame? && f.packetId == id then 1 else 0
  {
    assert (frames + [f])[..|frames|] == frames;
  }

  lemma AcceptedSnoc(accepted: seq<u16>, more: u16, id: u16)
    ensures AcceptedFor(accepted + [more], id) == AcceptedFor(accepted, id) + if more == id then 1 else 0
  {
    assert (accepted + [more])[..|accepted|] == accepted;
  }

  ghost predicate SerialsWithin(s: State) {
    forall n: nat :: RelsOf(s.frames, n) <= if n < |s.accepted| then 4 else 0
  }

  ghost predicate RecCounted(s: State, id: u16, r: Rec) {
    && r.serial < |s.accepted| && s.accepted[r.serial] == id
    && r.attempts <= 3
    && RelsOf(s.frames, r.serial) == r.attempts + 1
  }

  ghost predicate RecsCounted(s: State) {
    forall id :: id in s.recs ==> RecCounted(s, id, s.recs[id])
  }

  /** The PUBRELs that the entry of an id may still cause. */
  function Slack(s: State, id: u16): int {
    if id in s.recs then 3 - s.recs[id].attempts else 0
  }

  ghost predicate TotalsWithin(s: State) {
    forall id: u16 :: RelsFor(s.frames, id) + Slack(s, id) <= 4 * AcceptedFor(s.accepted, id)
  }

  ghost predicate PubrelBudget(s: State) {
    SerialsWithin(s) && RecsCounted(s) && TotalsWithin(s)
  }

  ghost predicate NoPubrel(before: seq<Frame>, after: seq<Frame>) {
    after == before || exists f: Frame :: !f.PubrelFrame? && after == before + [f]
  }

  /** Exchanges may end and timers may change; no PUBREL is sent and no PUBREC taken. */
  ghost predicate Quiet(s: State, t: State) {
    && t.accepted == s.accepted && NoPubrel(s.frames, t.frames)
    && forall id :: id in t.recs ==> id in s.recs && t.recs[id].serial == s.recs[id].serial
                                     && t.recs[id].attempts == s.recs[id].attempts
  }

  lemma NoPubrelSame(before: seq<Frame>, after: seq<Frame>, serial: nat, id: u16)
    requires NoPubrel(before, after)
    ensures RelsOf(after, serial) == RelsOf(before, serial) && RelsFor(after, id) == RelsFor(before, id)
  {
    if after != before {
      var f: Frame :| !f.PubrelFrame? && after == before + [f];
      Snocs(before, f, serial, id);
    }
  }

  lemma QuietKeeps(s: State, t: State)
    requires PubrelBudget(s) && Quiet(s, t)
    ensures PubrelBudget(t)
  {
    forall n: nat
      ensures RelsOf(t.frames, n) == RelsOf(s.frames, n)
    {
      NoPubrelSame(s.frames, t.frames, n, 0);
    }
    forall id: u16
      ensures RelsFor(t.frames, id) == RelsFor(s.frames, id)
    {
      NoPubrelSame(s.frames, t.frames, 0, id);
    }
    forall id | id in t.recs
      ensures RecCounted(t, id, t.recs[id])
    {
      assert RecCounted(s, id, s.recs[id]);
    }
    forall id: u16
      ensures RelsFor(t.frames, id) + Slack(t, id) <= 4 * AcceptedFor(t.accepted, id)
    {
      if id in s.recs {
        assert RecCounted(s, id, s.recs[id]);
      }
    }
  }

  /** A PUBREC is taken: a fresh serial, four PUBRELs allowed, the first one sent. */
  lemma TakingKeeps(s: State, id: u16)
    requires PubrelBudget(s) && id in s.pubs
    ensures PubrelBudget(HandlePubrec(s, id))
  {
    var t := HandlePubrec(s, id);
    var f := PubrelFrame(|s.accepted|, id);
    assert t.frames == s.frames + [f] && t.recs == s.recs[id := Rec(|s.accepted|, 0, true)];
    assert t.accepted == s.accepted + [id];
    forall n: nat
      ensures RelsOf(t.frames, n) == RelsOf(s.frames, n) + if n == |s.accepted| then 1 else 0
    {
      Snocs(s.frames, f, n, id);
    }
    forall j: u16
      ensures RelsFor(t.frames, j) + Slack(t, j) <= 4 * AcceptedFor(t.accepted, j)
    {
      Snocs(s.frames, f, 0, j);
      AcceptedSnoc(s.accepted, id, j);
      assert RelsFor(s.frames, j) + Slack(s, j) <= 4 * AcceptedFor(s.accepted, j);
      if j in s.recs {
        assert RecCounted(s, j, s.recs[j]);
      }
    }
    forall j | j in t.recs
      ensures RecCounted(t, j, t.recs[j])
    {
      if j != id {
        assert RecCounted(s, j, s.recs[j]);
      }
    }
  }

  /** A PUBREL is repeated: one attempt and one frame more. */
  lemma RepeatKeeps(s: State, id: u16)
    requires PubrelBudget(s) && id in s.recs && s.recs[id].attempts < MAX_ATTEMPTS
    ensures PubrelBudget(SendPubrel(BumpRec(s, id), id))
  {
    var t := SendPubrel(BumpRec(s, id), id);
    var r := s.recs[id];
    assert RecCounted(s, id, r);
    var f := PubrelFrame(r.serial, id);
    UpdateTwice(s.recs, id, r.(attempts := r.attempts + 1), r.(attempts := r.attempts + 1, armed := true));
    assert t.frames == s.frames + [f];
    assert t.recs == s.recs[id := r.(attempts := r.attempts + 1, armed := true)];
    forall n: nat
      ensures RelsOf(t.frames, n) == RelsOf(s.frames, n) + if n == r.serial then 1 else 0
    {
      Snocs(s.frames, f, n, id);
    }
    forall j: u16
      ensures RelsFor(t.frames, j) + Slack(t, j) <= 4 * AcceptedFor(t.accepted, j)
    {
      Snocs(s.frames, f, 0, j);
      assert RelsFor(s.frames, j) + Slack(s, j) <= 4 * AcceptedFor(s.accepted, j);
    }
    forall j | j in t.recs
      ensures RecCounted(t, j, t.recs[j])
    {
      if j != id {
        assert RecCounted(s, j, s.recs[j]);
      }
    }
  }

  lemma UpdateTwice(m: map<u16, Rec>, id: u16, p: Rec, q: Rec)
    ensures m[id := p][id := q] == m[id := q]
  {
  }

  // ------------------------------------------------------------ every step

  lemma QueueIsQuiet(s: State, f: Frame)
    requires !f.PubrelFrame?
    ensures Quiet(s, Queue(s, f))
  {
    assert Queue(s, f).frames == s.frames + [f];
  }

  lemma QuietTwice(s: State, t: State, u: State)
    requires Quiet(s, t) && Quiet(t, u) && (t.frames == s.frames || u.frames == t.frames)
    ensures Quiet(s, u)
  {
  }

  lemma SendIsQuiet(s: State, id: u16)
    ensures Quiet(s, SendPublishEntry(s, id))
  {
    if id in s.pubs {
      assert Quiet(s, Arm(s, id, true));
      hide Quiet;
      QueueIsQuiet(Arm(s, id, true), PublishFrame(s.pubs[id].handle, EntryPacket(s.pubs[id], id)));
      QuietTwice(s, Arm(s, id, true), SendPublishEntry(s, id));
    }
  }

  lemma EnterIsQuiet(s: State, c: Call)
    requires Sound(s)
    ensures Quiet(s, EnterWindow(s, c))
  {
    hide FirstFree, Used, SendPublishEntry;
    var id := FirstFree(s.cursor, Used(s));
    SendIsQuiet(Accept(s, c, id), id);
    assert Quiet(s, Accept(s, c, id));
    QuietTwice(s, Accept(s, c, id), SendPublishEntry(Accept(s, c, id), id));
  }

  lemma RejectIsQuiet(s: State, c: Call)
    ensures Quiet(s, Reject(s, c))
  {
  }

  lemma Qos0IsQuiet(s: State, c: Call)
    ensures Quiet(s, AcceptQos0(s, c))
  {
    var t := s.(calls := s.calls + [c], qos0 := s.qos0 + {|s.calls|});
    assert Quiet(s, t);
    hide Quiet;
    QueueIsQuiet(t, PublishFrame(|s.calls|, PublishPacket(0, 0, false, c.topic, c.payload)));
    QuietTwice(s, t, AcceptQos0(s, c));
  }

  lemma PublishIsQuiet(s: State, c: Call)
    requires Sound(s)
    ensures Quiet(s, AsyncPublish(s, c))
  {
    hide Quiet, EnterWindow, AcceptQos0, Reject;
    EnterIsQuiet(s, c);
    Qos0IsQuiet(s, c);
    RejectIsQuiet(s, c);
  }

  lemma PublishTimerIsQuiet(s: State, id: u16, current: bool)
    ensures Quiet(s, PublishTimer(s, id, current))
  {
    hide SendPublishEntry;
    if id in s.pubs {
      var t := if current then Arm(s, id, false) else s;
      if t.pubs[id].attempts < MAX_ATTEMPTS {
        SendIsQuiet(Bump(t, id), id);
        QuietTwice(s, Bump(t, id), PublishTimer(s, id, current));
      }
    }
  }

  lemma TcpIsQuiet(s: State, ok: bool)
    ensures Quiet(s, TcpDone(s, ok))
  {
    QueueIsQuiet(s.(link := Handshaking), ConnectFrame);
  }

  lemma SubscribeIsQuiet(s: State, topic: bytes, qos: byte, hasCallback: bool)
    requires Sound(s)
    ensures Quiet(s, AsyncSubscribe(s, topic, qos, hasCallback))
  {
    hide FirstFree, Used;
    var id := FirstFree(s.cursor, Used(s));
    QueueIsQuiet(s.(cursor := id, subs := s.subs[id := Sub(topic, qos, hasCallback)]), SubscribeFrame(id, topic, qos));
  }

  lemma ControlIsQuiet(s: State, e: Event)
    requires Sound(s)
    requires e.PublishWrite? || e.PubrelWrite? || e.SubscribeWrite? || e.Qos0Write? || e.SessionFailure?
          || e.Connect? || e.ResolveFailure? || e.ConnectExpiry? || e.LinkLost?
    ensures Quiet(s, Step(s, e))
  {
  }

  lemma PubrecTimerKeeps(s: State, id: u16, current: bool)
    requires PubrelBudget(s)
    ensures PubrelBudget(PubrecTimer(s, id, current))
  {
    hide PubrelBudget, SendPubrel, BumpRec;
    if id in s.recs {
      var t := if current then ArmRec(s, id, false) else s;
      assert Quiet(s, t);
      QuietKeeps(s, t);
      if t.recs[id].attempts >= MAX_ATTEMPTS {
        QuietKeeps(t, PubrecTimer(s, id, current));
      } else {
        RepeatKeeps(t, id);
      }
    }
  }

  lemma IncomingPublishIsQuiet(s: State, p: PublishPacket)
    ensures Quiet(s, HandlePublish(s, p))
  {
    QueueIsQuiet(s, AckFrame(PUBACK * 16, p.packetId));
    QueueIsQuiet(s, AckFrame(PUBREC * 16, p.packetId));
    hide Queue;
  }

  lemma AcksAreQuiet(s: State, id: u16)
    ensures Quiet(s, HandlePuback(s, id)) && Quiet(s, HandlePubcomp(s, id)) && Quiet(s, s)
  {
  }

  lemma OthersAreQuiet(s: State, suback: SubackPacket, connack: ConnackPacket)
    ensures Quiet(s, HandleSuback(s, suback)) && Quiet(s, HandleConnack(s, connack))
  {
  }

  predicate TakesPubrec(e: Event) {
    e.Packet? && e.data != [] && e.data[0] / 16 == PUBREC
  }

  lemma PacketIsQuiet(s: State, data: bytes)
    requires !TakesPubrec(Packet(data))
    ensures Quiet(s, HandlePacket(s, data))
  {
    hide Quiet, HandlePubrec, HandlePuback, HandlePubcomp, HandleSuback, HandlePublish, HandleConnack, Queue;
    hide AckOf, SubackOf, PublishOf, ConnackOf;
    IncomingPublishIsQuiet(s, PublishOf(data));
    AcksAreQuiet(s, AckOf(data));
    OthersAreQuiet(s, SubackOf(data), ConnackOf(data));
    QueueIsQuiet(s, AckFrame(PUBCOMP * 16, AckOf(data)));
  }

  lemma PubrecKeeps(s: State, id: u16)
    requires PubrelBudget(s)
    ensures PubrelBudget(HandlePubrec(s, id))
  {
    hide PubrelBudget;
    if id in s.pubs {
      TakingKeeps(s, id);
    }
  }

  /** Only a PUBREC and a PUBREL timer send PUBREL. */
  lemma StepIsQuiet(s: State, e: Event)
    requires Sound(s) && !e.PubrecExpiry? && !TakesPubrec(e)
    ensures Quiet(s, Step(s, e))
  {
    hide Quiet, Sound, AsyncPublish, AsyncSubscribe, PublishWritten, PubrelWritten, SubscribeWritten, TakesPubrec;
    hide Qos0Written, PublishTimer, HandlePacket, NotifyClosedOnce, TcpDone, ResolveFailed, ConnectTimeout;
    match e
    case Packet(data) => PacketIsQuiet(s, data);
    case Publish(c) => PublishIsQuiet(s, c);
    case Subscribe(topic, qos, hasCallback) => SubscribeIsQuiet(s, topic, qos, hasCallback);
    case PublishExpiry(id, current) => PublishTimerIsQuiet(s, id, current);
    case TcpResult(ok) => TcpIsQuiet(s, ok);
    case _ => ControlIsQuiet(s, e);
  }

  lemma StepKeepsPubrels(s: State, e: Event)
    requires PubrelBudget(s) && Sound(s)
    ensures PubrelBudget(Step(s, e))
  {
    hide PubrelBudget, Quiet, Sound, PubrecTimer, HandlePubrec, AckOf;
    if e.PubrecExpiry? {
      PubrecTimerKeeps(s, e.id, e.current);
    } else if TakesPubrec(e) {
      PubrecKeeps(s, AckOf(e.data));
    } else {
      StepIsQuiet(s, e);
      QuietKeeps(s, Step(s, e));
      hide Step;
    }
  }

  /** The steps that send a PUBREL for the n-th accepted PUBREC: its own, or an expiry with attempts left. */
  predicate SendsPubrel(s: State, e: Event, n: nat) {
    || (TakesPubrec(e) && AckOf(e.data) in s.pubs && n == |s.accepted|)
    || (e.PubrecExpiry? && e.id in s.recs && s.recs[e.id].serial == n && s.recs[e.id].attempts < 3)
  }

  /** Exactly those steps send one, and they send one each. */
  lemma PubrelSentIff(s: State, e: Event, n: nat)
    requires Sound(s)
    ensures RelsOf(Step(s, e).frames, n) == RelsOf(s.frames, n) + if SendsPubrel(s, e, n) then 1 else 0
  {
    hide RelsOf, RelsFor, AckOf;
    if e.PubrecExpiry? {
      ExpirySends(s, e.id, e.current, n);
    } else if TakesPubrec(e) {
      var id := AckOf(e.data);
      if id in s.pubs {
        Snocs(s.frames, PubrelFrame(|s.accepted|, id), n, id);
      }
    } else {
      StepIsQuiet(s, e);
      NoPubrelSame(s.frames, Step(s, e).frames, n, 0);
      hide Step;
    }
  }

  lemma ExpirySends(s: State, id: u16, current: bool, n: nat)
    ensures RelsOf(PubrecTimer(s, id, current).frames, n)
      == RelsOf(s.frames, n) + if SendsPubrel(s, PubrecExpiry(id, current), n) then 1 else 0
  {
    hide RelsOf, RelsFor, Drain;
    if id in s.recs {
      Snocs(s.frames, PubrelFrame(s.recs[id].serial, id), n, id);
    }
  }

  /** A fourth PUBREL is sent exactly at an expiry of an exchange that has repeated its PUBREL twice. */
  lemma FourthPubrelIff(es: seq<Event>, e: Event, n: nat)
    requires RelsOf(Reached(es).frames, n) == 3
    ensures var s := Reached(es);
      RelsOf(Step(s, e).frames, n) == 4
      <==> e.PubrecExpiry? && e.id in s.recs && s.recs[e.id].serial == n && s.recs[e.id].attempts == 2
  {
    RunKeepsPubrels(INITIAL, es);
    var s := Reached(es);
    PubrelSentIff(s, e, n);
    ThirdWasSent(s, e, n);
    hide Step, RelsOf, PubrelBudget, SendsPubrel;
  }

  lemma ThirdWasSent(s: State, e: Event, n: nat)
    requires PubrelBudget(s) && RelsOf(s.frames, n) == 3
    ensures SendsPubrel(s, e, n)
      <==> e.PubrecExpiry? && e.id in s.recs && s.recs[e.id].serial == n && s.recs[e.id].attempts == 2
  {
    assert SerialsWithin(s);
    if e.PubrecExpiry? && e.id in s.recs {
      assert RecCounted(s, e.id, s.recs[e.id]);
    }
    hide RelsOf, AckOf;
  }

  lemma {:induction false} RunKeepsPubrels(s: State, es: seq<Event>)
    requires PubrelBudget(s) && Sound(s)
    ensures PubrelBudget(Run(s, es))
    decreases |es|
  {
    if es != [] {
      StepKeepsPubrels(s, es[0]);
      StepIsSound(s, es[0]);
      hide PubrelBudget;
      RunKeepsPubrels(Step(s, es[0]), es[1..]);
    }
  }

  /**
   The PUBREL budget, after any run: a live exchange has sent exactly attempts + 1 PUBRELs, at most
   four; an accepted PUBREC never causes more than four; and so the PUBRELs sent for an id number at
   most four times the PUBRECs accepted for it, however often the broker repeats them.
   */
  lemma PubrelsAreBounded(es: seq<Event>, id: u16)
    ensures var s := Reached(es);
      && (id in s.recs ==> RelsOf(s.frames, s.recs[id].serial) == s.recs[id].attempts + 1 <= 4)
      && (forall n: nat :: RelsOf(s.frames, n) <= 4)
      && RelsFor(s.frames, id) <= 4 * AcceptedFor(s.accepted, id)
  {
    RunKeepsPubrels(INITIAL, es);
    var s := Reached(es);
    if id in s.recs {
      assert RecCounted(s, id, s.recs[id]);
    }
  }
}
