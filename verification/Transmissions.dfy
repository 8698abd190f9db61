/**
 What is put on the wire for a publish: how often, with which octets and in which order, in every
 state a run can lead to (sections 3.3.1.1, 4.4 and 4.6 of MQTT 3.1.1).
 */
module Transmissions {
  import opened Bytes
  import opened Packets
  import opened PacketIds
  import opened Session
  import opened Accounting

  /** The PUBLISH packets queued for a call, in order. */
  function PublishesOf(frames: seq<Frame>, h: nat): seq<PublishPacket> {
    if frames == [] then []
    else
      var last := frames[|frames| - 1];
      PublishesOf(frames[..|frames| - 1], h) + if last.PublishFrame? && last.handle == h then [last.packet] else []
  }

  lemma PublishesSnoc(frames: seq<Frame>, f: Frame, h: nat)
    ensures PublishesOf(frames + [f], h)
         == PublishesOf(frames, h) + if f.PublishFrame? && f.handle == h then [f.packet] else []
  {
    assert (frames + [f])[..|frames|] == frames;
  }

  /** The n transmissions of a call under a packet id: all alike, DUP on all but the first. */
  function Copies(c: Call, id: u16, n: nat): seq<PublishPacket> {
    seq(n, i => PublishPacket(id, c.qos, i > 0, c.topic, c.payload))
  }

  lemma CopiesSnoc(c: Call, id: u16, n: nat)
    ensures Copies(c, id, n + 1) == Copies(c, id, n) + [PublishPacket(id, c.qos, n > 0, c.topic, c.payload)]
  {
  }

  /**
   What may have been queued for a call: nothing before it was made, one frame at QoS 0 and three at
   QoS 1 or 2; a packet id at QoS 1 and 2 only (section 2.3.1 of MQTT 3.1.1).
   */
  predicate Transmitted(calls: seq<Call>, h: nat, ps: seq<PublishPacket>) {
    if h >= |calls| then ps == []
    else
      && |ps| <= (if calls[h].qos == 0 then 1 else 3)
      && (ps != [] ==> ps == Copies(calls[h], ps[0].packetId, |ps|) && Numbered(calls[h], ps[0].packetId))
  }

  predicate Numbered(c: Call, id: u16) {
    c.qos <= 2 && (c.qos == 0 <==> id == 0)
  }

  ghost predicate WithinBudget(s: State) {
    forall h: nat :: Transmitted(s.calls, h, PublishesOf(s.frames, h))
  }

  ghost predicate CountedEntry(s: State, id: u16, p: Pub) {
    && 1 <= p.attempts <= 3 && p.handle < |s.calls|
    && PublishesOf(s.frames, p.handle) == Copies(s.calls[p.handle], id, p.attempts)
  }

  ghost predicate Counted(s: State) {
    forall id :: id in s.pubs ==> CountedEntry(s, id, s.pubs[id])
  }

  /** A first transmission. */
  predicate IsFirst(f: Frame) {
    f.PublishFrame? && !f.packet.dup
  }

  predicate InCallOrder(frames: seq<Frame>) {
    forall i, j :: 0 <= i < j < |frames| && IsFirst(frames[i]) && IsFirst(frames[j])
      ==> frames[i].handle < frames[j].handle
  }

  ghost predicate Budgeted(s: State) {
    && WithinBudget(s) && Counted(s)
    && InCallOrder(s.frames)
    && forall i :: 0 <= i < |s.frames| && s.frames[i].PublishFrame? ==> s.frames[i].handle < |s.calls|
  }

  // ------------------------------------------------------------ steps that transmit no publish

  ghost predicate NoPublish(before: seq<Frame>, after: seq<Frame>) {
    after == before || exists f: Frame :: !f.PublishFrame? && after == before + [f]
  }

  /** Entries may leave and timers may change; attempts and the frames of publishes stay. */
  ghost predicate Quiet(s: State, t: State) {
    && t.calls == s.calls && NoPublish(s.frames, t.frames)
    && forall id :: id in t.pubs ==> id in s.pubs && t.pubs[id].handle == s.pubs[id].handle
                                     && t.pubs[id].attempts == s.pubs[id].attempts
  }

  lemma NoPublishSame(before: seq<Frame>, after: seq<Frame>, h: nat)
    requires NoPublish(before, after)
    ensures PublishesOf(after, h) == PublishesOf(before, h)
  {
    if after != before {
      var f: Frame :| !f.PublishFrame? && after == before + [f];
      PublishesSnoc(before, f, h);
    }
  }

  lemma QuietKeeps(s: State, t: State)
    requires Budgeted(s) && Quiet(s, t)
    ensures Budgeted(t)
  {
    forall h: nat
      ensures PublishesOf(t.frames, h) == PublishesOf(s.frames, h)
    {
      NoPublishSame(s.frames, t.frames, h);
    }
    assert Counted(t) by {
      forall id | id in t.pubs
        ensures CountedEntry(t, id, t.pubs[id])
      {
        assert CountedEntry(s, id, s.pubs[id]);
      }
    }
    hide PublishesOf, Transmitted, CountedEntry;
  }

  lemma QuietTwice(s: State, t: State, u: State)
    requires Quiet(s, t) && Quiet(t, u) && (t.frames == s.frames || u.frames == t.frames)
    ensures Quiet(s, u)
  {
  }

  // ------------------------------------------------------------ calls and transmissions

  /** A call without a frame. */
  lemma CallKeeps(s: State, t: State, c: Call)
    requires Budgeted(s) && t.calls == s.calls + [c] && t.frames == s.frames && t.pubs == s.pubs
    ensures Budgeted(t)
  {
    forall h: nat
      ensures Transmitted(t.calls, h, PublishesOf(t.frames, h))
    {
      assert Transmitted(s.calls, h, PublishesOf(s.frames, h));
    }
    forall id | id in t.pubs
      ensures CountedEntry(t, id, t.pubs[id])
    {
      assert CountedEntry(s, id, s.pubs[id]);
    }
  }

  /** The frame of a new call: the first one queued for its handle, later than every other call's. */
  lemma FirstFrame(s: State, t: State, c: Call, id: u16)
    requires Budgeted(s) && t.calls == s.calls + [c] && Numbered(c, id)
    requires t.frames == s.frames + [PublishFrame(|s.calls|, PublishPacket(id, c.qos, false, c.topic, c.payload))]
    ensures WithinBudget(t) && InCallOrder(t.frames)
    ensures PublishesOf(t.frames, |s.calls|) == Copies(c, id, 1)
    ensures forall h: nat :: h != |s.calls| ==> PublishesOf(t.frames, h) == PublishesOf(s.frames, h)
    ensures forall i :: 0 <= i < |t.frames| && t.frames[i].PublishFrame? ==> t.frames[i].handle < |t.calls|
  {
    var f := t.frames[|s.frames|];
    forall h: nat
      ensures Transmitted(t.calls, h, PublishesOf(t.frames, h))
      ensures h != |s.calls| ==> PublishesOf(t.frames, h) == PublishesOf(s.frames, h)
      ensures h == |s.calls| ==> PublishesOf(t.frames, h) == Copies(c, id, 1)
    {
      PublishesSnoc(s.frames, f, h);
      assert Transmitted(s.calls, h, PublishesOf(s.frames, h));
      if h == |s.calls| {
        CopiesSnoc(c, id, 0);
        assert Copies(c, id, 0) == [];
        assert [] + [f.packet] == [f.packet];
      }
    }
  }

  lemma AcceptQos0Keeps(s: State, c: Call)
    requires Budgeted(s) && c.qos == 0
    ensures Budgeted(AcceptQos0(s, c))
  {
    var t := AcceptQos0(s, c);
    FirstFrame(s, t, c, 0);
    CountedAfterCall(s, t);
  }

  lemma CountedAfterCall(s: State, t: State)
    requires Counted(s) && |t.calls| == |s.calls| + 1 && t.calls[..|s.calls|] == s.calls && t.pubs == s.pubs
    requires forall h: nat :: h != |s.calls| ==> PublishesOf(t.frames, h) == PublishesOf(s.frames, h)
    ensures Counted(t)
  {
    forall id | id in t.pubs
      ensures CountedEntry(t, id, t.pubs[id])
    {
      assert CountedEntry(s, id, s.pubs[id]);
    }
  }

  lemma AcceptAndSendKeeps(s: State, c: Call, id: u16)
    requires Budgeted(s) && id !in s.pubs && id > 0 && 0 < c.qos <= 2
    ensures Budgeted(SendPublishEntry(Accept(s, c, id), id))
  {
    var t := SendPublishEntry(Accept(s, c, id), id);
    FirstFrame(s, t, c, id);
    var others := t.(pubs := s.pubs);
    CountedAfterCall(s, others);
    forall j | j in t.pubs
      ensures CountedEntry(t, j, t.pubs[j])
    {
      if j != id {
        assert t.pubs[j] == s.pubs[j];
        assert CountedEntry(others, j, others.pubs[j]);
      }
    }
  }

  /** A retransmission: one attempt more, one frame more, DUP set, every other octet as before. */
  lemma RetryKeeps(s: State, id: u16)
    requires Budgeted(s) && Accounted(s) && id in s.pubs && s.pubs[id].attempts < MAX_ATTEMPTS
    ensures Budgeted(SendPublishEntry(Bump(s, id), id))
  {
    var t := SendPublishEntry(Bump(s, id), id);
    var p := s.pubs[id];
    assert CountedEntry(s, id, p);
    var f := PublishFrame(p.handle, PublishPacket(id, p.qos, true, p.topic, p.payload));
    assert t.frames == s.frames + [f];
    RetryFrame(s, t, id, p, f);
    hide PublishesOf, Transmitted, Times, Truthful, OnceEach, Copies;
    forall j | j in t.pubs
      ensures CountedEntry(t, j, t.pubs[j])
    {
      if j != id {
        assert t.pubs[j] == s.pubs[j] && s.pubs[j].handle != p.handle;
        assert CountedEntry(s, j, s.pubs[j]);
      } else {
        assert t.pubs[id].handle == p.handle && t.pubs[id].attempts == p.attempts + 1;
      }
    }
  }

  lemma RetryFrame(s: State, t: State, id: u16, p: Pub, f: Frame)
    requires Budgeted(s) && CountedEntry(s, id, p) && p.attempts < MAX_ATTEMPTS
    requires t.calls == s.calls && t.frames == s.frames + [f]
    requires p.topic == s.calls[p.handle].topic && p.qos == s.calls[p.handle].qos > 0
    requires p.payload == s.calls[p.handle].payload
    requires f == PublishFrame(p.handle, PublishPacket(id, p.qos, true, p.topic, p.payload))
    ensures WithinBudget(t) && InCallOrder(t.frames)
    ensures PublishesOf(t.frames, p.handle) == Copies(s.calls[p.handle], id, p.attempts + 1)
    ensures forall h: nat :: h != p.handle ==> PublishesOf(t.frames, h) == PublishesOf(s.frames, h)
    ensures forall i :: 0 <= i < |t.frames| && t.frames[i].PublishFrame? ==> t.frames[i].handle < |t.calls|
  {
    forall h: nat
      ensures Transmitted(t.calls, h, PublishesOf(t.frames, h))
      ensures h != p.handle ==> PublishesOf(t.frames, h) == PublishesOf(s.frames, h)
      ensures h == p.handle ==> PublishesOf(t.frames, h) == Copies(s.calls[p.handle], id, p.attempts + 1)
    {
      PublishesSnoc(s.frames, f, h);
      assert Transmitted(s.calls, h, PublishesOf(s.frames, h));
      CopiesSnoc(s.calls[p.handle], id, p.attempts);
    }
  }

  // ------------------------------------------------------------ every step

  lemma NotifyIsQuiet(s: State)
    ensures Quiet(s, NotifyClosedOnce(s))
  {
  }

  lemma RetireIsQuiet(s: State, id: u16, ok: bool)
    requires id in s.pubs
    ensures Quiet(s, Retire(s, id, ok))
  {
  }

  lemma FailureIsQuiet(s: State, id: u16)
    ensures Quiet(s, FinishPublishFailure(s, id))
  {
    hide Quiet;
    if id in s.pubs {
      RetireIsQuiet(s, id, false);
      NotifyIsQuiet(Retire(s, id, false));
      QuietTwice(s, Retire(s, id, false), FinishPublishFailure(s, id));
    } else {
      NotifyIsQuiet(s);
    }
  }

  lemma ArmIsQuiet(s: State, id: u16, on: bool)
    ensures Quiet(s, Arm(s, id, on)) && Quiet(s, ArmRec(s, id, on))
  {
  }

  lemma QueueIsQuiet(s: State, f: Frame)
    requires !f.PublishFrame?
    ensures Quiet(s, Queue(s, f))
  {
    assert Queue(s, f).frames == s.frames + [f];
  }

  lemma PubrecIsQuiet(s: State, id: u16)
    ensures Quiet(s, HandlePubrec(s, id))
  {
    if id in s.pubs {
      var t := ArmRec(TakePubrec(s, id), id, true);
      assert Quiet(s, t);
      hide Quiet;
      QueueIsQuiet(t, PubrelFrame(|s.accepted|, id));
      QuietTwice(s, t, HandlePubrec(s, id));
    }
  }

  lemma PubrecTimerIsQuiet(s: State, id: u16, current: bool)
    ensures Quiet(s, PubrecTimer(s, id, current))
  {
    if id in s.recs {
      var t := if current then ArmRec(s, id, false) else s;
      if t.recs[id].attempts >= MAX_ATTEMPTS {
        NotifyIsQuiet(ArmRec(t, id, false));
        QuietTwice(s, ArmRec(t, id, false), PubrecTimer(s, id, current));
      } else {
        var u := ArmRec(BumpRec(t, id), id, true);
        assert Quiet(s, u);
        hide Quiet;
        QueueIsQuiet(u, PubrelFrame(u.recs[id].serial, id));
        QuietTwice(s, u, PubrecTimer(s, id, current));
      }
    }
  }

  lemma PubcompIsQuiet(s: State, id: u16)
    ensures Quiet(s, HandlePubcomp(s, id))
  {
  }

  lemma SubackIsQuiet(s: State, p: SubackPacket)
    ensures Quiet(s, HandleSuback(s, p))
  {
  }

  lemma ConnackIsQuiet(s: State, p: ConnackPacket)
    ensures Quiet(s, HandleConnack(s, p))
  {
  }

  lemma PubackIsQuiet(s: State, id: u16)
    ensures Quiet(s, HandlePuback(s, id))
  {
  }

  lemma IncomingPublishIsQuiet(s: State, p: PublishPacket)
    ensures Quiet(s, HandlePublish(s, p))
  {
    NotifyIsQuiet(s);
    QueueIsQuiet(s, AckFrame(PUBACK * 16, p.packetId));
    QueueIsQuiet(s, AckFrame(PUBREC * 16, p.packetId));
    NothingIsQuiet(s);
    hide Quiet, NotifyClosedOnce, Queue;
  }

  lemma NothingIsQuiet(s: State)
    ensures Quiet(s, s)
  {
  }

  lemma PacketIsQuiet(s: State, data: bytes)
    ensures Quiet(s, HandlePacket(s, data))
  {
    hide Quiet, HandlePubrec, HandlePuback, HandlePubcomp, HandleSuback, HandlePublish, HandleConnack, Queue;
    hide AckOf, SubackOf, PublishOf, ConnackOf;
    NothingIsQuiet(s);
    ConnackIsQuiet(s, ConnackOf(data));
    IncomingPublishIsQuiet(s, PublishOf(data));
    SubackIsQuiet(s, SubackOf(data));
    PubackIsQuiet(s, AckOf(data));
    PubrecIsQuiet(s, AckOf(data));
    PubcompIsQuiet(s, AckOf(data));
    QueueIsQuiet(s, AckFrame(PUBCOMP * 16, AckOf(data)));
  }

  lemma ControlIsQuiet(s: State, e: Event)
    requires Sound(s)
    requires e.PubrelWrite? || e.SubscribeWrite? || e.Qos0Write? || e.Connect? || e.ResolveFailure?
          || e.ConnectExpiry? || e.LinkLost?
    ensures Quiet(s, Step(s, e))
  {
  }

  lemma TcpIsQuiet(s: State, ok: bool)
    ensures Quiet(s, TcpDone(s, ok))
  {
    QueueIsQuiet(s.(link := Handshaking), ConnectFrame);
  }

  lemma SubscribeIsQuiet(s: State, topic: bytes, qos: byte, hasCallback: bool)
    requires Sound(s)
    ensures Quiet(s, AsyncSubscribe(s, topic, qos, hasCallback))
  {
    var id := FirstFree(s.cursor, Used(s));
    NotifyIsQuiet(s);
    QueueIsQuiet(s.(cursor := id, subs := s.subs[id := Sub(topic, qos, hasCallback)]), SubscribeFrame(id, topic, qos));
    hide FirstFree, Used, NotifyClosedOnce;
  }

  lemma EnterKeeps(s: State, c: Call)
    requires Budgeted(s) && Sound(s) && !s.closed && 0 < c.qos <= 2
    ensures Budgeted(EnterWindow(s, c))
  {
    hide Budgeted, FirstFree;
    var id := FirstFree(s.cursor, Used(s));
    if id == 0 {
      NotifyIsQuiet(s);
      QuietKeeps(s, NotifyClosedOnce(s));
      CallKeeps(NotifyClosedOnce(s), EnterWindow(s, c), c);
    } else if |s.pubs| >= MAX_PENDING {
      CallKeeps(s, EnterWindow(s, c), c);
    } else {
      FoundIsFree(s.cursor, Used(s));
      AcceptAndSendKeeps(s, c, id);
    }
  }

  lemma PublishKeeps(s: State, c: Call)
    requires Budgeted(s) && Sound(s)
    ensures Budgeted(AsyncPublish(s, c))
  {
    hide Budgeted, EnterWindow;
    if c.qos > 2 || s.closed || s.link != Connected {
      CallKeeps(s, Reject(s, c), c);
    } else if c.qos == 0 {
      AcceptQos0Keeps(s, c);
    } else {
      EnterKeeps(s, c);
    }
  }

  lemma PublishTimerKeeps(s: State, id: u16, current: bool)
    requires Budgeted(s) && Accounted(s)
    ensures Budgeted(PublishTimer(s, id, current))
  {
    hide Budgeted, Accounted, SendPublishEntry, FinishPublishFailure, Bump;
    if id in s.pubs {
      ArmIsQuiet(s, id, false);
      QuietKeeps(s, Arm(s, id, false));
      ArmKeeps(s, id, false);
      var t := if current then Arm(s, id, false) else s;
      FailureIsQuiet(t, id);
      QuietKeeps(t, FinishPublishFailure(t, id));
      if t.pubs[id].attempts < MAX_ATTEMPTS {
        RetryKeeps(t, id);
      }
    }
  }

  lemma PublishWrittenIsQuiet(s: State, id: u16, ok: bool)
    ensures Quiet(s, PublishWritten(s, id, ok))
  {
    hide FinishPublishFailure, Arm, Quiet;
    FailureIsQuiet(s, id);
    ArmIsQuiet(s, id, true);
  }

  /** Only a publish call and a publish timer transmit a publish. */
  lemma StepIsQuiet(s: State, e: Event)
    requires Sound(s) && !e.Publish? && !e.PublishExpiry?
    ensures Quiet(s, Step(s, e))
  {
    hide Quiet, Sound, AsyncSubscribe, PublishWritten, PubrelWritten, SubscribeWritten, Arm, FinishPublishFailure;
    hide Qos0Written, PubrecTimer, HandlePacket, NotifyClosedOnce, TcpDone, ResolveFailed, ConnectTimeout;
    match e
    case PublishWrite(id, ok) => PublishWrittenIsQuiet(s, id, ok);
    case Subscribe(topic, qos, hasCallback) => SubscribeIsQuiet(s, topic, qos, hasCallback);
    case PubrecExpiry(id, current) => PubrecTimerIsQuiet(s, id, current);
    case Packet(data) => PacketIsQuiet(s, data);
    case SessionFailure => NotifyIsQuiet(s);
    case TcpResult(ok) => TcpIsQuiet(s, ok);
    case _ => ControlIsQuiet(s, e);
  }

  lemma StepKeepsBudget(s: State, e: Event)
    requires Budgeted(s) && Accounted(s) && Sound(s)
    ensures Budgeted(Step(s, e))
  {
    hide Budgeted, Accounted, Quiet, Sound, AsyncPublish, PublishTimer;
    match e
    case Publish(c) => PublishKeeps(s, c);
    case PublishExpiry(id, current) => PublishTimerKeeps(s, id, current);
    case _ =>
      StepIsQuiet(s, e);
      QuietKeeps(s, Step(s, e));
  }

  lemma {:induction false} RunKeepsBudget(s: State, es: seq<Event>)
    requires Budgeted(s) && Accounted(s) && Sound(s)
    ensures Budgeted(Run(s, es))
    decreases |es|
  {
    if es != [] {
      StepKeepsBudget(s, es[0]);
      StepKeepsAccounts(s, es[0]);
      StepIsSound(s, es[0]);
      hide Budgeted, Accounted;
      RunKeepsBudget(Step(s, es[0]), es[1..]);
    }
  }

  /**
   The retransmission budget, after any run: for a publish in the window exactly as many frames have
   been queued as it has attempts, one to three; for any call at most three, or one at QoS 0. They
   all carry the call's topic, payload and QoS under one packet id, with DUP on all but the first.
   */
  lemma RetransmissionBudget(es: seq<Event>)
    ensures var s := Reached(es); WithinBudget(s) && Counted(s)
  {
    RunKeepsBudget(INITIAL, es);
  }

  /** On the wire the transmissions of a call differ in bit 3 of the first octet, and in nothing else. */
  lemma RetransmissionsAreByteIdentical(es: seq<Event>, h: nat, i: nat)
    requires i < |PublishesOf(Reached(es).frames, h)|
    ensures var ps := PublishesOf(Reached(es).frames, h);
      var first, again := PublishBytes(ps[0]), PublishBytes(ps[i]);
      && |again| == |first| && again[1..] == first[1..]
      && again[0] == first[0] + if i > 0 then 8 else 0
  {
    RetransmissionBudget(es);
    var s := Reached(es);
    var ps := PublishesOf(s.frames, h);
    assert Transmitted(s.calls, h, ps);
    hide PublishesOf;
    if i > 0 {
      assert ps[i] == ps[0].(dup := true);
      DupIsOneBit(ps[0]);
    }
  }

  /** First transmissions are queued in the order of the calls, in every stretch of the frames. */
  lemma FirstTransmissionsInCallOrder(es: seq<Event>, from: nat, to: nat)
    requires from <= to <= |Reached(es).frames|
    ensures InCallOrder(Reached(es).frames[from..to])
  {
    RunKeepsBudget(INITIAL, es);
  }
}
