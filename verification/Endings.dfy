/**
 How a session ends, and what becomes of the publishes in its window. Most endings drain the window;
 a refusing CONNACK and the connect timeout do not, so that publishes outlive their session. This
 module says exactly which step does what, which step answers a publish, and which publishes are sent
 again after a reconnect.
 */
module Endings {
  import opened Bytes
  import opened Packets
  import opened PacketIds
  import opened Framing
  import opened RemainingLength
  import opened Buffers
  import opened Session
  import opened Accounting
  import opened Coverage
  import T = Transmissions
  import P = Pubrels

  // ------------------------------------------------------------ the steps that end a session

  /** The steps that come to the drain of an open session. */
  predicate Drains(s: State, e: Event)
    requires Sound(s)
  {
    && !s.closed
    && match e
       case SessionFailure => true
       case PublishWrite(_, ok) => !ok
       case PublishExpiry(id, _) => id in s.pubs && s.pubs[id].attempts >= 3
       case PubrecExpiry(id, _) => id in s.recs && s.recs[id].attempts >= 3
       case Publish(c) => c.qos in {1, 2} && s.link == Connected && FirstFree(s.cursor, Used(s)) == 0
       case Subscribe(_, qos, _) => qos <= 2 && FirstFree(s.cursor, Used(s)) == 0
       case Packet(data) => BreaksProtocol(s, data)
       case _ => false
  }

  /** A PUBLISH of QoS 3, or a SUBACK without a code for somebody who listens. */
  predicate BreaksProtocol(s: State, data: bytes) {
    && data != []
    && if data[0] / 16 == PUBLISH then PublishOf(data).qos == 3
       else
         && data[0] / 16 == SUBACK && SubackOf(data).packetId in s.subs
         && s.subs[SubackOf(data).packetId].hasCallback && SubackOf(data).returnCodes == []
  }

  predicate Refuses(data: bytes) {
    data != [] && data[0] / 16 == CONNACK && ConnackOf(data).returnCode != 0
  }

  /** The steps that mark an open session closed without the drain. */
  predicate Abandons(s: State, e: Event) {
    !s.closed && (e.ConnectExpiry? || (e.Packet? && Refuses(e.data)))
  }

  predicate SameExchanges(s: State, t: State) {
    t.pubs == s.pubs && t.recs == s.recs && t.subs == s.subs
  }

  /** What a step has to do with the end of an open session. */
  predicate EndsAs(t: State, s: State, drains: bool, abandons: bool) {
    && (t.closed <==> drains || abandons)
    && (drains ==> t.pubs == map[] && t.recs == map[] && t.subs == map[])
    && (abandons ==> SameExchanges(s, t))
  }

  lemma PacketEnds(s: State, data: bytes)
    requires !s.closed
    ensures EndsAs(HandlePacket(s, data), s, BreaksProtocol(s, data), Refuses(data))
  {
    hide AckOf, SubackOf, PublishOf, ConnackOf, Drain;
    assert data != [] ==> PublishOf(data).qos <= 3 by {
      QosFits(data);
    }
  }

  lemma QosFits(data: bytes)
    ensures PublishOf(data).qos <= 3
  {
  }

  lemma PublishEnds(s: State, c: Call)
    requires Sound(s) && !s.closed
    ensures EndsAs(AsyncPublish(s, c), s, Drains(s, Publish(c)), false)
  {
    hide FirstFree, Used, Drain;
  }

  lemma TimersEnd(s: State, id: u16, current: bool)
    requires Sound(s) && !s.closed
    ensures EndsAs(PublishTimer(s, id, current), s, Drains(s, PublishExpiry(id, current)), false)
    ensures EndsAs(PubrecTimer(s, id, current), s, Drains(s, PubrecExpiry(id, current)), false)
  {
    hide Drain;
  }

  /** Exactly these steps close an open session, and only the drains among them empty its maps. */
  lemma ClosesIff(s: State, e: Event)
    requires Sound(s) && !s.closed
    ensures EndsAs(Step(s, e), s, Drains(s, e), Abandons(s, e))
  {
    hide Sound, AsyncPublish, PublishTimer, PubrecTimer, HandlePacket, Drain, FirstFree, Used, BreaksProtocol, Refuses;
    match e
    case Publish(c) => PublishEnds(s, c);
    case PublishExpiry(id, current) => TimersEnd(s, id, current);
    case PubrecExpiry(id, current) => TimersEnd(s, id, current);
    case Packet(data) => PacketEnds(s, data);
    case _ =>
  }

  /**
   A publish outlives its session exactly if the session was abandoned: of the steps that close one,
   only a refusing CONNACK and the connect timeout leave a window that is not empty.
   */
  lemma WindowSurvivesIff(s: State, e: Event)
    requires Sound(s) && !s.closed && Step(s, e).closed
    ensures Step(s, e).pubs != map[] <==> Abandons(s, e) && s.pubs != map[]
  {
    ClosesIff(s, e);
    hide Step, Drains;
  }

  // ------------------------------------------------------------ the steps that answer a publish

  predicate Acks(e: Event, id: u16) {
    e.Packet? && e.data != [] && e.data[0] / 16 in {PUBACK, PUBCOMP} && AckOf(e.data) == id
  }

  /** The acknowledgement, a failed write, the expiry after the last attempt, or a drain. */
  predicate Answers(s: State, e: Event, id: u16)
    requires Sound(s) && id in s.pubs
  {
    || Acks(e, id)
    || e == PublishWrite(id, false)
    || (e.PublishExpiry? && e.id == id && s.pubs[id].attempts >= 3)
    || Drains(s, e)
  }

  /** An entry of the window stays with its handle, or it is gone; a new one has a new handle. */
  ghost predicate Leaves(s: State, t: State, id: u16, gone: bool)
    requires id in s.pubs
  {
    && (gone ==> id !in t.pubs)
    && (!gone ==> id in t.pubs && t.pubs[id].handle == s.pubs[id].handle)
    && forall j :: j in t.pubs && t.pubs[j].handle < |s.calls| ==> j in s.pubs && t.pubs[j].handle == s.pubs[j].handle
  }

  lemma PacketLeaves(s: State, data: bytes, id: u16)
    requires Sound(s) && id in s.pubs
    ensures Leaves(s, HandlePacket(s, data), id, Answers(s, Event.Packet(data), id))
  {
    hide AckOf, SubackOf, PublishOf, ConnackOf, Drain, FirstFree, Used;
    QosFits(data);
  }

  lemma PublishLeaves(s: State, c: Call, id: u16)
    requires Sound(s) && id in s.pubs
    ensures Leaves(s, AsyncPublish(s, c), id, Answers(s, Publish(c), id))
  {
    if c.qos in {1, 2} && !s.closed && s.link == Connected {
      EnteringLeaves(s, c, id);
    }
    hide EnterWindow, FirstFree, Used;
  }

  lemma EnteringLeaves(s: State, c: Call, id: u16)
    requires Sound(s) && id in s.pubs && !s.closed
    ensures Leaves(s, EnterWindow(s, c), id, FirstFree(s.cursor, Used(s)) == 0)
  {
    var next := FirstFree(s.cursor, Used(s));
    if next != 0 {
      FoundIsFree(s.cursor, Used(s));
    }
    assert next !in s.pubs || next == 0;
    hide FirstFree, Used, Leaves, NotifyClosedOnce, Reject, Accept, SendPublishEntry;
    if next == 0 {
      DrainedLeaves(s, c, id);
    } else if |s.pubs| >= MAX_PENDING {
      RejectedLeaves(s, s.(cursor := next), c, id);
    } else {
      AcceptedLeaves(s, c, next, id);
    }
  }

  lemma DrainedLeaves(s: State, c: Call, id: u16)
    requires id in s.pubs && !s.closed
    ensures Leaves(s, Reject(NotifyClosedOnce(s), c), id, true)
  {
    hide Drain;
  }

  lemma RejectedLeaves(s: State, r: State, c: Call, id: u16)
    requires id in s.pubs && r.pubs == s.pubs
    ensures Leaves(s, Reject(r, c), id, false)
  {
  }

  lemma AcceptedLeaves(s: State, c: Call, next: u16, id: u16)
    requires id in s.pubs && next !in s.pubs
    ensures Leaves(s, SendPublishEntry(Accept(s, c, next), next), id, false)
  {
  }

  lemma PublishTimerLeaves(s: State, id: u16, current: bool, j: u16)
    requires Sound(s) && id in s.pubs
    ensures Leaves(s, PublishTimer(s, j, current), id, Answers(s, PublishExpiry(j, current), id))
  {
    hide Drain, FirstFree, Used;
  }

  lemma PubrecTimerLeaves(s: State, id: u16, current: bool, j: u16)
    requires Sound(s) && id in s.pubs
    ensures Leaves(s, PubrecTimer(s, j, current), id, Answers(s, PubrecExpiry(j, current), id))
  {
    hide Drain, FirstFree, Used;
  }

  lemma StepLeaves(s: State, e: Event, id: u16)
    requires Sound(s) && id in s.pubs
    ensures Leaves(s, Step(s, e), id, Answers(s, e, id))
  {
    hide Sound, AsyncPublish, AsyncSubscribe, PublishTimer, PubrecTimer, HandlePacket, Answers, Leaves;
    match e
    case Publish(c) => PublishLeaves(s, c, id);
    case PublishExpiry(j, current) => PublishTimerLeaves(s, id, current, j);
    case PubrecExpiry(j, current) => PubrecTimerLeaves(s, id, current, j);
    case Packet(data) => PacketLeaves(s, data, id);
    case Subscribe(topic, qos, hasCallback) => SubscribeLeaves(s, topic, qos, hasCallback, id);
    case _ => WriteLeaves(s, e, id);
  }

  lemma SubscribeLeaves(s: State, topic: bytes, qos: byte, hasCallback: bool, id: u16)
    requires Sound(s) && id in s.pubs
    ensures var e := Subscribe(topic, qos, hasCallback); Leaves(s, Step(s, e), id, Answers(s, e, id))
  {
    hide Drain, FirstFree, Used;
  }

  lemma WriteLeaves(s: State, e: Event, id: u16)
    requires Sound(s) && id in s.pubs
    requires !e.Publish? && !e.PublishExpiry? && !e.PubrecExpiry? && !e.Packet? && !e.Subscribe?
    ensures Leaves(s, Step(s, e), id, Answers(s, e, id))
  {
    hide Drain;
  }

  /**
   What answers a publish of the window, stranded or not, on an open session or one marked closed: its
   callback runs exactly in these steps, once, and until then it stays.
   */
  lemma AnsweredIff(s: State, e: Event, id: u16)
    requires Sound(s) && Accounted(s) && id in s.pubs
    ensures var t, h := Step(s, e), s.pubs[id].handle;
      && Times(s.reports, h) == 0
      && Times(t.reports, h) == (if Answers(s, e, id) then 1 else 0)
      && (id in t.pubs && t.pubs[id].handle == h <==> !Answers(s, e, id))
  {
    var t, h := Step(s, e), s.pubs[id].handle;
    StepKeepsAccounts(s, e);
    StepLeaves(s, e, id);
    CallsGrow(s, e);
    DueIsWaiting(s, h);
    DueIsWaiting(t, h);
    assert Injective(s.pubs) && Genuine(s.calls, h, s.pubs[id].topic, s.pubs[id].qos);
    assert s.calls[h].qos > 0;
    hide Step, Times, Sound, Answers, Accounted;
    assert InWindow(s.pubs, h);
    if InWindow(t.pubs, h) {
      var j :| j in t.pubs && t.pubs[j].handle == h;
      assert j in s.pubs && s.pubs[j].handle == h;
      assert j == id;
    }
  }

  lemma DrainAnswers(s: State, e: Event, id: u16)
    requires Sound(s) && Accounted(s) && id in s.pubs && Drains(s, e)
    ensures Times(Step(s, e).reports, s.pubs[id].handle) == 1
  {
    hide Sound, Accounted, Times, Step, Drains;
    AnsweredIff(s, e, id);
  }

  /** The stranded publish of the example, for one, is answered by the next session failure after a connect. */
  lemma StrandedIsAnsweredByReopening(es: seq<Event>, id: u16)
    requires id in Reached(es).pubs
    ensures Times(Reached(es + [Connect] + [SessionFailure]).reports, Reached(es).pubs[id].handle) == 1
  {
    hide Sound, Accounted, Times, Run;
    var up := Extend(es, Connect);
    ReachedIsAccounted(up);
    var failed := Extend(up, SessionFailure);
    assert Reached(up).pubs == Reached(es).pubs && !Reached(up).closed;
    assert Drains(Reached(up), SessionFailure);
    DrainAnswers(Reached(up), SessionFailure, id);
  }

  // ------------------------------------------------------------ one expiry

  /**
   An expiry that finds its publish on an open session closes it exactly after the third attempt, at
   QoS 1 as at QoS 2: then every publish of the window is reported, not only this one. Before, it sends
   one PUBLISH more and leaves all others alone.
   */
  lemma ExpiryClosesIff(s: State, id: u16, current: bool)
    requires Sound(s) && Accounted(s) && id in s.pubs && !s.closed
    ensures var t := PublishTimer(s, id, current);
      && (t.closed <==> s.pubs[id].attempts >= 3)
      && (t.closed ==> t.pubs == map[] && t.signals == s.signals + [OnClose])
      && (t.closed ==> forall j :: j in s.pubs ==> Times(t.reports, s.pubs[j].handle) == 1)
      && (!t.closed ==> SentOnceMore(s, t, id))
  {
    if s.pubs[id].attempts >= MAX_ATTEMPTS {
      LastExpiry(s, id, current);
    } else {
      EarlierExpiry(s, id, current);
    }
    hide PublishTimer, SentOnceMore, Times, Accounted;
  }

  lemma LastExpiry(s: State, id: u16, current: bool)
    requires Sound(s) && Accounted(s) && id in s.pubs && !s.closed && s.pubs[id].attempts >= MAX_ATTEMPTS
    ensures var t := PublishTimer(s, id, current);
      && t.closed && t.pubs == map[] && t.signals == s.signals + [OnClose]
      && forall j :: j in s.pubs ==> Times(t.reports, s.pubs[j].handle) == 1
  {
    hide Sound, Accounted, Times, PublishTimer;
    LastExpiryDrains(s, id, current);
    forall j | j in s.pubs
      ensures Times(PublishTimer(s, id, current).reports, s.pubs[j].handle) == 1
    {
      DrainAnswers(s, PublishExpiry(id, current), j);
    }
  }

  lemma LastExpiryDrains(s: State, id: u16, current: bool)
    requires id in s.pubs && !s.closed && s.pubs[id].attempts >= MAX_ATTEMPTS
    ensures var t := PublishTimer(s, id, current); t.closed && t.pubs == map[] && t.signals == s.signals + [OnClose]
  {
    hide Drain;
  }

  lemma EarlierExpiry(s: State, id: u16, current: bool)
    requires id in s.pubs && !s.closed && s.pubs[id].attempts < MAX_ATTEMPTS
    ensures var t := PublishTimer(s, id, current); !t.closed && SentOnceMore(s, t, id)
  {
    var t := PublishTimer(s, id, current);
    assert t.pubs == s.pubs[id := s.pubs[id].(attempts := s.pubs[id].attempts + 1, armed := true)];
  }

  predicate SentOnceMore(s: State, t: State, id: u16)
    requires id in s.pubs
  {
    var p := s.pubs[id];
    && t.frames == s.frames + [PublishFrame(p.handle, PublishPacket(id, p.qos, p.attempts > 0, p.topic, p.payload))]
    && t.reports == s.reports && t.recs == s.recs && t.subs == s.subs && t.signals == s.signals
    && t.pubs == s.pubs[id := p.(attempts := p.attempts + 1, armed := true)]
  }

  /**
   A session failure reports every call of QoS 1 and 2 that is still open exactly if the session is not
   marked closed already, or has nothing in its window.
   */
  lemma FailureSettlesIff(es: seq<Event>)
    ensures var s := Reached(es);
      (forall h: nat :: h < |s.calls| && s.calls[h].qos > 0 ==> Times(NotifyClosedOnce(s).reports, h) == 1)
      <==> !s.closed || s.pubs == map[]
  {
    var s := Reached(es);
    var t := NotifyClosedOnce(s);
    RunKeepsAccounts(INITIAL, es);
    NotifyKeeps(s);
    hide Times, Reached;
    if !s.closed || s.pubs == map[] {
      forall h: nat | h < |s.calls| && s.calls[h].qos > 0
        ensures Times(t.reports, h) == 1
      {
        DueIsWaiting(t, h);
        assert !InWindow(t.pubs, h);
      }
    } else {
      var id :| id in s.pubs;
      var h := s.pubs[id].handle;
      DueIsWaiting(s, h);
      assert InWindow(s.pubs, h);
    }
  }

  // ------------------------------------------------------------ what is sent on the next session

  /** An expiry that sends the PUBLISH of one of the first n calls again. */
  predicate Retries(s: State, e: Event, n: nat) {
    && e.PublishExpiry? && e.id in s.pubs
    && s.pubs[e.id].handle < n && s.pubs[e.id].attempts < 3
  }

  /**
   Nothing is sent for the first n calls, and their entries keep their attempts. No wait of theirs is
   armed, except that of an entry in `may`.
   */
  ghost predicate Passes(s: State, t: State, n: nat, may: set<u16>) {
    && |s.calls| <= |t.calls|
    && (forall h: nat :: h < n ==> T.PublishesOf(t.frames, h) == T.PublishesOf(s.frames, h))
    && forall id :: id in t.pubs && t.pubs[id].handle < n ==>
         && id in s.pubs && t.pubs[id].handle == s.pubs[id].handle && t.pubs[id].attempts == s.pubs[id].attempts
         && (t.pubs[id].armed ==> s.pubs[id].armed || id in may)
  }

  /** The entries are those of before, or have their wait cancelled. */
  ghost predicate Unarming(s: State, t: State) {
    forall id :: id in t.pubs ==> id in s.pubs && t.pubs[id] in {s.pubs[id], s.pubs[id].(armed := false)}
  }

  lemma QuietPasses(s: State, t: State, n: nat)
    requires T.Quiet(s, t) && Unarming(s, t)
    ensures Passes(s, t, n, {})
  {
    forall h: nat
      ensures T.PublishesOf(t.frames, h) == T.PublishesOf(s.frames, h)
    {
      T.NoPublishSame(s.frames, t.frames, h);
    }
    hide T.PublishesOf;
  }

  /** A PUBLISH of a later call, or none. */
  lemma LaterPasses(s: State, t: State, n: nat, f: Frame)
    requires |s.calls| <= |t.calls|
    requires t.frames == s.frames || (t.frames == s.frames + [f] && f.PublishFrame? && f.handle >= n)
    requires forall id :: id in t.pubs && t.pubs[id].handle < n ==> id in s.pubs && t.pubs[id] == s.pubs[id]
    ensures Passes(s, t, n, {})
  {
    forall h: nat | h < n
      ensures T.PublishesOf(t.frames, h) == T.PublishesOf(s.frames, h)
    {
      T.PublishesSnoc(s.frames, f, h);
    }
    hide T.PublishesOf;
  }

  lemma EnteringPasses(s: State, c: Call, n: nat)
    requires Sound(s) && n <= |s.calls|
    ensures Passes(s, EnterWindow(s, c), n, {})
  {
    hide FirstFree, Used, Passes, NotifyClosedOnce, Reject;
    var id := FirstFree(s.cursor, Used(s));
    if id == 0 {
      DrainPasses(s, c, n);
    } else if |s.pubs| >= MAX_PENDING {
      RejectPasses(s, s.(cursor := id), c, n);
    } else {
      AcceptPasses(s, c, id, n);
    }
  }

  lemma DrainPasses(s: State, c: Call, n: nat)
    ensures Passes(s, Reject(NotifyClosedOnce(s), c), n, {})
  {
    hide Drain, Passes;
    LaterPasses(s, Reject(NotifyClosedOnce(s), c), n, ConnectFrame);
  }

  lemma RejectPasses(s: State, r: State, c: Call, n: nat)
    requires r.pubs == s.pubs && r.frames == s.frames && r.calls == s.calls
    ensures Passes(s, Reject(r, c), n, {})
  {
    hide Passes;
    LaterPasses(s, Reject(r, c), n, ConnectFrame);
  }

  lemma AcceptPasses(s: State, c: Call, id: u16, n: nat)
    requires n <= |s.calls|
    ensures Passes(s, SendPublishEntry(Accept(s, c, id), id), n, {})
  {
    hide Passes;
    LaterPasses(s, SendPublishEntry(Accept(s, c, id), id), n,
                PublishFrame(|s.calls|, PublishPacket(id, c.qos, false, c.topic, c.payload)));
  }

  lemma PublishPasses(s: State, c: Call, n: nat)
    requires Sound(s) && n <= |s.calls|
    ensures Passes(s, AsyncPublish(s, c), n, {})
  {
    hide EnterWindow, Passes, Reject, AcceptQos0;
    EnteringPasses(s, c, n);
    RejectPasses(s, s, c, n);
    Qos0Passes(s, c, n);
  }

  lemma Qos0Passes(s: State, c: Call, n: nat)
    requires n <= |s.calls|
    ensures Passes(s, AcceptQos0(s, c), n, {})
  {
    hide Passes;
    LaterPasses(s, AcceptQos0(s, c), n,
                PublishFrame(|s.calls|, PublishPacket(0, 0, false, c.topic, c.payload)));
  }

  lemma ExpiryPasses(s: State, id: u16, current: bool, n: nat)
    requires !Retries(s, PublishExpiry(id, current), n)
    ensures Passes(s, PublishTimer(s, id, current), n, {})
  {
    var a := if current then Arm(s, id, false) else s;
    var t := PublishTimer(s, id, current);
    if id in s.pubs && s.pubs[id].attempts < MAX_ATTEMPTS {
      LaterRetryPasses(s, a, id, n);
    } else {
      T.ArmIsQuiet(s, id, false);
      T.NothingIsQuiet(s);
      T.FailureIsQuiet(a, id);
      T.QuietTwice(s, a, t);
      LastExpiryUnarms(s, a, id);
      QuietPasses(s, t, n);
    }
  }

  lemma LaterRetryPasses(s: State, a: State, id: u16, n: nat)
    requires id in s.pubs && s.pubs[id].handle >= n && (a == s || a == Arm(s, id, false))
    ensures id in a.pubs && Passes(s, SendPublishEntry(Bump(a, id), id), n, {})
  {
    hide Passes;
    var t := SendPublishEntry(Bump(a, id), id);
    LaterPasses(s, t, n, PublishFrame(s.pubs[id].handle, EntryPacket(Bump(a, id).pubs[id], id)));
  }

  lemma LastExpiryUnarms(s: State, a: State, id: u16)
    requires a == s || a == Arm(s, id, false)
    ensures Unarming(s, FinishPublishFailure(a, id)) && Unarming(s, s)
  {
    hide Drain;
  }

  lemma WritePasses(s: State, id: u16, ok: bool, n: nat)
    ensures Passes(s, PublishWritten(s, id, ok), n, if ok then {id} else {})
  {
    if ok {
      hide T.PublishesOf;
    } else {
      T.FailureIsQuiet(s, id);
      LastExpiryUnarms(s, s, id);
      QuietPasses(s, FinishPublishFailure(s, id), n);
    }
  }

  lemma PacketUnarms(s: State, data: bytes)
    ensures Unarming(s, HandlePacket(s, data))
  {
    hide AckOf, SubackOf, PublishOf, ConnackOf, Drain;
  }

  lemma OthersUnarm(s: State, e: Event)
    requires Sound(s) && !e.Publish? && !e.PublishExpiry? && !e.PublishWrite?
    ensures Unarming(s, Step(s, e))
  {
    hide HandlePacket, Drain, FirstFree, Used;
    if e.Packet? {
      PacketUnarms(s, e.data);
    }
  }

  /** The only wait that a step may arm for a call made before. */
  function Armed(e: Event): set<u16> {
    if e.PublishWrite? && e.ok then {e.id} else {}
  }

  lemma StepPasses(s: State, e: Event, n: nat)
    requires Sound(s) && n <= |s.calls| && !Retries(s, e, n)
    ensures Passes(s, Step(s, e), n, Armed(e))
  {
    hide Passes, AsyncPublish, PublishTimer, PublishWritten, Sound, Unarming, Retries;
    match e
    case Publish(c) => PublishPasses(s, c, n);
    case PublishExpiry(id, current) => ExpiryPasses(s, id, current, n);
    case PublishWrite(id, ok) => WritePasses(s, id, ok, n);
    case _ =>
      T.StepIsQuiet(s, e);
      OthersUnarm(s, e);
      QuietPasses(s, Step(s, e), n);
      hide Step;
  }

  /** No call before the n-th has an attempt left. */
  ghost predicate SpentBefore(s: State, n: nat) {
    forall id :: id in s.pubs && s.pubs[id].handle < n ==> s.pubs[id].attempts >= MAX_ATTEMPTS
  }

  /** No call before the n-th has both an attempt left and a wait outstanding. */
  ghost predicate IdleBefore(s: State, n: nat) {
    forall id :: id in s.pubs && s.pubs[id].handle < n && s.pubs[id].armed ==> s.pubs[id].attempts >= MAX_ATTEMPTS
  }

  /**
   The expiry of a wait that is outstanding, and the write of a PUBLISH whose entry waits for it. What this
   rules out, for the first n calls, are completions that the client would have cancelled, or that can
   only come while a PUBLISH of the entry is being written.
   */
  predicate InTime(s: State, e: Event, n: nat) {
    match e
    case PublishExpiry(id, current) => id in s.pubs && s.pubs[id].handle < n ==> current && s.pubs[id].armed
    case PublishWrite(id, ok) => ok && id in s.pubs && s.pubs[id].handle < n ==> s.pubs[id].armed
    case _ => true
  }

  predicate Timely(s: State, es: seq<Event>, n: nat)
    requires Sound(s)
    decreases |es|
  {
    es == [] || (InTime(s, es[0], n) && (StepIsSound(s, es[0]); Timely(Step(s, es[0]), es[1..], n)))
  }

  ghost predicate SendsNothing(s: State, t: State, n: nat) {
    forall h: nat :: h < n ==> T.PublishesOf(t.frames, h) == T.PublishesOf(s.frames, h)
  }

  lemma {:induction false} SpentSendsNothing(s: State, es: seq<Event>, n: nat)
    requires SpentBefore(s, n) && Sound(s) && n <= |s.calls|
    ensures SendsNothing(s, Run(s, es), n)
    decreases |es|
  {
    if es != [] {
      StepPasses(s, es[0], n);
      StepIsSound(s, es[0]);
      hide Step, Sound, T.PublishesOf;
      SpentSendsNothing(Step(s, es[0]), es[1..], n);
    }
  }

  lemma {:induction false} IdleSendsNothing(s: State, es: seq<Event>, n: nat)
    requires IdleBefore(s, n) && Sound(s) && n <= |s.calls| && Timely(s, es, n)
    ensures SendsNothing(s, Run(s, es), n)
    decreases |es|
  {
    if es != [] {
      StepPasses(s, es[0], n);
      StepIsSound(s, es[0]);
      hide Step, Sound, T.PublishesOf;
      IdleSendsNothing(Step(s, es[0]), es[1..], n);
    }
  }

  /**
   A window without attempts left is not sent again: after any run, also a late timer, a late write or a
   reconnect makes no run that follows send a PUBLISH for a call already made.
   */
  lemma SpentIsNotResent(es: seq<Event>, later: seq<Event>)
    requires SpentBefore(Reached(es), |Reached(es).calls|)
    ensures SendsNothing(Reached(es), Run(Reached(es), later), |Reached(es).calls|)
  {
    SpentSendsNothing(Reached(es), later, |Reached(es).calls|);
  }

  /** No timely run that follows sends a PUBLISH for a call already made. */
  ghost predicate NothingResent(s: State)
    requires Sound(s)
  {
    forall later: seq<Event> :: Timely(s, later, |s.calls|) ==> SendsNothing(s, Run(s, later), |s.calls|)
  }

  /**
   What is in the window when a session comes up, or at any other point of any run, is not sent again
   exactly if no entry with a wait outstanding has an attempt left. An empty window is one such case, a
   publish in its PUBREL phase another.
   */
  lemma NothingResentIff(es: seq<Event>)
    ensures NothingResent(Reached(es)) <==> IdleBefore(Reached(es), |Reached(es).calls|)
  {
    var s := Reached(es);
    ReachedIsAccounted(es);
    assert Sound(s);
    hide SendsNothing, Reached, Sound;
    if IdleBefore(s, |s.calls|) {
      forall later: seq<Event> | Timely(s, later, |s.calls|)
        ensures SendsNothing(s, Run(s, later), |s.calls|)
      {
        IdleSendsNothing(s, later, |s.calls|);
      }
    } else {
      var id :| id in s.pubs && s.pubs[id].armed && s.pubs[id].attempts < MAX_ATTEMPTS;
      OneMoreIsSent(s, id);
    }
  }

  /** The outstanding wait expires. */
  lemma OneMoreIsSent(s: State, id: u16)
    requires Sound(s) && Accounted(s) && id in s.pubs && s.pubs[id].armed && s.pubs[id].attempts < MAX_ATTEMPTS
    ensures !NothingResent(s)
  {
    var e := PublishExpiry(id, true);
    OneMoreFrame(s, id);
    hide Accounted, T.PublishesOf, PublishTimer;
    RunSnoc(s, [], e);
    assert [] + [e] == [e] && |[e][1..]| == 0;
    assert Timely(s, [e], |s.calls|);
    assert Run(s, [e]) == PublishTimer(s, id, true);
  }

  lemma OneMoreFrame(s: State, id: u16)
    requires Sound(s) && Accounted(s) && id in s.pubs && s.pubs[id].attempts < MAX_ATTEMPTS
    ensures s.pubs[id].handle < |s.calls| && !SendsNothing(s, PublishTimer(s, id, true), |s.calls|)
  {
    var h := s.pubs[id].handle;
    var t := PublishTimer(s, id, true);
    assert h < |s.calls|;
    hide Accounted;
    var f := PublishFrame(h, EntryPacket(Bump(Arm(s, id, false), id).pubs[id], id));
    assert t.frames == s.frames + [f];
    T.PublishesSnoc(s.frames, f, h);
    assert |T.PublishesOf(t.frames, h)| == |T.PublishesOf(s.frames, h)| + 1;
  }

  /** One QoS 2 publish under id 2, sent `attempts` times and waiting. */
  predicate Held(s: State, attempts: nat, closed: bool, link: Link, signals: seq<Signal>) {
    && s.closed == closed && s.link == link && s.signals == signals
    && |s.calls| == 1 && s.reports == [] && s.pubs == map[2 := Pub(0, [], 2, [], attempts, true)]
  }

  /** A publish of an earlier session, live on the session that has just come up. */
  predicate CarriedOver(s: State, attempts: nat) {
    Held(s, attempts, false, Connected, [OnConnect(true), OnConnect(false), OnConnect(true)])
  }

  predicate SendsAgain(s: State)
    requires Sound(s)
  {
    Step(s, PublishExpiry(2, true)).frames == s.frames + [PublishFrame(0, PublishPacket(2, 2, true, [], []))]
  }

  lemma CarriedOverIsSent(s: State)
    requires Sound(s) && CarriedOver(s, 1)
    ensures SendsAgain(s)
  {
  }

  /** One step of the example. */
  lemma Hold(es: seq<Event>, e: Event, attempts: nat, closed: bool, link: Link, signals: seq<Signal>)
    returns (longer: seq<Event>)
    requires NoFailure(es) && NoFailure([e])
    requires Held(Step(Reached(es), e), attempts, closed, link, signals)
    ensures NoFailure(longer) && Held(Reached(longer), attempts, closed, link, signals)
  {
    assert !FailedWrite([e][0]);
    hide Step, Held, Run;
    longer := Extend(es, e);
  }

  lemma HoldExpiry(es: seq<Event>, attempts: nat, signals: seq<Signal>) returns (longer: seq<Event>)
    requires NoFailure(es) && Held(Reached(es), attempts, false, Connected, signals) && attempts < MAX_ATTEMPTS
    ensures NoFailure(longer) && Held(Reached(longer), attempts + 1, false, Connected, signals)
  {
    var e := PublishExpiry(2, true);
    var t := Step(Reached(es), e);
    hide Run;
    assert t.pubs == map[2 := Pub(0, [], 2, [], attempts + 1, true)];
    longer := Hold(es, e, attempts + 1, false, Connected, signals);
  }

  /** An unsolicited CONNACK refuses the session, and the next connect is accepted. */
  lemma HoldOver(es: seq<Event>, attempts: nat) returns (longer: seq<Event>)
    requires NoFailure(es) && Held(Reached(es), attempts, false, Connected, [OnConnect(true)])
    ensures NoFailure(longer) && CarriedOver(Reached(longer), attempts)
  {
    hide Run;
    longer := Answered(es, 5);
    assert Held(Reached(longer), attempts, true, Disconnected, [OnConnect(true), OnConnect(false)]);
    longer := Hold(longer, Connect, attempts, false, Connecting, [OnConnect(true), OnConnect(false)]);
    longer := Hold(longer, TcpResult(true), attempts, false, Handshaking, [OnConnect(true), OnConnect(false)]);
    longer := Answered(longer, 0);
  }

  /**
   It happens without any failed write, read or connect: a QoS 2 publish is sent, the session is refused,
   the next connect is accepted, and the retry timer, which nothing has stopped, sends the publish on the
   new session, with its old packet id.
   */
  lemma ResentOnTheNextSession()
    ensures exists es :: NoFailure(es) && CarriedOver(Reached(es), 1) && SendsAgain(Reached(es))
  {
    hide SendsAgain;
    var es := Published();
    es := HoldOver(es, 1);
    CarriedOverIsSent(Reached(es));
    hide Run, CarriedOver;
    assert NoFailure(es) && CarriedOver(Reached(es), 1);
  }

  /**
   An empty window is not the exact condition: with its three attempts used up before the session was
   refused, the publish is in the window of the next one, and no run whatever sends it again.
   */
  lemma SpentWindowIsNotResent()
    ensures exists es :: NoFailure(es) && CarriedOver(Reached(es), 3) && NeverResent(Reached(es))
  {
    hide Run, NeverResent;
    var es := Published();
    es := HoldExpiry(es, 1, [OnConnect(true)]);
    es := HoldExpiry(es, 2, [OnConnect(true)]);
    es := HoldOver(es, 3);
    assert NeverResent(Reached(es)) by {
      SpentIsNever(Reached(es));
    }
    assert CarriedOver(Reached(es), 3);
  }

  /** No run that follows, timely or not, sends a PUBLISH for a call already made. */
  ghost predicate NeverResent(s: State)
    requires Sound(s)
  {
    forall later: seq<Event> :: SendsNothing(s, Run(s, later), |s.calls|)
  }

  lemma SpentIsNever(s: State)
    requires Sound(s) && CarriedOver(s, 3)
    ensures NeverResent(s)
  {
    hide SendsNothing;
    forall later: seq<Event>
      ensures SendsNothing(s, Run(s, later), |s.calls|)
    {
      SpentSendsNothing(s, later, |s.calls|);
    }
  }

  /** A publish whose PUBREC was taken: still in the window, its own wait cancelled, attempts left. */
  predicate InPubrelPhase(s: State) {
    2 in s.pubs && s.pubs[2].attempts < MAX_ATTEMPTS && !s.pubs[2].armed && 2 in s.recs
  }

  /** And a publish in its PUBREL phase is not sent again either, whatever attempts it has left. */
  lemma PubrelPhaseIsNotResent()
    ensures exists es :: NoFailure(es) && InPubrelPhase(Reached(es)) && NothingResent(Reached(es))
  {
    hide Run, NothingResent;
    var es := Received();
    NothingResentIff(es);
    assert IdleBefore(Reached(es), |Reached(es).calls|);
    assert NoFailure(es) && InPubrelPhase(Reached(es));
  }

  // ------------------------------------------------------------ an accepted connect, and PUBREL

  /** A CONNACK opens the session exactly if its return code is 0 or missing. */
  lemma ConnackOpensIff(s: State, data: bytes)
    requires data != [] && data[0] / 16 == CONNACK
    ensures var t := HandlePacket(s, data);
      && (|BodyOf(data)| < 2 || BodyOf(data)[1] == 0 <==> !t.closed)
      && (!t.closed <==> t.link == Connected) && t.signals == s.signals + [OnConnect(!t.closed)]
  {
    ConnackCodeIff(data);
    hide ConnackOf, BodyOf;
  }

  /** The shortest packet of all is one of those: it is delivered, and opens the session. */
  lemma EmptyConnackOpens(s: State)
    ensures var data: bytes := [CONNACK * 16, 0];
      && Deframe(data).frames == [data]
      && !HandlePacket(s, data).closed && HandlePacket(s, data).link == Connected
  {
    var data: bytes := [CONNACK * 16, 0];
    assert data[1..] == [0];
    assert Decode([0], 4) == Done(0, 1);
    NextOfWellFormed(data, []);
    assert data + [] == data;
    assert Deframe([]).frames == [];
    assert BodyOf(data) == [];
    ConnackOpensIff(s, data);
  }

  /** Four PUBRELs are sent for one PUBREC in a run without any failure. */
  lemma FourPubrelsAreSent()
    ensures exists es, n :: NoFailure(es) && P.RelsOf(Reached(es).frames, n) == 4
  {
    var es := Received();
    es := Repeated(es, 0);
    es := Repeated(es, 1);
    es := Repeated(es, 2);
    P.PubrelsAreBounded(es, 2);
    hide Reached, P.RelsOf;
    assert P.RelsOf(Reached(es).frames, Reached(es).recs[2].serial) == 4;
  }
}
