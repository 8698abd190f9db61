/**
 Does every publish in the window get an answer? A publish is watched while a retry wait of its own,
 or of the PUBREL exchange that took over, is outstanding. This module says exactly which steps leave
 one unwatched. It also shows that a drained session stays drained.
 */
module Coverage {
  import opened Bytes
  import opened Packets
  import opened PacketIds
  import opened Session
  import opened Accounting

  predicate Watched(s: State, id: u16) {
    (id in s.pubs && s.pubs[id].armed) || (id in s.recs && s.recs[id].armed)
  }

  ghost predicate Covered(s: State) {
    forall id :: id in s.pubs ==> Watched(s, id)
  }

  /**
   The steps that strand a publish whose own retry wait is not outstanding: the write of its PUBREL
   fails, or its PUBREL attempts run out on a session that is marked closed already, so that the
   drain that should answer it does not happen.
   */
  predicate Strands(s: State, e: Event) {
    match e
    case PubrelWrite(id, ok) => !ok && id in s.recs && id in s.pubs && !s.pubs[id].armed
    case PubrecExpiry(id, _) =>
      s.closed && id in s.recs && s.recs[id].attempts >= 3 && id in s.pubs && !s.pubs[id].armed
    case _ => false
  }

  // ------------------------------------------------------------ exactly when coverage is lost

  lemma PubrelWriteCovers(s: State, id: u16, ok: bool)
    requires Covered(s)
    ensures Covered(PubrelWritten(s, id, ok)) <==> !Strands(s, PubrelWrite(id, ok))
  {
    var t := PubrelWritten(s, id, ok);
    if Strands(s, PubrelWrite(id, ok)) {
      assert id in t.pubs && !Watched(t, id);
    } else {
      assert forall j :: j in t.pubs ==> Watched(s, j) && Watched(t, j);
    }
  }

  lemma PubrecTimerCovers(s: State, id: u16, current: bool)
    requires Covered(s)
    ensures Covered(PubrecTimer(s, id, current)) <==> !Strands(s, PubrecExpiry(id, current))
  {
    var t := PubrecTimer(s, id, current);
    if id in s.recs {
      if s.recs[id].attempts >= MAX_ATTEMPTS {
        if s.closed {
          assert t.pubs == s.pubs && !t.recs[id].armed;
          assert forall j :: j in t.pubs && j != id ==> Watched(s, j) && Watched(t, j);
          assert id in t.pubs ==> (Watched(t, id) <==> s.pubs[id].armed);
        }
      } else {
        PubrelRepeatCovers(s, id, current);
      }
    }
  }

  lemma PubrelRepeatCovers(s: State, id: u16, current: bool)
    requires Covered(s) && id in s.recs && s.recs[id].attempts < MAX_ATTEMPTS
    ensures Covered(PubrecTimer(s, id, current))
  {
    var t := PubrecTimer(s, id, current);
    assert t.pubs == s.pubs && id in t.recs && t.recs[id].armed;
    forall j | j in t.pubs
      ensures Watched(t, j)
    {
      assert Watched(s, j);
      assert j != id && j in s.recs ==> j in t.recs && t.recs[j] == s.recs[j];
    }
  }

  /** Entries leave or are armed; PUBREL exchanges keep their waits. */
  ghost predicate Watchful(s: State, t: State) {
    forall id :: id in t.pubs ==>
      || t.pubs[id].armed
      || (id in t.recs && t.recs[id].armed)
      || (id in s.pubs && !s.pubs[id].armed && (id in s.recs && s.recs[id].armed ==> id in t.recs && t.recs[id].armed))
  }

  lemma WatchfulCovers(s: State, t: State)
    requires Covered(s) && Watchful(s, t)
    ensures Covered(t)
  {
    forall id | id in t.pubs
      ensures Watched(t, id)
    {
      if !t.pubs[id].armed && id in s.pubs {
        assert Watched(s, id);
      }
    }
  }

  lemma NotifyIsWatchful(s: State)
    ensures Covered(s) ==> Watchful(s, NotifyClosedOnce(s))
  {
  }

  lemma FailureCovers(s: State, id: u16)
    requires Covered(s)
    ensures Covered(FinishPublishFailure(s, id))
  {
    var t := if id in s.pubs then Retire(s, id, false) else s;
    assert forall j :: j in t.pubs ==> Watched(s, j) && Watched(t, j);
    NotifyIsWatchful(t);
    WatchfulCovers(t, NotifyClosedOnce(t));
  }

  lemma SendCovers(s: State, t: State, id: u16)
    requires forall j :: j in s.pubs && j != id ==> Watched(s, j)
    requires t == SendPublishEntry(s, id)
    ensures Covered(t)
  {
    forall j | j in t.pubs
      ensures Watched(t, j)
    {
      assert j != id ==> t.pubs[j] == s.pubs[j];
    }
  }

  lemma PublishTimerCovers(s: State, id: u16, current: bool)
    requires Covered(s)
    ensures Covered(PublishTimer(s, id, current))
  {
    if id in s.pubs {
      var t := if current then Arm(s, id, false) else s;
      assert forall j :: j in t.pubs && j != id ==> t.pubs[j] == s.pubs[j] && Watched(s, j) && Watched(t, j);
      if t.pubs[id].attempts >= MAX_ATTEMPTS {
        var u := Retire(t, id, false);
        assert forall j :: j in u.pubs ==> Watched(t, j) && Watched(u, j);
        NotifyIsWatchful(u);
        WatchfulCovers(u, NotifyClosedOnce(u));
      } else {
        BumpedOthersWatched(t, id);
        SendCovers(Bump(t, id), PublishTimer(s, id, current), id);
      }
    }
  }

  lemma BumpedOthersWatched(t: State, id: u16)
    requires id in t.pubs && forall j :: j in t.pubs && j != id ==> Watched(t, j)
    ensures forall j :: j in Bump(t, id).pubs && j != id ==> Watched(Bump(t, id), j)
  {
    var u := Bump(t, id);
    forall j | j in u.pubs && j != id
      ensures Watched(u, j)
    {
      assert u.pubs[j] == t.pubs[j] && Watched(t, j);
    }
  }

  lemma EnterCovers(s: State, c: Call)
    requires Covered(s) && Sound(s)
    ensures Covered(EnterWindow(s, c))
  {
    hide FirstFree, Used;
    var id := FirstFree(s.cursor, Used(s));
    if id == 0 {
      NotifyIsWatchful(s);
      WatchfulCovers(s, EnterWindow(s, c));
    } else if |s.pubs| >= MAX_PENDING {
      WatchfulCovers(s, EnterWindow(s, c));
    } else {
      var a := Accept(s, c, id);
      forall j | j in a.pubs && j != id
        ensures Watched(a, j)
      {
        assert a.pubs[j] == s.pubs[j] && Watched(s, j);
      }
      SendCovers(a, EnterWindow(s, c), id);
    }
  }

  lemma PublishCovers(s: State, c: Call)
    requires Covered(s) && Sound(s)
    ensures Covered(AsyncPublish(s, c))
  {
    EnterCovers(s, c);
    hide EnterWindow;
    if s.closed || s.link != Connected || c.qos == 0 || c.qos > 2 {
      WatchfulCovers(s, AsyncPublish(s, c));
    }
  }

  lemma PubrecCovers(s: State, id: u16)
    requires Covered(s)
    ensures Covered(HandlePubrec(s, id))
  {
    if id in s.pubs {
      var t := HandlePubrec(s, id);
      forall j | j in t.pubs
        ensures Watched(t, j)
      {
        assert j != id ==> t.pubs[j] == s.pubs[j] && Watched(s, j);
        assert j != id && j in s.recs ==> t.recs[j] == s.recs[j];
        assert id in t.recs && t.recs[id].armed;
      }
    }
  }

  lemma AcksCover(s: State, id: u16, suback: SubackPacket)
    requires Covered(s)
    ensures Covered(HandlePuback(s, id)) && Covered(HandlePubcomp(s, id)) && Covered(HandleSuback(s, suback))
  {
    assert forall j :: j in s.pubs ==> Watched(s, j);
    var a, c, b := HandlePuback(s, id), HandlePubcomp(s, id), HandleSuback(s, suback);
    assert forall j :: j in a.pubs ==> Watched(s, j) && Watched(a, j);
    assert forall j :: j in c.pubs ==> j != id && Watched(s, j) && Watched(c, j);
    assert forall j :: j in b.pubs ==> Watched(s, j) && Watched(b, j);
  }

  lemma PacketCovers(s: State, data: bytes)
    requires Covered(s)
    ensures Covered(HandlePacket(s, data))
  {
    hide Covered, HandlePubrec, HandlePuback, HandlePubcomp, HandleSuback, HandlePublish, HandleConnack, Queue;
    hide AckOf, SubackOf, PublishOf, ConnackOf;
    PubrecCovers(s, AckOf(data));
    AcksCover(s, AckOf(data), SubackOf(data));
    RestCovers(s, PublishOf(data), ConnackOf(data), AckFrame(PUBCOMP * 16, AckOf(data)));
  }

  lemma RestCovers(s: State, publish: PublishPacket, connack: ConnackPacket, f: Frame)
    requires Covered(s)
    ensures Covered(HandlePublish(s, publish)) && Covered(HandleConnack(s, connack)) && Covered(Queue(s, f))
  {
    IncomingPublishCovers(s, publish);
    assert Covered(HandleConnack(s, connack)) by {
      WatchfulCovers(s, HandleConnack(s, connack));
    }
    assert Covered(Queue(s, f)) by {
      WatchfulCovers(s, Queue(s, f));
    }
    hide Covered;
  }

  lemma IncomingPublishCovers(s: State, publish: PublishPacket)
    requires Covered(s)
    ensures Covered(HandlePublish(s, publish))
  {
    WatchfulCovers(s, HandlePublish(s, publish));
  }

  lemma ArmCovers(s: State, id: u16)
    requires Covered(s)
    ensures Covered(Arm(s, id, true))
  {
    WatchfulCovers(s, Arm(s, id, true));
  }

  lemma SubscribeCovers(s: State, topic: bytes, qos: byte, hasCallback: bool)
    requires Covered(s) && Sound(s)
    ensures Covered(AsyncSubscribe(s, topic, qos, hasCallback))
  {
    hide FirstFree, Used;
    NotifyIsWatchful(s);
    WatchfulCovers(s, AsyncSubscribe(s, topic, qos, hasCallback));
  }

  lemma ControlCovers(s: State, e: Event)
    requires Covered(s) && Sound(s)
    requires e.SubscribeWrite? || e.Qos0Write? || e.SessionFailure? || e.Connect? || e.TcpResult? || e.ResolveFailure?
          || e.ConnectExpiry? || e.LinkLost?
    ensures Covered(Step(s, e))
  {
    WatchfulCovers(s, Step(s, e));
  }

  /**
   A step takes coverage from a covered state exactly when it strands a publish in the sense of
   Strands; every other step, of the broker, a timer, a write or the application, keeps it.
   */
  lemma CoverageLostIff(s: State, e: Event)
    requires Covered(s) && Sound(s)
    ensures Covered(Step(s, e)) <==> !Strands(s, e)
  {
    hide Covered, Sound, AsyncPublish, AsyncSubscribe, PubrelWritten, SubscribeWritten, Qos0Written, Arm;
    hide PublishTimer, PubrecTimer, HandlePacket, NotifyClosedOnce, FinishPublishFailure, TcpDone, ResolveFailed;
    hide ConnectTimeout;
    match e
    case Publish(c) => PublishCovers(s, c);
    case Subscribe(topic, qos, hasCallback) => SubscribeCovers(s, topic, qos, hasCallback);
    case PublishWrite(id, ok) =>
      FailureCovers(s, id);
      ArmCovers(s, id);
    case PubrelWrite(id, ok) => PubrelWriteCovers(s, id, ok);
    case PublishExpiry(id, current) => PublishTimerCovers(s, id, current);
    case PubrecExpiry(id, current) => PubrecTimerCovers(s, id, current);
    case Packet(data) => PacketCovers(s, data);
    case _ => ControlCovers(s, e);
  }

  /** A run that never strands a publish. */
  predicate Careful(s: State, es: seq<Event>)
    requires Sound(s)
    decreases |es|
  {
    es == [] || (!Strands(s, es[0]) && (StepIsSound(s, es[0]); Careful(Step(s, es[0]), es[1..])))
  }

  lemma {:induction false} CarefulRunsCover(s: State, es: seq<Event>)
    requires Covered(s) && Sound(s) && Careful(s, es)
    ensures Covered(Run(s, es))
    decreases |es|
  {
    if es != [] {
      CoverageLostIff(s, es[0]);
      StepIsSound(s, es[0]);
      hide Covered, Strands;
      CarefulRunsCover(Step(s, es[0]), es[1..]);
    }
  }

  /**
   No stranded publish: in every state that a run leads to without a stranding step, each publish in
   the window has a retry wait outstanding, its own or that of its PUBREL exchange.
   */
  lemma NoStrandedPublish(es: seq<Event>)
    requires Careful(INITIAL, es)
    ensures Covered(Reached(es))
  {
    CarefulRunsCover(INITIAL, es);
  }

  // ------------------------------------------------------------ a publish that is stranded

  predicate FailedWrite(e: Event) {
    (e.PublishWrite? || e.PubrelWrite? || e.SubscribeWrite? || e.Qos0Write? || e.TcpResult?) && !e.ok
  }

  ghost predicate NoFailure(es: seq<Event>) {
    forall i :: 0 <= i < |es| ==> !FailedWrite(es[i]) && !es[i].SessionFailure? && !es[i].LinkLost?
  }

  /** What the example tracks: one QoS 2 publish under id 2, handed over to its PUBREL exchange. */
  ghost predicate HandedOver(s: State, closed: bool, attempts: nat, armed: bool) {
    && s.closed == closed && s.reports == [] && |s.calls| == 1
    && s.pubs.Keys == {2} && s.pubs[2].handle == 0 && !s.pubs[2].armed
    && 2 in s.recs && s.recs[2].attempts == attempts && s.recs[2].armed == armed
  }

  ghost predicate Fresh(s: State, link: Link) {
    && !s.closed && s.link == link && s.cursor == 1
    && s.pubs == map[] && s.recs == map[] && s.subs == map[] && s.calls == [] && s.reports == []
  }

  lemma Extend(es: seq<Event>, e: Event) returns (longer: seq<Event>)
    ensures longer == es + [e] && Reached(longer) == Step(Reached(es), e)
  {
    longer := es + [e];
    RunSnoc(INITIAL, es, e);
  }

  lemma Established() returns (es: seq<Event>)
    ensures NoFailure(es) && Fresh(Reached(es), Connected) && Reached(es).signals == [OnConnect(true)]
  {
    es := Extend([], Connect);
    es := Extend(es, TcpResult(true));
    assert Fresh(Reached(es), Handshaking) && Reached(es).signals == [];
    es := Answered(es, 0);
  }

  /** A CONNACK with the given return code arrives. */
  lemma Answered(es: seq<Event>, code: byte) returns (longer: seq<Event>)
    requires NoFailure(es)
    ensures NoFailure(longer)
    ensures Reached(longer) == HandleConnack(Reached(es), ConnackPacket(0, code))
  {
    ConnackRoundTrip(ConnackPacket(0, code));
    longer := Extend(es, Packet(ConnackBytes(ConnackPacket(0, code))));
  }

  lemma Published() returns (es: seq<Event>)
    ensures NoFailure(es)
    ensures var s := Reached(es);
      && !s.closed && s.reports == [] && |s.calls| == 1 && s.recs == map[]
      && s.pubs == map[2 := Pub(0, [], 2, [], 1, true)] && s.signals == [OnConnect(true)] && s.link == Connected
  {
    es := Established();
    var s := Reached(es);
    var c := Call([], [], 2);
    SecondIsFree();
    es := Extend(es, Publish(c));
    assert Used(s) == {};
    assert Reached(es) == EnterWindow(s, c);
    hide FirstFree;
    assert EnterWindow(s, c) == SendPublishEntry(Accept(s, c, 2), 2);
  }

  lemma SecondIsFree()
    ensures FirstFree(1, {}) == 2
  {
  }

  lemma Received() returns (es: seq<Event>)
    ensures NoFailure(es) && HandedOver(Reached(es), false, 0, true) && Reached(es).pubs[2].attempts == 1
  {
    es := Published();
    var s := Reached(es);
    AckRoundTrip(PUBREC * 16, 2);
    es := Extend(es, Packet(AckBytes(PUBREC * 16, 2)));
    hide AckOf;
    assert Reached(es) == HandlePubrec(s, 2);
  }

  lemma Repeated(es: seq<Event>, attempts: nat) returns (longer: seq<Event>)
    requires NoFailure(es) && HandedOver(Reached(es), false, attempts, true) && attempts < MAX_ATTEMPTS
    ensures NoFailure(longer) && HandedOver(Reached(longer), false, attempts + 1, true)
  {
    longer := Extend(es, PubrecExpiry(2, true));
  }

  /**
   Coverage can be lost although no write, read or connect ever failed: the broker takes a QoS 2
   publish, stays silent until the PUBREL attempts are used up, then sends an unsolicited CONNACK
   that refuses the session. The last expiry finds the session closed already, and the publish is
   left in the window without a wait and without a report.
   */
  lemma StrandedWithoutAnyFailure()
    ensures exists es: seq<Event> :: NoFailure(es) && StrandedIn(Reached(es), 2)
  {
    var es := Received();
    es := Repeated(es, 0);
    es := Repeated(es, 1);
    es := Repeated(es, 2);
    es := Answered(es, 5);
    assert HandedOver(Reached(es), true, 3, true);
    es := Extend(es, PubrecExpiry(2, true));
    assert HandedOver(Reached(es), true, 3, false);
  }

  /** In the window, without a wait, and never reported. */
  ghost predicate StrandedIn(s: State, id: u16) {
    id in s.pubs && !Watched(s, id) && Times(s.reports, s.pubs[id].handle) == 0
  }

  // ------------------------------------------------------------ a drained session

  predicate Inert(s: State) {
    s.closed && s.pubs == map[] && s.recs == map[] && s.subs == map[]
  }

  /** Only a new connect attempt or an accepted CONNACK opens a session again. */
  predicate Reopens(e: Event) {
    e.Connect? || (e.Packet? && e.data != [] && e.data[0] / 16 == CONNACK && ConnackOf(e.data).returnCode == 0)
  }

  /** How often the close notification has gone out. */
  function Closes(signals: seq<Signal>): nat {
    if signals == [] then 0
    else Closes(signals[..|signals| - 1]) + if signals[|signals| - 1] == OnClose then 1 else 0
  }

  lemma ClosesSnoc(signals: seq<Signal>, g: Signal)
    ensures Closes(signals + [g]) == Closes(signals) + if g == OnClose then 1 else 0
  {
    assert (signals + [g])[..|signals|] == signals;
  }

  /**
   A drained session is inert: whatever arrives, fires or is called, nothing enters the window and
   the close notification does not go out again; a publish is rejected on the spot.
   */
  lemma InertStaysInert(s: State, e: Event)
    requires Inert(s) && Sound(s) && !Reopens(e)
    ensures Inert(Step(s, e))
    ensures Closes(Step(s, e).signals) == Closes(s.signals)
    ensures e.Publish? ==> Step(s, e) == Reject(s, e.call)
  {
    ClosesSnoc(s.signals, OnConnect(false));
    hide Closes;
    if e.Packet? {
      InertPacket(s, e.data);
      hide HandlePacket;
    }
  }

  lemma InertPacket(s: State, data: bytes)
    requires Inert(s) && !Reopens(Packet(data))
    ensures Inert(HandlePacket(s, data))
    ensures HandlePacket(s, data).signals in {s.signals, s.signals + [OnConnect(false)]}
  {
    hide AckOf, SubackOf, PublishOf, ConnackOf;
  }

  lemma {:induction false} InertRuns(s: State, es: seq<Event>)
    requires Sound(s) && Inert(s)
    requires forall i :: 0 <= i < |es| ==> !Reopens(es[i])
    ensures Inert(Run(s, es)) && Closes(Run(s, es).signals) == Closes(s.signals)
    decreases |es|
  {
    if es != [] {
      InertStaysInert(s, es[0]);
      StepIsSound(s, es[0]);
      hide Inert, Reopens, Closes;
      InertRuns(Step(s, es[0]), es[1..]);
    }
  }

  /**
   One failure settles a session for good: after any run that leaves it open, a session failure and
   then anything but a new connect or an accepted CONNACK, every call of QoS 1 or 2 made before has
   been reported exactly once, the window is empty, and the close notification went out once more.
   */
  lemma FailureSettlesTheSession(es: seq<Event>, later: seq<Event>, h: nat)
    requires !Reached(es).closed
    requires forall i :: 0 <= i < |later| ==> !Reopens(later[i])
    requires h < |Reached(es).calls| && Reached(es).calls[h].qos > 0
    ensures var s, t := Reached(es), Run(NotifyClosedOnce(Reached(es)), later);
      && Inert(t)
      && Closes(t.signals) == Closes(s.signals) + 1
      && h < |t.calls| && Times(t.reports, h) == 1
  {
    var s := Reached(es);
    var d := NotifyClosedOnce(s);
    RunKeepsAccounts(INITIAL, es);
    NotifyKeeps(s);
    assert Accounted(d) && Inert(d);
    ClosesSnoc(s.signals, OnClose);
    InertRuns(d, later);
    RunKeepsAccounts(d, later);
    CallsStay(d, later);
    AccountedOnce(Run(d, later), h);
  }

  lemma AccountedOnce(t: State, h: nat)
    requires Accounted(t) && Inert(t) && h < |t.calls| && t.calls[h].qos > 0
    ensures Times(t.reports, h) == 1
  {
    assert !Waiting(t, h);
  }

  lemma {:induction false} CallsStay(s: State, es: seq<Event>)
    requires Sound(s)
    ensures s.calls <= Run(s, es).calls
    decreases |es|
  {
    if es != [] {
      CallsGrow(s, es[0]);
      StepIsSound(s, es[0]);
      hide Step, Sound;
      CallsStay(Step(s, es[0]), es[1..]);
    }
  }

  lemma CallsGrow(s: State, e: Event)
    requires Sound(s)
    ensures s.calls <= Step(s, e).calls
  {
    if e.Publish? {
      CallsGrowByOne(s, e.call);
      hide AsyncPublish;
    } else {
      assert e.Subscribe? || e.Qos0Write? || Keeps(s, Step(s, e)) || Step(s, e).calls == s.calls;
    }
  }

  lemma CallsGrowByOne(s: State, c: Call)
    requires Sound(s)
    ensures AsyncPublish(s, c).calls == s.calls + [c]
  {
    EnterGrows(s, c);
    hide EnterWindow;
  }

  lemma EnterGrows(s: State, c: Call)
    requires Sound(s)
    ensures EnterWindow(s, c).calls == s.calls + [c]
  {
    hide FirstFree, Used;
  }
}
