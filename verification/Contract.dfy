/**
 What a publish callback means. Success is reported for an acknowledgement and for nothing else, and
 a publish that was reported is not sent again, not even on a later session.
 */
module Contract {
  import opened Bytes
  import opened Packets
  import opened PacketIds
  import opened Session
  import opened Accounting
  import T = Transmissions
  import C = Coverage

  // ------------------------------------------------------------ success is an acknowledgement

  predicate Acknowledges(e: Event, kind: byte, id: u16) {
    e.Packet? && e.data != [] && e.data[0] / 16 == kind && AckOf(e.data) == id
  }

  /**
   What has to happen for a report to say that the publish succeeded: its frame's write handler runs,
   or an acknowledgement comes for the id that the call holds at that moment.
   */
  predicate Earned(s: State, e: Event, r: Report) {
    if r.qos == 0 then e == Qos0Write(r.handle, true) && r.handle in s.qos0
    else
      && (Acknowledges(e, PUBACK, r.packetId) || Acknowledges(e, PUBCOMP, r.packetId))
      && r.packetId in s.pubs && s.pubs[r.packetId].handle == r.handle
  }

  /** The reports that a step adds; those that claim success are earned by that very step. */
  ghost predicate AddsEarned(s: State, t: State, e: Event) {
    && s.reports <= t.reports
    && forall i :: |s.reports| <= i < |t.reports| && t.reports[i].ok ==> Earned(s, e, t.reports[i])
  }

  /** Most steps add no success at all. */
  ghost predicate AddsFailures(s: State, t: State) {
    && s.reports <= t.reports
    && forall i :: |s.reports| <= i < |t.reports| ==> !t.reports[i].ok
  }

  lemma FailuresAreEarned(s: State, t: State, e: Event)
    requires AddsFailures(s, t)
    ensures AddsEarned(s, t, e)
  {
  }

  lemma NothingFails(s: State, t: State)
    requires t.reports == s.reports
    ensures AddsFailures(s, t)
  {
  }

  lemma OneFails(s: State, t: State, r: Report)
    requires t.reports == s.reports + [r] && !r.ok
    ensures AddsFailures(s, t)
  {
  }

  lemma DrainFails(s: State)
    ensures AddsFailures(s, NotifyClosedOnce(s))
  {
    DrainReportsFailures(s.pubs);
    hide Drain;
  }

  lemma ThenDrainFails(s: State, t: State)
    requires AddsFailures(s, t)
    ensures AddsFailures(s, NotifyClosedOnce(t))
  {
    DrainFails(t);
    hide NotifyClosedOnce;
  }

  lemma FinishingFails(s: State, id: u16)
    ensures AddsFailures(s, FinishPublishFailure(s, id))
  {
    hide NotifyClosedOnce, AddsFailures;
    NothingFails(s, s);
    if id in s.pubs {
      var p := s.pubs[id];
      OneFails(s, Retire(s, id, false), Report(p.handle, false, p.topic, p.qos, id));
    }
    ThenDrainFails(s, if id in s.pubs then Retire(s, id, false) else s);
  }

  lemma PublishFails(s: State, c: Call)
    requires Sound(s)
    ensures AddsFailures(s, AsyncPublish(s, c))
  {
    EnteringFails(s, c);
    hide EnterWindow;
  }

  lemma EnteringFails(s: State, c: Call)
    requires Sound(s)
    ensures AddsFailures(s, EnterWindow(s, c))
  {
    DrainFails(s);
    hide NotifyClosedOnce, FirstFree, Used;
  }

  lemma SameReports(s: State, a: State, t: State)
    requires a.reports == s.reports && AddsFailures(a, t)
    ensures AddsFailures(s, t)
  {
  }

  lemma PublishTimerFails(s: State, id: u16, current: bool)
    ensures AddsFailures(s, PublishTimer(s, id, current))
  {
    hide AddsFailures, FinishPublishFailure;
    var a := if current then Arm(s, id, false) else s;
    NothingFails(s, s);
    FinishingFails(a, id);
    SameReports(s, a, FinishPublishFailure(a, id));
    if id in s.pubs {
      NothingFails(s, SendPublishEntry(Bump(a, id), id));
    }
  }

  lemma PubrecTimerFails(s: State, id: u16, current: bool)
    ensures AddsFailures(s, PubrecTimer(s, id, current))
  {
    hide AddsFailures, NotifyClosedOnce;
    var a := if current then ArmRec(s, id, false) else s;
    NothingFails(s, s);
    DrainFails(ArmRec(a, id, false));
    SameReports(s, ArmRec(a, id, false), NotifyClosedOnce(ArmRec(a, id, false)));
    if id in s.recs {
      NothingFails(s, SendPubrel(BumpRec(a, id), id));
    }
  }

  lemma PacketIsEarned(s: State, data: bytes)
    requires Accounted(s)
    ensures AddsEarned(s, HandlePacket(s, data), Packet(data))
  {
    hide Accounted, AddsEarned, AddsFailures, HandlePuback, HandlePubcomp, HandleSuback, HandlePublish;
    hide HandlePubrec, HandleConnack, AckOf, SubackOf, PublishOf, ConnackOf;
    if data != [] && data[0] / 16 in {PUBACK, PUBCOMP} {
      AckIsEarned(s, data);
    } else {
      NothingFails(s, s);
      SubackFails(s, SubackOf(data));
      IncomingFails(s, PublishOf(data));
      ControlFails(s, AckOf(data), ConnackOf(data));
      NothingFails(s, Queue(s, AckFrame(PUBCOMP * 16, AckOf(data))));
      FailuresAreEarned(s, HandlePacket(s, data), Packet(data));
    }
  }

  lemma IncomingFails(s: State, p: PublishPacket)
    ensures AddsFailures(s, HandlePublish(s, p))
  {
    DrainFails(s);
    hide NotifyClosedOnce;
  }

  lemma ControlFails(s: State, id: u16, p: ConnackPacket)
    ensures AddsFailures(s, HandlePubrec(s, id)) && AddsFailures(s, HandleConnack(s, p))
  {
  }

  lemma SubackFails(s: State, p: SubackPacket)
    ensures AddsFailures(s, HandleSuback(s, p))
  {
    DrainFails(s.(subs := s.subs - {p.packetId}));
    hide NotifyClosedOnce;
  }

  lemma AckIsEarned(s: State, data: bytes)
    requires Accounted(s) && data != [] && data[0] / 16 in {PUBACK, PUBCOMP}
    ensures AddsEarned(s, HandlePacket(s, data), Packet(data))
  {
    hide AckOf;
  }

  lemma SubscribingFails(s: State, topic: bytes, qos: byte, hasCallback: bool)
    requires Sound(s)
    ensures AddsFailures(s, AsyncSubscribe(s, topic, qos, hasCallback))
  {
    DrainFails(s);
    hide NotifyClosedOnce, FirstFree, Used;
  }

  lemma WritingIsEarned(s: State, handle: nat, ok: bool)
    requires Sound(s)
    ensures AddsEarned(s, Qos0Written(s, handle, ok), Qos0Write(handle, ok))
  {
  }

  /** Only the handlers of PUBACK and PUBCOMP, and the write handler of a QoS 0 frame, report success. */
  lemma OtherStepFails(s: State, e: Event)
    requires Sound(s) && !e.Packet? && !e.Qos0Write?
    ensures AddsFailures(s, Step(s, e))
  {
    hide AsyncPublish, AsyncSubscribe, NotifyClosedOnce, FinishPublishFailure, PublishTimer, PubrecTimer;
    match e
    case Publish(c) => PublishFails(s, c);
    case PublishWrite(id, ok) => FinishingFails(s, id);
    case PublishExpiry(id, current) => PublishTimerFails(s, id, current);
    case PubrecExpiry(id, current) => PubrecTimerFails(s, id, current);
    case SessionFailure => DrainFails(s);
    case Subscribe(topic, qos, hasCallback) => SubscribingFails(s, topic, qos, hasCallback);
    case _ =>
  }

  lemma StepIsEarned(s: State, e: Event)
    requires Sound(s) && Accounted(s)
    ensures AddsEarned(s, Step(s, e), e)
  {
    match e
    case Packet(data) => PacketIsEarned(s, data);
    case Qos0Write(h, ok) => WritingIsEarned(s, h, ok);
    case _ =>
      OtherStepFails(s, e);
      FailuresAreEarned(s, Step(s, e), e);
      hide Step, AddsEarned;
  }

  /** The step e after the run a adds the report r in the i-th place, and earns it. */
  ghost predicate EarnedAt(a: seq<Event>, e: Event, i: nat, r: Report) {
    && |Reached(a).reports| <= i < |Reached(a + [e]).reports| && Reached(a + [e]).reports[i] == r
    && Earned(Reached(a), e, r)
  }

  /**
   callback(true) means what the delivery contract says: a report of success is added by a step of the
   run that earns it. At QoS 1 and 2 that is an acknowledgement for the packet id, at a moment when the
   call holds that id in the window; at QoS 0 the successful write of its frame. One acknowledgement
   therefore never justifies two reports, nor one for a call made later.
   */
  lemma {:induction false} SuccessMeansAcknowledged(es: seq<Event>, i: nat)
    requires i < |Reached(es).reports| && Reached(es).reports[i].ok
    ensures exists a, e, b :: es == a + [e] + b && EarnedAt(a, e, i, Reached(es).reports[i])
    decreases |es|
  {
    assert es != [];
    var n := |es| - 1;
    var a, e := es[..n], es[n];
    assert es == a + [e];
    RunSnoc(INITIAL, a, e);
    RunKeepsAccounts(INITIAL, a);
    StepIsEarned(Reached(a), e);
    hide Run, Step, Earned, Accounted;
    if i < |Reached(a).reports| {
      SuccessMeansAcknowledged(a, i);
      var c, f, b :| a == c + [f] + b && EarnedAt(c, f, i, Reached(a).reports[i]);
      assert es == c + [f] + (b + [e]);
    } else {
      assert EarnedAt(a, e, i, Reached(es).reports[i]);
      assert es == a + [e] + [];
    }
  }

  /** No report is ever taken back. */
  lemma {:induction false} ReportsOnlyGrow(s: State, es: seq<Event>)
    requires Sound(s) && Accounted(s)
    ensures s.reports <= Run(s, es).reports
    decreases |es|
  {
    if es != [] {
      StepIsEarned(s, es[0]);
      StepIsSound(s, es[0]);
      StepKeepsAccounts(s, es[0]);
      hide Step, Sound, Accounted, Earned;
      ReportsOnlyGrow(Step(s, es[0]), es[1..]);
    }
  }

  /** And the other way round: the octets of an acknowledgement answer exactly the publish they name. */
  lemma AcknowledgementAnswers(s: State, kind: byte, id: u16)
    requires kind in {PUBACK, PUBCOMP}
    ensures var t := HandlePacket(s, AckBytes(kind * 16, id));
      && t.pubs == s.pubs - {id}
      && t.reports == s.reports
           + if id in s.pubs then [Report(s.pubs[id].handle, true, s.pubs[id].topic, s.pubs[id].qos, id)] else []
  {
    AckRoundTrip(kind * 16, id);
    assert AckBytes(kind * 16, id)[0] / 16 == kind;
    hide AckOf, AckBytes;
    if id !in s.pubs {
      assert s.pubs - {id} == s.pubs;
    }
  }

  // ------------------------------------------------------------ which acknowledgement

  /** PUBACK answers QoS 1 and PUBCOMP answers QoS 2. */
  predicate Proper(e: Event, r: Report) {
    match r.qos
    case 1 => Acknowledges(e, PUBACK, r.packetId)
    case 2 => Acknowledges(e, PUBCOMP, r.packetId)
    case _ => true
  }

  /** An acknowledgement of the wrong kind for the publish it names. */
  predicate Mistaken(s: State, e: Event) {
    && e.Packet? && e.data != [] && e.data[0] / 16 in {PUBACK, PUBCOMP}
    && AckOf(e.data) in s.pubs
    && s.pubs[AckOf(e.data)].qos != if e.data[0] / 16 == PUBACK then 1 else 2
  }

  ghost predicate AddsProper(s: State, t: State, e: Event) {
    forall i :: |s.reports| <= i < |t.reports| && t.reports[i].ok ==> Proper(e, t.reports[i])
  }

  /**
   The client does not look at the QoS when an acknowledgement arrives. So a step reports success for
   the acknowledgement that the documentation names exactly unless the broker sends the wrong kind.
   */
  lemma DocumentedAckIff(s: State, e: Event)
    requires Sound(s) && Accounted(s)
    ensures AddsProper(s, Step(s, e), e) <==> !Mistaken(s, e)
  {
    StepIsEarned(s, e);
    hide Step, Sound, Accounted, AckOf;
    if e.Packet? && e.data != [] && e.data[0] / 16 in {PUBACK, PUBCOMP} {
      MistakenIff(s, e.data);
    } else {
      NoAckIsProper(s, Step(s, e), e);
    }
  }

  lemma NoAckIsProper(s: State, t: State, e: Event)
    requires AddsEarned(s, t, e) && !(e.Packet? && e.data != [] && e.data[0] / 16 in {PUBACK, PUBCOMP})
    ensures AddsProper(s, t, e)
  {
    hide AckOf;
  }

  lemma MistakenIff(s: State, data: bytes)
    requires Accounted(s) && data != [] && data[0] / 16 in {PUBACK, PUBCOMP}
    ensures AddsProper(s, HandlePacket(s, data), Packet(data)) <==> !Mistaken(s, Packet(data))
  {
    AckAdds(s, data);
    hide AckOf, HandlePacket, Accounted;
    var t := HandlePacket(s, data);
    if AckOf(data) in s.pubs {
      assert t.reports[|s.reports|].ok;
    }
  }

  lemma AckAdds(s: State, data: bytes)
    requires data != [] && data[0] / 16 in {PUBACK, PUBCOMP} && Accounted(s)
    ensures var id, t := AckOf(data), HandlePacket(s, data);
      t.reports == s.reports
        + if id in s.pubs then [Report(s.pubs[id].handle, true, s.pubs[id].topic, s.pubs[id].qos, id)] else []
    ensures AckOf(data) in s.pubs ==> s.pubs[AckOf(data)].qos in {1, 2}
  {
    hide AckOf;
  }

  /** It happens: a PUBACK for a QoS 2 publish reports it as delivered, without a PUBREC or PUBCOMP. */
  lemma Qos2SucceedsOnPuback()
    ensures exists es, data :: IsPuback(data) && Delivers(Reached(es), Reached(es + [Packet(data)]))
  {
    var es := C.Published();
    var data := AckBytes(PUBACK * 16, 2);
    RunSnoc(INITIAL, es, Packet(data));
    AcknowledgementAnswers(Reached(es), PUBACK, 2);
    hide HandlePacket, Reached;
    assert IsPuback(data) && Delivers(Reached(es), Reached(es + [Packet(data)]));
  }

  predicate IsPuback(data: bytes) {
    data != [] && data[0] / 16 == PUBACK
  }

  predicate Delivers(s: State, t: State) {
    |t.reports| == |s.reports| + 1 && t.reports[|s.reports|].ok && t.reports[|s.reports|].qos == 2
  }

  // ------------------------------------------------------------ which calls are taken

  /** An id is left for a new exchange. */
  ghost predicate SomeIdIsLeft(s: State) {
    exists id: u16 :: id > 0 && id != s.cursor && id !in Used(s)
  }

  /** What the documentation asks for: a session that is up, and room in the window. */
  ghost predicate Takes(s: State, c: Call) {
    c.qos <= 2 && !s.closed && s.link == Connected
    && (c.qos == 0 || (|s.pubs| < 1000 && SomeIdIsLeft(s)))
  }

  predicate FailedLast(reports: seq<Report>, h: nat, c: Call) {
    reports != [] && reports[|reports| - 1] == Report(h, false, c.topic, c.qos, 0)
  }

  /** A call that waits for an answer, or was answered with a failure on the spot and sent nothing. */
  ghost predicate Answered(s: State, c: Call, t: State, taken: bool) {
    && t.calls == s.calls + [c]
    && (Waiting(t, |s.calls|) <==> taken)
    && (!taken ==> t.frames == s.frames && FailedLast(t.reports, |s.calls|, c))
  }

  /** The session is as it was. */
  predicate Undisturbed(s: State, t: State) {
    t.pubs == s.pubs && t.recs == s.recs && t.subs == s.subs && t.closed == s.closed && t.link == s.link
  }

  /**
   There is no offline queue: a call waits for an answer exactly if the session takes it, and is
   reported as failed at once if not. Being rejected disturbs nothing, unless the ids ran out.
   */
  lemma TakenIff(s: State, c: Call)
    requires Sound(s) && Accounted(s)
    ensures Answered(s, c, AsyncPublish(s, c), Takes(s, c))
    ensures !Takes(s, c) && (s.closed || SomeIdIsLeft(s)) ==> Undisturbed(s, AsyncPublish(s, c))
  {
    NewHandle(s);
    RejectAnswers(s, s, c);
    Qos0Answers(s, c);
    if c.qos in {1, 2} && !s.closed && s.link == Connected {
      EnteringAnswers(s, c);
    }
    hide EnterWindow, AcceptQos0, Answered, Accounted, SomeIdIsLeft;
  }

  lemma NewHandle(s: State)
    requires Accounted(s)
    ensures !Waiting(s, |s.calls|)
  {
  }

  lemma RejectAnswers(s: State, r: State, c: Call)
    requires !Waiting(r, |s.calls|) && r.calls == s.calls && r.frames == s.frames
    ensures Answered(s, c, Reject(r, c), false)
  {
  }

  lemma Qos0Answers(s: State, c: Call)
    requires Qos0Handles(s)
    ensures Answered(s, c, AcceptQos0(s, c), true)
  {
  }

  lemma EnteringAnswers(s: State, c: Call)
    requires Sound(s) && !Waiting(s, |s.calls|)
    ensures Answered(s, c, EnterWindow(s, c), |s.pubs| < MAX_PENDING && SomeIdIsLeft(s))
    ensures SomeIdIsLeft(s) && |s.pubs| >= MAX_PENDING ==> Undisturbed(s, EnterWindow(s, c))
  {
    var id := FirstFree(s.cursor, Used(s));
    ExhaustedIff(s.cursor, Used(s));
    assert id == 0 <==> !SomeIdIsLeft(s);
    hide FirstFree, Used, Answered, NotifyClosedOnce, SomeIdIsLeft;
    if id == 0 {
      DrainedWaits(s);
      RejectAnswers(s, NotifyClosedOnce(s), c);
    } else if |s.pubs| >= MAX_PENDING {
      RejectAnswers(s, s.(cursor := id), c);
    } else {
      AcceptAnswers(s, c, id);
    }
  }

  lemma DrainedWaits(s: State)
    requires !Waiting(s, |s.calls|)
    ensures var t := NotifyClosedOnce(s); !Waiting(t, |s.calls|) && t.calls == s.calls && t.frames == s.frames
  {
  }

  lemma AcceptAnswers(s: State, c: Call, id: u16)
    ensures Answered(s, c, SendPublishEntry(Accept(s, c, id), id), true)
  {
    var t := SendPublishEntry(Accept(s, c, id), id);
    assert id in t.pubs && t.pubs[id].handle == |s.calls|;
  }

  // ------------------------------------------------------------ nothing is sent after its report

  /** A call that has left the window, or never entered it. */
  ghost predicate Gone(s: State, h: nat) {
    h < |s.calls| && !InWindow(s.pubs, h)
  }

  /** It stays out, and no further PUBLISH is queued for it. */
  ghost predicate StaysGone(s: State, t: State, h: nat) {
    Gone(t, h) && T.PublishesOf(t.frames, h) == T.PublishesOf(s.frames, h)
  }

  lemma QuietStaysGone(s: State, t: State, h: nat)
    requires Gone(s, h) && T.Quiet(s, t)
    ensures StaysGone(s, t, h)
  {
    T.NoPublishSame(s.frames, t.frames, h);
    hide T.PublishesOf;
  }

  lemma CallStaysGone(s: State, t: State, h: nat)
    requires Gone(s, h) && s.calls <= t.calls
    requires T.PublishesOf(t.frames, h) == T.PublishesOf(s.frames, h)
    requires forall id :: id in t.pubs && t.pubs[id].handle < |s.calls| ==> id in s.pubs && t.pubs[id] == s.pubs[id]
    ensures StaysGone(s, t, h)
  {
    hide T.PublishesOf;
  }

  lemma PublishStaysGone(s: State, c: Call, h: nat)
    requires Gone(s, h) && Sound(s)
    ensures StaysGone(s, AsyncPublish(s, c), h)
  {
    EnteringStaysGone(s, c, h);
    T.PublishesSnoc(s.frames, PublishFrame(|s.calls|, PublishPacket(0, 0, false, c.topic, c.payload)), h);
    CallStaysGone(s, Reject(s, c), h);
    CallStaysGone(s, AcceptQos0(s, c), h);
    hide EnterWindow, StaysGone;
  }

  lemma EnteringStaysGone(s: State, c: Call, h: nat)
    requires Gone(s, h) && Sound(s)
    ensures StaysGone(s, EnterWindow(s, c), h)
  {
    hide FirstFree, Used, StaysGone, Gone, NotifyClosedOnce, SendPublishEntry, Accept, Reject;
    var id := FirstFree(s.cursor, Used(s));
    if id == 0 {
      NotifiedAndRejected(s, c, h);
    } else if |s.pubs| >= MAX_PENDING {
      RejectedStaysGone(s, c, id, h);
    } else {
      AcceptedStaysGone(s, c, id, h);
    }
  }

  lemma RejectedStaysGone(s: State, c: Call, id: u16, h: nat)
    requires Gone(s, h)
    ensures StaysGone(s, Reject(s.(cursor := id), c), h)
  {
    hide T.PublishesOf;
  }

  lemma AcceptedStaysGone(s: State, c: Call, id: u16, h: nat)
    requires Gone(s, h)
    ensures StaysGone(s, SendPublishEntry(Accept(s, c, id), id), h)
  {
    var t := SendPublishEntry(Accept(s, c, id), id);
    T.PublishesSnoc(s.frames, PublishFrame(|s.calls|, PublishPacket(id, c.qos, false, c.topic, c.payload)), h);
    hide T.PublishesOf, StaysGone, Gone;
    CallStaysGone(s, t, h);
  }

  lemma NotifiedAndRejected(s: State, c: Call, h: nat)
    requires Gone(s, h)
    ensures StaysGone(s, Reject(NotifyClosedOnce(s), c), h)
  {
    T.NotifyIsQuiet(s);
    QuietStaysGone(s, NotifyClosedOnce(s), h);
    hide T.PublishesOf, NotifyClosedOnce;
    CallStaysGone(NotifyClosedOnce(s), Reject(NotifyClosedOnce(s), c), h);
  }

  lemma PublishTimerStaysGone(s: State, id: u16, current: bool, h: nat)
    requires Gone(s, h)
    ensures StaysGone(s, PublishTimer(s, id, current), h)
  {
    var a := if current then Arm(s, id, false) else s;
    ArmedStaysGone(s, id, current, h);
    T.FailureIsQuiet(a, id);
    QuietStaysGone(a, FinishPublishFailure(a, id), h);
    if id in s.pubs {
      RetryStaysGone(a, id, h);
    }
    hide T.Quiet, T.PublishesOf, FinishPublishFailure, SendPublishEntry, Bump, Gone;
  }

  lemma RetryStaysGone(s: State, id: u16, h: nat)
    requires Gone(s, h) && id in s.pubs
    ensures StaysGone(s, SendPublishEntry(Bump(s, id), id), h)
  {
    var t := SendPublishEntry(Bump(s, id), id);
    assert s.pubs[id].handle != h;
    T.PublishesSnoc(s.frames, PublishFrame(s.pubs[id].handle, EntryPacket(Bump(s, id).pubs[id], id)), h);
    hide T.PublishesOf;
    assert forall j :: j in t.pubs ==> j in s.pubs && t.pubs[j].handle == s.pubs[j].handle;
  }

  lemma ArmedStaysGone(s: State, id: u16, current: bool, h: nat)
    requires Gone(s, h)
    ensures StaysGone(s, if current then Arm(s, id, false) else s, h)
  {
    hide T.PublishesOf;
  }

  lemma StepStaysGone(s: State, e: Event, h: nat)
    requires Gone(s, h) && Sound(s)
    ensures StaysGone(s, Step(s, e), h)
  {
    hide StaysGone, Gone, AsyncPublish, PublishTimer, Sound;
    match e
    case Publish(c) => PublishStaysGone(s, c, h);
    case PublishExpiry(id, current) => PublishTimerStaysGone(s, id, current, h);
    case _ =>
      T.StepIsQuiet(s, e);
      QuietStaysGone(s, Step(s, e), h);
  }

  lemma {:induction false} RunStaysGone(s: State, es: seq<Event>, h: nat)
    requires Gone(s, h) && Sound(s)
    ensures StaysGone(s, Run(s, es), h)
    decreases |es|
  {
    hide Step;
    if es != [] {
      StepStaysGone(s, es[0], h);
      StepIsSound(s, es[0]);
      RunStaysGone(Step(s, es[0]), es[1..], h);
    }
  }

  /**
   Nothing is sent again after it was reported: not by a late timer or acknowledgement, and not after
   the next connect. At QoS 1 and 2 the report stays the only one.
   */
  lemma ReportedIsNeverSentAgain(es: seq<Event>, later: seq<Event>, h: nat)
    requires h < |Reached(es).calls| && Times(Reached(es).reports, h) > 0
    ensures var s, t := Reached(es), Run(Reached(es), later);
      && T.PublishesOf(t.frames, h) == T.PublishesOf(s.frames, h)
      && (s.calls[h].qos > 0 ==> Times(t.reports, h) == Times(s.reports, h) == 1)
  {
    var s := Reached(es);
    RunKeepsAccounts(INITIAL, es);
    RunKeepsAccounts(s, later);
    ReportedIsGone(s, h);
    RunStaysGone(s, later, h);
    ReportsOnlyGrow(s, later);
    C.CallsStay(s, later);
    if s.calls[h].qos > 0 {
      ReportsStay(s, Run(s, later), h);
    }
  }

  lemma ReportedIsGone(s: State, h: nat)
    requires Accounted(s) && h < |s.calls| && Times(s.reports, h) > 0
    ensures Gone(s, h) && (s.calls[h].qos > 0 ==> Times(s.reports, h) == 1)
  {
    DueIsWaiting(s, h);
    hide Times;
  }

  lemma ReportsStay(s: State, t: State, h: nat)
    requires Accounted(t) && s.reports <= t.reports && Times(s.reports, h) == 1
    requires h < |t.calls| && t.calls[h].qos > 0
    ensures Times(t.reports, h) == 1
  {
    var more := t.reports[|s.reports|..];
    assert t.reports == s.reports + more;
    TimesConcat(s.reports, more, h);
    DueIsWaiting(t, h);
    hide Times;
  }
}
