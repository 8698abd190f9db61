/**
 Every publish is accounted for: in every state a run can lead to, each call has been reported exactly
 once or is still waiting, never both, and what is reported is true of the call.
 */
module Accounting {
  import opened Bytes
  import opened Packets
  import opened PacketIds
  import opened Session

  /** How often the callback of a call has run. */
  function Times(reports: seq<Report>, h: nat): nat {
    if reports == [] then 0
    else Times(reports[..|reports| - 1], h) + if reports[|reports| - 1].handle == h then 1 else 0
  }

  lemma TimesSnoc(reports: seq<Report>, r: Report, h: nat)
    ensures Times(reports + [r], h) == Times(reports, h) + if r.handle == h then 1 else 0
  {
    assert (reports + [r])[..|reports|] == reports;
  }

  lemma {:induction false} TimesConcat(a: seq<Report>, b: seq<Report>, h: nat)
    ensures Times(a + b, h) == Times(a, h) + Times(b, h)
  {
    if b == [] {
      assert a + b == a;
    } else {
      var n := |b| - 1;
      assert a + b == (a + b[..n]) + [b[n]];
      TimesSnoc(a + b[..n], b[n], h);
      TimesConcat(a, b[..n], h);
    }
  }

  ghost predicate InWindow(pubs: map<u16, Pub>, h: nat) {
    exists id :: id in pubs && pubs[id].handle == h
  }

  /** A call that has not been answered: in the window, or a QoS 0 frame whose handler has not run. */
  ghost predicate Waiting(s: State, h: nat) {
    (h in s.qos0 && s.written[h] == 0) || InWindow(s.pubs, h)
  }

  /**
   How often a call is to have been reported: a QoS 0 frame as often as its write handler ran, any
   other call once, unless it is in the window.
   */
  ghost function Due(s: State, h: nat): nat {
    if h in s.qos0 then s.written[h] else if h < |s.calls| && !InWindow(s.pubs, h) then 1 else 0
  }

  predicate Genuine(calls: seq<Call>, h: nat, topic: bytes, qos: byte) {
    h < |calls| && topic == calls[h].topic && qos == calls[h].qos
  }

  ghost predicate Entries(s: State) {
    forall id :: id in s.pubs ==>
      var p := s.pubs[id];
      && Genuine(s.calls, p.handle, p.topic, p.qos) && p.payload == s.calls[p.handle].payload
      && p.qos in {1, 2} && p.handle !in s.qos0
  }

  ghost predicate Injective(pubs: map<u16, Pub>) {
    forall i, j :: i in pubs && j in pubs && pubs[i].handle == pubs[j].handle ==> i == j
  }

  predicate IsTrue(calls: seq<Call>, r: Report) {
    Genuine(calls, r.handle, r.topic, r.qos)
  }

  ghost predicate Truthful(s: State) {
    forall i :: 0 <= i < |s.reports| ==> IsTrue(s.calls, s.reports[i])
  }

  ghost predicate OnceEach(s: State) {
    forall h: nat :: Times(s.reports, h) == Due(s, h)
  }

  ghost predicate Qos0Handles(s: State) {
    && (forall h :: h in s.qos0 ==> h < |s.calls| && s.calls[h].qos == 0)
    && forall h: nat :: h !in s.qos0 ==> s.written[h] == 0
  }

  ghost predicate Accounted(s: State) {
    Entries(s) && Injective(s.pubs) && Truthful(s) && OnceEach(s) && Qos0Handles(s)
  }

  // ------------------------------------------------------------ the ways a call moves

  /** Timers, attempts and everything outside the accounting may change freely. */
  ghost predicate SameAccount(s: State, t: State) {
    && t.calls == s.calls && t.reports == s.reports && t.qos0 == s.qos0 && t.written == s.written
    && t.pubs.Keys == s.pubs.Keys
    && forall id :: id in s.pubs ==>
         t.pubs[id].handle == s.pubs[id].handle && t.pubs[id].topic == s.pubs[id].topic
         && t.pubs[id].qos == s.pubs[id].qos && t.pubs[id].payload == s.pubs[id].payload
  }

  lemma SameAccountKeeps(s: State, t: State)
    requires Accounted(s) && SameAccount(s, t)
    ensures Accounted(t)
  {
    forall h: nat
      ensures Times(t.reports, h) == Due(t, h)
    {
      SameWindow(s.pubs, t.pubs, h);
    }
  }

  lemma SameWindow(a: map<u16, Pub>, b: map<u16, Pub>, h: nat)
    requires b.Keys == a.Keys && forall id :: id in a ==> b[id].handle == a[id].handle
    ensures InWindow(a, h) <==> InWindow(b, h)
  {
    if InWindow(a, h) {
      var id :| id in a && a[id].handle == h;
      assert id in b && b[id].handle == h;
    }
    if InWindow(b, h) {
      var id :| id in b && b[id].handle == h;
      assert id in a && a[id].handle == h;
    }
  }

  lemma RetireKeeps(s: State, id: u16, ok: bool)
    requires Accounted(s) && id in s.pubs
    ensures Accounted(Retire(s, id, ok))
  {
    var t := Retire(s, id, ok);
    var r := t.reports[|s.reports|];
    forall h: nat
      ensures Times(t.reports, h) == Due(t, h)
    {
      TimesSnoc(s.reports, r, h);
      RemovedFromWindow(s.pubs, id, h);
    }
  }

  lemma RemovedFromWindow(pubs: map<u16, Pub>, id: u16, h: nat)
    requires id in pubs && Injective(pubs)
    ensures InWindow(pubs - {id}, h) <==> InWindow(pubs, h) && pubs[id].handle != h
    ensures Injective(pubs - {id})
  {
    if InWindow(pubs, h) && pubs[id].handle != h {
      var j :| j in pubs && pubs[j].handle == h;
      assert j in pubs - {id} && (pubs - {id})[j].handle == h;
    }
    if InWindow(pubs - {id}, h) {
      var j :| j in pubs - {id} && (pubs - {id})[j].handle == h;
      assert j in pubs && pubs[j].handle == h;
    }
  }

  /** A call that is reported at once, or starts to wait. */
  lemma RejectKeeps(s: State, c: Call)
    requires Accounted(s)
    ensures Accounted(Reject(s, c))
  {
    var t := Reject(s, c);
    forall h: nat
      ensures Times(t.reports, h) == Due(t, h)
    {
      TimesSnoc(s.reports, t.reports[|s.reports|], h);
    }
  }

  lemma AcceptKeeps(s: State, c: Call, id: u16)
    requires Accounted(s) && id !in s.pubs && c.qos in {1, 2}
    ensures Accounted(Accept(s, c, id))
  {
    var t := Accept(s, c, id);
    assert OnceEach(t) by {
      hide Truthful, Qos0Handles, Injective;
      forall h: nat
        ensures Times(t.reports, h) == Due(t, h)
      {
        AddedToWindow(s.pubs, t.pubs, id, h);
      }
    }
  }

  lemma AddedToWindow(pubs: map<u16, Pub>, more: map<u16, Pub>, id: u16, h: nat)
    requires id !in pubs && id in more && more == pubs[id := more[id]]
    ensures InWindow(more, h) <==> InWindow(pubs, h) || more[id].handle == h
  {
    if InWindow(pubs, h) {
      var j :| j in pubs && pubs[j].handle == h;
      assert j in more && more[j].handle == h;
    }
    if more[id].handle != h && InWindow(more, h) {
      var j :| j in more && more[j].handle == h;
      assert j in pubs && pubs[j].handle == h;
    }
  }

  lemma AcceptQos0Keeps(s: State, c: Call)
    requires Accounted(s) && c.qos == 0
    ensures Accounted(AcceptQos0(s, c))
  {
    var t := AcceptQos0(s, c);
    assert t.reports == s.reports && t.pubs == s.pubs;
    forall h: nat
      ensures Times(t.reports, h) == Due(t, h)
    {
      assert h == |s.calls| ==> h !in s.qos0;
    }
  }

  lemma Qos0WrittenKeeps(s: State, handle: nat, ok: bool)
    requires Accounted(s)
    ensures Accounted(Qos0Written(s, handle, ok))
  {
    if handle in s.qos0 {
      var t := Qos0Written(s, handle, ok);
      forall h: nat
        ensures Times(t.reports, h) == Due(t, h)
      {
        TimesSnoc(s.reports, t.reports[|s.reports|], h);
        assert h in s.qos0 ==> !InWindow(s.pubs, h);
      }
    }
  }

  // ------------------------------------------------------------ the drain

  ghost predicate InWindowFrom(pubs: map<u16, Pub>, from: nat, h: nat) {
    exists id: u16 :: from <= id && id in pubs && pubs[id].handle == h
  }

  lemma {:induction false} DrainReportsEachOnce(pubs: map<u16, Pub>, from: nat, h: nat)
    requires Injective(pubs)
    ensures Times(Drain(pubs, from), h) == if InWindowFrom(pubs, from, h) then 1 else 0
    decreases 0x1_0000 - from
  {
    if from < 0x1_0000 {
      DrainReportsEachOnce(pubs, from + 1, h);
      if from in pubs {
        var r := Report(pubs[from].handle, false, pubs[from].topic, pubs[from].qos, from);
        TimesConcat([r], Drain(pubs, from + 1), h);
        TimesSnoc([], r, h);
        assert [] + [r] == [r];
        if InWindowFrom(pubs, from, h) && pubs[from].handle != h {
          var id: u16 :| from <= id && id in pubs && pubs[id].handle == h;
          assert from + 1 <= id;
        }
      } else {
        assert [] + Drain(pubs, from + 1) == Drain(pubs, from + 1);
        if InWindowFrom(pubs, from, h) {
          var id: u16 :| from <= id && id in pubs && pubs[id].handle == h;
          assert from + 1 <= id;
        }
      }
    }
  }

  lemma {:induction false} DrainIsTruthful(pubs: map<u16, Pub>, from: nat, i: nat)
    requires i < |Drain(pubs, from)|
    ensures var r := Drain(pubs, from)[i];
      && !r.ok && r.packetId in pubs
      && r.handle == pubs[r.packetId].handle && r.topic == pubs[r.packetId].topic && r.qos == pubs[r.packetId].qos
    decreases 0x1_0000 - from
  {
    if from < 0x1_0000 {
      if from !in pubs {
        DrainIsTruthful(pubs, from + 1, i);
      } else if i > 0 {
        DrainIsTruthful(pubs, from + 1, i - 1);
      }
    }
  }

  predicate InIdOrder(reports: seq<Report>) {
    forall i, j :: 0 <= i < j < |reports| ==> reports[i].packetId < reports[j].packetId
  }

  /** The failure of one entry of the window. */
  predicate FailsEntry(pubs: map<u16, Pub>, r: Report) {
    && r.packetId in pubs
    && r == Report(pubs[r.packetId].handle, false, pubs[r.packetId].topic, pubs[r.packetId].qos, r.packetId)
  }

  lemma {:induction false} DrainIsInOrder(pubs: map<u16, Pub>, from: nat)
    ensures InIdOrder(Drain(pubs, from))
    ensures forall i :: 0 <= i < |Drain(pubs, from)| ==> Drain(pubs, from)[i].packetId as int >= from
    decreases 0x1_0000 - from
  {
    if from < 0x1_0000 {
      DrainIsInOrder(pubs, from + 1);
    }
  }

  lemma DrainCounts(s: State, h: nat)
    requires Injective(s.pubs)
    ensures Times(s.reports + Drain(s.pubs, 0), h) == Times(s.reports, h) + if InWindow(s.pubs, h) then 1 else 0
  {
    TimesConcat(s.reports, Drain(s.pubs, 0), h);
    DrainReportsEachOnce(s.pubs, 0, h);
    assert InWindowFrom(s.pubs, 0, h) <==> InWindow(s.pubs, h);
  }

  lemma DrainKeepsOnceEach(s: State, t: State)
    requires OnceEach(s) && Entries(s) && Injective(s.pubs)
    requires t.reports == s.reports + Drain(s.pubs, 0) && t.pubs == map[]
    requires t.calls == s.calls && t.qos0 == s.qos0 && t.written == s.written
    ensures OnceEach(t)
  {
    hide Drain, Injective, Times;
    forall h: nat
      ensures Times(t.reports, h) == Due(t, h)
    {
      DrainCounts(s, h);
      assert !InWindow(t.pubs, h);
    }
  }

  lemma DrainKeepsTruth(s: State, t: State)
    requires Truthful(s) && Entries(s)
    requires t.reports == s.reports + Drain(s.pubs, 0) && t.calls == s.calls
    ensures Truthful(t)
  {
    var drained := Drain(s.pubs, 0);
    forall i | 0 <= i < |drained|
      ensures IsTrue(s.calls, drained[i])
    {
      DrainIsTruthful(s.pubs, 0, i);
    }
  }

  lemma DrainReportsFailures(pubs: map<u16, Pub>)
    ensures forall i :: 0 <= i < |Drain(pubs, 0)| ==> !Drain(pubs, 0)[i].ok
  {
    forall i | 0 <= i < |Drain(pubs, 0)|
      ensures !Drain(pubs, 0)[i].ok
    {
      DrainIsTruthful(pubs, 0, i);
    }
  }

  lemma NotifyKeeps(s: State)
    requires Accounted(s)
    ensures Accounted(NotifyClosedOnce(s))
  {
    hide OnceEach, Truthful, Drain;
    if !s.closed {
      DrainKeepsOnceEach(s, NotifyClosedOnce(s));
      DrainKeepsTruth(s, NotifyClosedOnce(s));
    }
  }

  /**
   One drain: every publish in the window is reported exactly once, as failed, with the values it was
   entered with, in ascending packet id; the three maps are empty, the close notification went out once,
   and the session is closed.
   */
  lemma DrainSettlesTheWindow(s: State)
    requires Accounted(s) && !s.closed
    ensures var t := NotifyClosedOnce(s);
      && Accounted(t)
      && t.closed && t.link == Disconnected && t.pubs == map[] && t.recs == map[] && t.subs == map[]
      && t.signals == s.signals + [OnClose]
      && s.reports <= t.reports && InIdOrder(t.reports[|s.reports|..])
      && forall i :: |s.reports| <= i < |t.reports| ==> FailsEntry(s.pubs, t.reports[i])
    ensures forall h: nat ::
      Times(NotifyClosedOnce(s).reports, h) == Times(s.reports, h) + if InWindow(s.pubs, h) then 1 else 0
  {
    NotifyKeeps(s);
    DrainIsInOrder(s.pubs, 0);
    var t := NotifyClosedOnce(s);
    forall i | |s.reports| <= i < |t.reports|
      ensures FailsEntry(s.pubs, t.reports[i])
    {
      DrainIsTruthful(s.pubs, 0, i - |s.reports|);
    }
    assert t.reports[|s.reports|..] == Drain(s.pubs, 0);
    assert Injective(s.pubs);
    hide Accounted, Drain, Times, Injective, InWindow;
    forall h: nat
      ensures Times(NotifyClosedOnce(s).reports, h) == Times(s.reports, h) + if InWindow(s.pubs, h) then 1 else 0
    {
      DrainCounts(s, h);
    }
  }

  lemma FailureKeeps(s: State, id: u16)
    requires Accounted(s)
    ensures Accounted(FinishPublishFailure(s, id))
  {
    if id in s.pubs {
      RetireKeeps(s, id, false);
      NotifyKeeps(Retire(s, id, false));
    } else {
      NotifyKeeps(s);
    }
  }

  // ------------------------------------------------------------ every step

  lemma PublishKeeps(s: State, c: Call)
    requires Accounted(s) && Sound(s)
    ensures Accounted(AsyncPublish(s, c))
  {
    hide Accounted, EnterWindow;
    if c.qos > 2 || s.closed || s.link != Connected {
      RejectKeeps(s, c);
    } else if c.qos == 0 {
      AcceptQos0Keeps(s, c);
    } else {
      EnterKeeps(s, c);
    }
  }

  lemma EnterKeeps(s: State, c: Call)
    requires Accounted(s) && Sound(s) && c.qos in {1, 2}
    ensures Accounted(EnterWindow(s, c))
  {
    hide Accounted, FirstFree, Used;
    var id := FirstFree(s.cursor, Used(s));
    if id == 0 {
      NotifyKeeps(s);
      RejectKeeps(NotifyClosedOnce(s), c);
    } else if |s.pubs| >= MAX_PENDING {
      SameAccountKeeps(s, s.(cursor := id));
      RejectKeeps(s.(cursor := id), c);
    } else {
      AcceptAndSendKeeps(s, c, id);
    }
  }

  lemma AcceptAndSendKeeps(s: State, c: Call, id: u16)
    requires Accounted(s) && Sound(s) && c.qos in {1, 2} && id == FirstFree(s.cursor, Used(s)) != 0
    ensures Accounted(SendPublishEntry(Accept(s, c, id), id))
  {
    hide Accounted;
    FoundIsFree(s.cursor, Used(s));
    AcceptKeeps(s, c, id);
    SendKeeps(Accept(s, c, id), id);
  }

  lemma ArmKeeps(s: State, id: u16, on: bool)
    requires Accounted(s)
    ensures Accounted(Arm(s, id, on))
  {
    hide Accounted;
    SameAccountKeeps(s, Arm(s, id, on));
  }

  lemma SendKeeps(s: State, id: u16)
    requires Accounted(s)
    ensures Accounted(SendPublishEntry(s, id))
  {
    hide Accounted;
    SameAccountKeeps(s, SendPublishEntry(s, id));
  }

  lemma BumpKeeps(s: State, id: u16)
    requires Accounted(s) && id in s.pubs
    ensures Accounted(Bump(s, id))
  {
    hide Accounted;
    SameAccountKeeps(s, Bump(s, id));
  }

  lemma PublishTimerKeeps(s: State, id: u16, current: bool)
    requires Accounted(s)
    ensures Accounted(PublishTimer(s, id, current))
  {
    hide Accounted, SendPublishEntry, FinishPublishFailure, Bump;
    if id in s.pubs {
      ArmKeeps(s, id, false);
      var t := if current then Arm(s, id, false) else s;
      FailureKeeps(t, id);
      BumpKeeps(t, id);
      SendKeeps(Bump(t, id), id);
    }
  }

  lemma PubrecTimerKeeps(s: State, id: u16, current: bool)
    requires Accounted(s)
    ensures Accounted(PubrecTimer(s, id, current))
  {
    hide Accounted;
    if id in s.recs {
      var t := if current then ArmRec(s, id, false) else s;
      if t.recs[id].attempts >= MAX_ATTEMPTS {
        SameAccountKeeps(s, ArmRec(t, id, false));
        NotifyKeeps(ArmRec(t, id, false));
      } else {
        SameAccountKeeps(s, PubrecTimer(s, id, current));
      }
    }
  }

  lemma SubackKeeps(s: State, p: SubackPacket)
    requires Accounted(s)
    ensures Accounted(HandleSuback(s, p))
  {
    hide Accounted;
    var t := s.(subs := s.subs - {p.packetId});
    SameAccountKeeps(s, t);
    NotifyKeeps(t);
  }

  lemma PubcompKeeps(s: State, id: u16)
    requires Accounted(s)
    ensures Accounted(HandlePubcomp(s, id))
  {
    hide Accounted;
    var t := s.(recs := s.recs - {id});
    SameAccountKeeps(s, t);
    if id in t.pubs {
      RetireKeeps(t, id, true);
    }
  }

  lemma PubrecKeeps(s: State, id: u16)
    requires Accounted(s)
    ensures Accounted(HandlePubrec(s, id))
  {
    hide Accounted;
    if id in s.pubs {
      SameAccountKeeps(s, TakePubrec(s, id));
      QueueKeeps(ArmRec(TakePubrec(s, id), id, true), PubrelFrame(|s.accepted|, id)) by {
        SameAccountKeeps(TakePubrec(s, id), ArmRec(TakePubrec(s, id), id, true));
      }
    }
  }

  lemma IncomingPublishKeeps(s: State, p: PublishPacket)
    requires Accounted(s)
    ensures Accounted(HandlePublish(s, p))
  {
    hide Accounted;
    NotifyKeeps(s);
    if p.qos <= 2 {
      SameAccountKeeps(s, HandlePublish(s, p));
    }
  }

  lemma ConnackKeeps(s: State, p: ConnackPacket)
    requires Accounted(s)
    ensures Accounted(HandleConnack(s, p))
  {
    hide Accounted;
    SameAccountKeeps(s, HandleConnack(s, p));
  }

  lemma QueueKeeps(s: State, f: Frame)
    requires Accounted(s)
    ensures Accounted(Queue(s, f))
  {
    hide Accounted;
    SameAccountKeeps(s, Queue(s, f));
  }

  lemma PubackKeeps(s: State, id: u16)
    requires Accounted(s)
    ensures Accounted(HandlePuback(s, id))
  {
    hide Accounted;
    if id in s.pubs {
      RetireKeeps(s, id, true);
    }
  }

  lemma PacketKeeps(s: State, data: bytes)
    requires Accounted(s)
    ensures Accounted(HandlePacket(s, data))
  {
    hide Accounted, HandleSuback, HandlePubcomp, HandlePubrec, HandlePuback, HandlePublish, HandleConnack, Queue;
    hide AckOf, SubackOf, PublishOf, ConnackOf;
    if data != [] {
      ConnackKeeps(s, ConnackOf(data));
      IncomingPublishKeeps(s, PublishOf(data));
      SubackKeeps(s, SubackOf(data));
      PubackKeeps(s, AckOf(data));
      PubrecKeeps(s, AckOf(data));
      PubcompKeeps(s, AckOf(data));
      QueueKeeps(s, AckFrame(PUBCOMP * 16, AckOf(data)));
    }
  }

  lemma PublishWrittenKeeps(s: State, id: u16, ok: bool)
    requires Accounted(s)
    ensures Accounted(PublishWritten(s, id, ok))
  {
    hide Accounted, FinishPublishFailure, Arm;
    FailureKeeps(s, id);
    ArmKeeps(s, id, true);
  }

  lemma SubscribeKeeps(s: State, topic: bytes, qos: byte, hasCallback: bool)
    requires Accounted(s) && Sound(s)
    ensures Accounted(AsyncSubscribe(s, topic, qos, hasCallback))
  {
    hide Accounted;
    NotifyKeeps(s);
    var t := AsyncSubscribe(s, topic, qos, hasCallback);
    if t.pubs == s.pubs && t.reports == s.reports {
      SameAccountKeeps(s, t);
    }
  }

  /** The events that touch neither the publishes nor the reports. */
  lemma OtherStepKeeps(s: State, e: Event)
    requires Accounted(s) && Sound(s)
    requires e.PubrelWrite? || e.SubscribeWrite? || e.Connect? || e.TcpResult? || e.ResolveFailure?
          || e.ConnectExpiry? || e.LinkLost?
    ensures Accounted(Step(s, e))
  {
    hide Accounted;
    SameAccountKeeps(s, Step(s, e));
  }

  lemma StepKeepsAccounts(s: State, e: Event)
    requires Accounted(s) && Sound(s)
    ensures Accounted(Step(s, e))
  {
    hide Accounted, Sound, AsyncPublish, AsyncSubscribe, PublishWritten, PubrelWritten, SubscribeWritten, Qos0Written;
    hide PublishTimer, PubrecTimer, HandlePacket, NotifyClosedOnce, TcpDone, ResolveFailed, ConnectTimeout;
    match e
    case Publish(c) => PublishKeeps(s, c);
    case Subscribe(topic, qos, hasCallback) => SubscribeKeeps(s, topic, qos, hasCallback);
    case Qos0Write(h, ok) => Qos0WrittenKeeps(s, h, ok);
    case PublishWrite(id, ok) => PublishWrittenKeeps(s, id, ok);
    case PublishExpiry(id, current) => PublishTimerKeeps(s, id, current);
    case PubrecExpiry(id, current) => PubrecTimerKeeps(s, id, current);
    case Packet(data) => PacketKeeps(s, data);
    case SessionFailure => NotifyKeeps(s);
    case _ => OtherStepKeeps(s, e);
  }

  lemma {:induction false} RunKeepsAccounts(s: State, es: seq<Event>)
    requires Accounted(s) && Sound(s)
    ensures Accounted(Run(s, es))
    decreases |es|
  {
    if es != [] {
      StepKeepsAccounts(s, es[0]);
      StepIsSound(s, es[0]);
      RunKeepsAccounts(Step(s, es[0]), es[1..]);
    }
  }

  lemma ReachedIsAccounted(es: seq<Event>)
    ensures Accounted(Reached(es))
  {
    RunKeepsAccounts(INITIAL, es);
  }

  /**
   The delivery contract: after any run, whatever the broker, the timers and the writes do, a publish
   call of QoS 1 or 2, or one that was rejected, has been reported exactly once unless it is in the
   window, and then not at all; a QoS 0 frame has been reported each time its write handler ran. Each
   report carries the topic and QoS of its call.
   */
  lemma PublishAccounting(es: seq<Event>, h: nat)
    requires h < |Reached(es).calls|
    ensures var s := Reached(es);
      && Times(s.reports, h) == Due(s, h)
      && (Times(s.reports, h) == 0 <==> Waiting(s, h))
      && (s.calls[h].qos > 0 ==> Times(s.reports, h) <= 1)
      && Truthful(s)
  {
    RunKeepsAccounts(INITIAL, es);
    DueIsWaiting(Reached(es), h);
  }

  lemma DueIsWaiting(s: State, h: nat)
    requires Accounted(s) && h < |s.calls|
    ensures Due(s, h) == 0 <==> Waiting(s, h)
    ensures s.calls[h].qos > 0 ==> Due(s, h) == if InWindow(s.pubs, h) then 0 else 1
  {
  }
}
