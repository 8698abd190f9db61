/**
 The broker stays silent and every write succeeds: then the retry timers alone answer every publish
 in the window, after a number of expiries that is known in advance.
 */
module SilentBroker {
  import opened Bytes
  import opened Packets
  import opened PacketIds
  import opened Session
  import opened Accounting
  import opened Coverage
  import T = Transmissions
  import P = Pubrels

  const IDS := 0x1_0000

  /** The expiries an entry can still take: at most 3 in the PUBLISH phase, 4 in the PUBREL phase. */
  function Left(attempts: nat): nat {
    if attempts <= 3 then 4 - attempts else 0
  }

  function PubsLeft(pubs: map<u16, Pub>, below: nat): nat
    requires below <= IDS
  {
    if below == 0 then 0
    else PubsLeft(pubs, below - 1) + if below - 1 in pubs then Left(pubs[below - 1].attempts) else 0
  }

  function RecsLeft(recs: map<u16, Rec>, below: nat): nat
    requires below <= IDS
  {
    if below == 0 then 0
    else RecsLeft(recs, below - 1) + if below - 1 in recs then Left(recs[below - 1].attempts) else 0
  }

  /** The expiries that the whole window can still take. */
  function Budget(s: State, ids: nat): nat
    requires ids <= IDS
  {
    PubsLeft(s.pubs, ids) + RecsLeft(s.recs, ids)
  }

  lemma {:induction false} PubsChange(a: map<u16, Pub>, b: map<u16, Pub>, id: u16, below: nat)
    requires below <= IDS && id in a && id in b && a.Keys == b.Keys
    requires forall j :: j in a && j != id ==> b[j].attempts == a[j].attempts
    ensures PubsLeft(b, below)
         == PubsLeft(a, below) + if id < below then Left(b[id].attempts) - Left(a[id].attempts) else 0
  {
    if below > 0 {
      PubsChange(a, b, id, below - 1);
    }
  }

  lemma {:induction false} RecsChange(a: map<u16, Rec>, b: map<u16, Rec>, id: u16, below: nat)
    requires below <= IDS && id in a && id in b && a.Keys == b.Keys
    requires forall j :: j in a && j != id ==> b[j].attempts == a[j].attempts
    ensures RecsLeft(b, below)
         == RecsLeft(a, below) + if id < below then Left(b[id].attempts) - Left(a[id].attempts) else 0
  {
    if below > 0 {
      RecsChange(a, b, id, below - 1);
    }
  }

  lemma {:induction false} PubsSame(a: map<u16, Pub>, b: map<u16, Pub>, below: nat)
    requires below <= IDS && a.Keys == b.Keys && forall j :: j in a ==> b[j].attempts == a[j].attempts
    ensures PubsLeft(b, below) == PubsLeft(a, below)
  {
    if below > 0 {
      PubsSame(a, b, below - 1);
    }
  }

  lemma {:induction false} RecsSame(a: map<u16, Rec>, b: map<u16, Rec>, below: nat)
    requires below <= IDS && a.Keys == b.Keys && forall j :: j in a ==> b[j].attempts == a[j].attempts
    ensures RecsLeft(b, below) == RecsLeft(a, below)
  {
    if below > 0 {
      RecsSame(a, b, below - 1);
    }
  }

  lemma {:induction false} NothingLeft(s: State, below: nat)
    requires below <= IDS && s.pubs == map[] && s.recs == map[]
    ensures PubsLeft(s.pubs, below) == 0 && RecsLeft(s.recs, below) == 0
  {
    if below > 0 {
      NothingLeft(s, below - 1);
    }
  }

  /** An entry that can take an expiry is part of the sum. */
  lemma {:induction false} EntryCounts(s: State, id: u16, below: nat)
    requires below <= IDS && id < below
    ensures id in s.pubs ==> PubsLeft(s.pubs, below) >= Left(s.pubs[id].attempts)
    ensures id in s.recs ==> RecsLeft(s.recs, below) >= Left(s.recs[id].attempts)
  {
    if id < below - 1 {
      EntryCounts(s, id, below - 1);
    }
  }

  /** Timers fire and writes succeed; nothing else happens. */
  predicate Silent(e: Event) {
    || e.PublishExpiry? || e.PubrecExpiry?
    || ((e.PublishWrite? || e.PubrelWrite? || e.SubscribeWrite?) && e.ok)
  }

  /** An expiry that finds its exchange. */
  predicate Hit(s: State, e: Event) {
    (e.PublishExpiry? && e.id in s.pubs) || (e.PubrecExpiry? && e.id in s.recs)
  }

  ghost predicate WithinAttempts(s: State) {
    && (forall id :: id in s.pubs ==> s.pubs[id].attempts <= MAX_ATTEMPTS)
    && (forall id :: id in s.recs ==> s.recs[id].attempts <= MAX_ATTEMPTS)
  }

  /** The states of a silent run: an open session, or one that was drained. */
  ghost predicate Steady(s: State) {
    WithinAttempts(s) && (s.closed ==> s.pubs == map[] && s.recs == map[])
  }

  lemma PublishHit(s: State, id: u16, current: bool, ids: nat)
    requires Steady(s) && id in s.pubs && id < ids <= IDS
    ensures var t := PublishTimer(s, id, current); Steady(t) && Budget(t, ids) < Budget(s, ids)
  {
    var t := PublishTimer(s, id, current);
    EntryCounts(s, id, ids);
    if s.pubs[id].attempts >= MAX_ATTEMPTS {
      assert t.pubs == map[] && t.recs == map[];
      NothingLeft(t, ids);
    } else {
      assert t.pubs.Keys == s.pubs.Keys && t.recs == s.recs;
      assert t.pubs[id].attempts == s.pubs[id].attempts + 1;
      PubsChange(s.pubs, t.pubs, id, ids);
    }
  }

  lemma PubrecHit(s: State, id: u16, current: bool, ids: nat)
    requires Steady(s) && id in s.recs && id < ids <= IDS
    ensures var t := PubrecTimer(s, id, current); Steady(t) && Budget(t, ids) < Budget(s, ids)
  {
    var t := PubrecTimer(s, id, current);
    EntryCounts(s, id, ids);
    if s.recs[id].attempts >= MAX_ATTEMPTS {
      assert t.pubs == map[] && t.recs == map[];
      NothingLeft(t, ids);
    } else {
      assert t.recs.Keys == s.recs.Keys && t.pubs == s.pubs;
      assert t.recs[id].attempts == s.recs[id].attempts + 1;
      RecsChange(s.recs, t.recs, id, ids);
    }
  }

  lemma MissKeeps(s: State, e: Event, ids: nat)
    requires Steady(s) && Sound(s) && Silent(e) && !Hit(s, e) && ids <= IDS
    ensures Steady(Step(s, e)) && Budget(Step(s, e), ids) == Budget(s, ids)
  {
    var t := Step(s, e);
    assert t.closed == s.closed && t.pubs.Keys == s.pubs.Keys && t.recs.Keys == s.recs.Keys;
    PubsSame(s.pubs, t.pubs, ids);
    RecsSame(s.recs, t.recs, ids);
  }

  /** The measure: every expiry that finds its exchange takes at least one from the budget. */
  lemma SilentStep(s: State, e: Event, ids: nat)
    requires Steady(s) && Sound(s) && Silent(e) && ids == IDS
    ensures Steady(Step(s, e))
    ensures Budget(Step(s, e), ids) + (if Hit(s, e) then 1 else 0) <= Budget(s, ids)
  {
    hide PublishTimer, PubrecTimer, Budget, Steady;
    if e.PublishExpiry? && e.id in s.pubs {
      PublishHit(s, e.id, e.current, ids);
    } else if e.PubrecExpiry? && e.id in s.recs {
      PubrecHit(s, e.id, e.current, ids);
    } else {
      MissKeeps(s, e, ids);
    }
  }

  /** How many expiries of a run find their exchange. */
  function Hits(s: State, es: seq<Event>): nat
    requires Sound(s)
    decreases |es|
  {
    if es == [] then 0
    else
      StepIsSound(s, es[0]);
      (if Hit(s, es[0]) then 1 else 0) + Hits(Step(s, es[0]), es[1..])
  }

  lemma {:induction false} SilentRun(s: State, es: seq<Event>, ids: nat)
    requires Steady(s) && Sound(s) && ids == IDS
    requires forall i :: 0 <= i < |es| ==> Silent(es[i])
    ensures Steady(Run(s, es))
    ensures Budget(Run(s, es), ids) + Hits(s, es) <= Budget(s, ids)
    decreases |es|
  {
    if es != [] {
      SilentStep(s, es[0], ids);
      StepIsSound(s, es[0]);
      hide Step, Budget, Steady, Silent, Hit, Sound;
      SilentRun(Step(s, es[0]), es[1..], ids);
    }
  }

  lemma {:induction false} SilentRunsAreCareful(s: State, es: seq<Event>, ids: nat)
    requires Steady(s) && Sound(s) && ids == IDS
    requires forall i :: 0 <= i < |es| ==> Silent(es[i])
    ensures Careful(s, es)
    decreases |es|
  {
    if es != [] {
      SilentStep(s, es[0], ids);
      StepIsSound(s, es[0]);
      SilentNeverStrands(s, es[0]);
      hide Step, Budget, Steady, Silent, Hit, Sound, Strands;
      SilentRunsAreCareful(Step(s, es[0]), es[1..], ids);
    }
  }

  lemma SilentNeverStrands(s: State, e: Event)
    requires Steady(s) && Silent(e)
    ensures !Strands(s, e)
  {
  }

  lemma OutOfBudget(s: State, ids: nat)
    requires WithinAttempts(s) && ids == IDS && Budget(s, ids) == 0
    ensures s.pubs == map[] && s.recs == map[]
  {
    forall id: u16
      ensures id !in s.pubs && id !in s.recs
    {
      EntryCounts(s, id, ids);
    }
  }

  // ------------------------------------------------------------ one publish by itself

  /** In a silent run nothing leaves but all at once: a step keeps every exchange, or drains the session. */
  ghost predicate AllOrNothing(s: State, t: State) {
    || (t.pubs == map[] && t.recs == map[])
    || (t.pubs.Keys == s.pubs.Keys && t.recs.Keys == s.recs.Keys)
  }

  lemma PublishTimerIsAllOrNothing(s: State, id: u16, current: bool)
    requires s.closed ==> s.pubs == map[]
    ensures AllOrNothing(s, PublishTimer(s, id, current))
  {
    hide Drain;
  }

  lemma PubrecTimerIsAllOrNothing(s: State, id: u16, current: bool)
    requires s.closed ==> s.recs == map[]
    ensures AllOrNothing(s, PubrecTimer(s, id, current))
  {
    hide Drain;
  }

  lemma SilentStepIsAllOrNothing(s: State, e: Event)
    requires Steady(s) && Sound(s) && Silent(e)
    ensures AllOrNothing(s, Step(s, e))
  {
    hide PublishTimer, PubrecTimer, Sound, WithinAttempts;
    match e
    case PublishExpiry(id, current) => PublishTimerIsAllOrNothing(s, id, current);
    case PubrecExpiry(id, current) => PubrecTimerIsAllOrNothing(s, id, current);
    case _ =>
  }

  /** The expiries that the PUBLISH of an id, and its PUBREL exchange, can still take. */
  function PubLeft(s: State, id: u16): nat {
    if id in s.pubs then Left(s.pubs[id].attempts) else 0
  }

  function RecLeft(s: State, id: u16): nat {
    if id in s.recs then Left(s.recs[id].attempts) else 0
  }

  predicate PubHit(s: State, e: Event, id: u16) {
    e.PublishExpiry? && e.id == id && id in s.pubs
  }

  predicate RecHit(s: State, e: Event, id: u16) {
    e.PubrecExpiry? && e.id == id && id in s.recs
  }

  /** How often the timers of an id expire in a run and find their exchange. */
  function PubHits(s: State, es: seq<Event>, id: u16): nat
    requires Sound(s)
    decreases |es|
  {
    if es == [] then 0
    else
      StepIsSound(s, es[0]);
      (if PubHit(s, es[0], id) then 1 else 0) + PubHits(Step(s, es[0]), es[1..], id)
  }

  function RecHits(s: State, es: seq<Event>, id: u16): nat
    requires Sound(s)
    decreases |es|
  {
    if es == [] then 0
    else
      StepIsSound(s, es[0]);
      (if RecHit(s, es[0], id) then 1 else 0) + RecHits(Step(s, es[0]), es[1..], id)
  }

  lemma PubStep(s: State, e: Event, id: u16)
    requires Steady(s) && Sound(s) && Silent(e)
    ensures PubLeft(Step(s, e), id) + (if PubHit(s, e, id) then 1 else 0) <= PubLeft(s, id)
  {
    hide Drain;
  }

  lemma RecStep(s: State, e: Event, id: u16)
    requires Steady(s) && Sound(s) && Silent(e)
    ensures RecLeft(Step(s, e), id) + (if RecHit(s, e, id) then 1 else 0) <= RecLeft(s, id)
  {
    hide Drain;
  }

  lemma {:induction false} OneExchange(s: State, es: seq<Event>, id: u16)
    requires Steady(s) && Sound(s)
    requires forall i :: 0 <= i < |es| ==> Silent(es[i])
    ensures var t := Run(s, es);
      && Steady(t) && AllOrNothing(s, t)
      && PubLeft(t, id) + PubHits(s, es, id) <= PubLeft(s, id)
      && RecLeft(t, id) + RecHits(s, es, id) <= RecLeft(s, id)
    decreases |es|
  {
    if es != [] {
      SilentStep(s, es[0], IDS);
      SilentStepIsAllOrNothing(s, es[0]);
      PubStep(s, es[0], id);
      RecStep(s, es[0], id);
      StepIsSound(s, es[0]);
      hide Step, Steady, Silent, Sound, PubHit, RecHit, PubLeft, RecLeft, Budget;
      OneExchange(Step(s, es[0]), es[1..], id);
    }
  }

  /**
   The bound for one publish, in any silent run: with n attempts behind it, at most 4 - n of its own
   expiries find it in the PUBLISH phase, and at most 4 - n of its PUBREL exchange's find that one;
   with the last of either everything in the window has been answered, not only this publish.
   */
  lemma EachPublishIsBounded(before: seq<Event>, es: seq<Event>, id: u16)
    requires !Reached(before).closed
    requires forall i :: 0 <= i < |es| ==> Silent(es[i])
    ensures var s, t := Reached(before), Run(Reached(before), es);
      && (id in s.pubs ==> PubHits(s, es, id) <= 4 - s.pubs[id].attempts)
      && (id in s.recs ==> RecHits(s, es, id) <= 4 - s.recs[id].attempts)
      && (id in s.pubs && PubHits(s, es, id) == 4 - s.pubs[id].attempts ==> t.pubs == map[])
      && (id in s.recs && RecHits(s, es, id) == 4 - s.recs[id].attempts ==> t.pubs == map[])
  {
    var s := Reached(before);
    ReachedIsWithin(before);
    assert Steady(s);
    OneExchange(s, es, id);
    var t := Run(s, es);
    LeftIsSome(s, id);
    LeftIsSome(t, id);
    hide Run, PubHits, RecHits, Silent, PubLeft, RecLeft, Reached;
  }

  lemma LeftIsSome(s: State, id: u16)
    requires WithinAttempts(s)
    ensures PubLeft(s, id) == if id in s.pubs then 4 - s.pubs[id].attempts else 0
    ensures RecLeft(s, id) == if id in s.recs then 4 - s.recs[id].attempts else 0
    ensures id in s.pubs ==> PubLeft(s, id) > 0
    ensures id in s.recs ==> RecLeft(s, id) > 0
  {
  }

  // ------------------------------------------------------------ everything is answered

  /** A wait that is outstanding expires. */
  predicate Due(s: State, e: Event) {
    || (e.PublishExpiry? && e.current && e.id in s.pubs && s.pubs[e.id].armed)
    || (e.PubrecExpiry? && e.current && e.id in s.recs && s.recs[e.id].armed)
  }

  /** Nothing happens but that outstanding waits expire, in any order. */
  predicate DueRun(s: State, es: seq<Event>)
    requires Sound(s)
    decreases |es|
  {
    es == [] || (Due(s, es[0]) && (StepIsSound(s, es[0]); DueRun(Step(s, es[0]), es[1..])))
  }

  ghost predicate NothingDue(s: State) {
    forall e: Event :: !Due(s, e)
  }

  ghost predicate AllReported(calls: seq<Call>, t: State) {
    forall h: nat :: h < |calls| && calls[h].qos > 0 ==> Times(t.reports, h) == 1
  }

  lemma {:induction false} DueRunIsSilent(s: State, es: seq<Event>)
    requires Sound(s) && DueRun(s, es)
    ensures forall i :: 0 <= i < |es| ==> Silent(es[i])
    ensures Hits(s, es) == |es|
    decreases |es|
  {
    if es != [] {
      StepIsSound(s, es[0]);
      hide Step, Sound;
      DueRunIsSilent(Step(s, es[0]), es[1..]);
    }
  }

  lemma SomethingIsDue(s: State)
    requires Covered(s) && s.pubs != map[]
    ensures !NothingDue(s)
  {
    var id :| id in s.pubs;
    assert Watched(s, id);
    assert Due(s, if s.pubs[id].armed then PublishExpiry(id, true) else PubrecExpiry(id, true));
  }

  /**
   A silent broker, from any open state that a run without a stranding step leads to. No run of expiries
   and successful writes has more effective expiries than the window's budget; as long as a publish is
   unanswered a wait is outstanding; and whenever the budget is used up, or no wait is outstanding any
   more, every QoS 1 and 2 call has been reported exactly once.
   */
  lemma SilentBrokerAnswersEverything(before: seq<Event>, es: seq<Event>)
    requires Careful(INITIAL, before) && !Reached(before).closed
    requires forall i :: 0 <= i < |es| ==> Silent(es[i])
    ensures var s, t := Reached(before), Run(Reached(before), es);
      && Hits(s, es) + Budget(t, IDS) <= Budget(s, IDS)
      && (t.pubs != map[] ==> !NothingDue(t))
      && (Budget(t, IDS) == 0 || NothingDue(t) ==> t.pubs == map[] && AllReported(s.calls, t))
  {
    var s := Reached(before);
    ReachedIsWithin(before);
    NoStrandedPublish(before);
    assert Steady(s);
    hide Covered, Careful, Silent, WithinAttempts, Hits, Budget, NothingDue, AllReported;
    SilentRunsAreCareful(s, es, IDS);
    CarefulRunsCover(s, es);
    SilentRun(s, es, IDS);
    var t := Run(s, es);
    if Budget(t, IDS) == 0 {
      OutOfBudget(t, IDS);
    }
    if t.pubs == map[] {
      EmptyIsReported(before, es);
    } else {
      SomethingIsDue(t);
    }
  }

  lemma EmptyIsReported(before: seq<Event>, es: seq<Event>)
    requires Run(Reached(before), es).pubs == map[]
    ensures AllReported(Reached(before).calls, Run(Reached(before), es))
  {
    var s := Reached(before);
    var t := Run(s, es);
    ReachedIsAccounted(before);
    RunKeepsAccounts(s, es);
    CallsStay(s, es);
    hide Run, Accounted;
    forall h: nat | h < |s.calls| && s.calls[h].qos > 0
      ensures Times(t.reports, h) == 1
    {
      NothingWaits(t, h);
    }
  }

  /** The timers alone, from any covered state: they empty the window within the budget. */
  lemma {:induction false} TimersEmptyTheWindow(s: State, ids: nat) returns (es: seq<Event>)
    requires Steady(s) && Sound(s) && Covered(s) && ids == IDS
    ensures DueRun(s, es) && |es| <= Budget(s, ids) && Run(s, es).pubs == map[]
    decreases Budget(s, ids)
  {
    if id :| id in s.pubs {
      assert Watched(s, id);
      var e := if s.pubs[id].armed then PublishExpiry(id, true) else PubrecExpiry(id, true);
      assert Due(s, e) && Silent(e) && Hit(s, e);
      OneExpiry(s, e, ids);
      hide Steady, Sound, Covered, Budget, Step, Due;
      var rest := TimersEmptyTheWindow(Step(s, e), ids);
      es := [e] + rest;
      assert es[1..] == rest;
    } else {
      es := [];
    }
  }

  lemma OneExpiry(s: State, e: Event, ids: nat)
    requires Steady(s) && Sound(s) && Covered(s) && ids == IDS && Silent(e) && Hit(s, e)
    ensures var t := Step(s, e); Steady(t) && Sound(t) && Covered(t) && Budget(t, ids) < Budget(s, ids)
  {
    hide Steady, Sound, Covered, Budget, Step, Strands;
    SilentStep(s, e, ids);
    StepIsSound(s, e);
    SilentNeverStrands(s, e);
    CoverageLostIff(s, e);
  }

  /**
   And it comes to that: from any such state the outstanding waits alone, at most as many expiries as
   the budget has, answer every QoS 1 and 2 call, exactly once.
   */
  lemma TimersAnswerEverything(before: seq<Event>)
    requires Careful(INITIAL, before) && !Reached(before).closed
    ensures var s := Reached(before);
      exists es :: DueRun(s, es) && |es| <= Budget(s, IDS) && AllReported(s.calls, Run(s, es))
  {
    var s := Reached(before);
    ReachedIsWithin(before);
    NoStrandedPublish(before);
    assert Steady(s);
    hide Covered, Careful, WithinAttempts, Budget, DueRun, AllReported, Run;
    var ids: nat := IDS;
    var es := TimersEmptyTheWindow(s, ids);
    EmptyIsReported(before, es);
  }

  /**
   In whatever order they expire: a run of outstanding waits is never longer than the budget, and one
   that cannot go on has answered every call.
   */
  lemma EveryOrderAnswers(before: seq<Event>, es: seq<Event>)
    requires Careful(INITIAL, before) && !Reached(before).closed && DueRun(Reached(before), es)
    ensures var s, t := Reached(before), Run(Reached(before), es);
      |es| <= Budget(s, IDS) && (NothingDue(t) ==> AllReported(s.calls, t))
  {
    hide Careful, Budget, DueRun, AllReported, Run, NothingDue, Silent, Hits;
    DueRunIsSilent(Reached(before), es);
    SilentBrokerAnswersEverything(before, es);
  }

  lemma NothingWaits(t: State, h: nat)
    requires Accounted(t) && t.pubs == map[] && h < |t.calls| && t.calls[h].qos > 0
    ensures Times(t.reports, h) == 1
  {
    assert !InWindow(t.pubs, h);
  }

  lemma ReachedIsWithin(es: seq<Event>)
    ensures WithinAttempts(Reached(es))
  {
    T.RunKeepsBudget(INITIAL, es);
    P.RunKeepsPubrels(INITIAL, es);
    var s := Reached(es);
    forall id | id in s.pubs
      ensures s.pubs[id].attempts <= MAX_ATTEMPTS
    {
      assert T.CountedEntry(s, id, s.pubs[id]);
    }
    forall id | id in s.recs
      ensures s.recs[id].attempts <= MAX_ATTEMPTS
    {
      assert P.RecCounted(s, id, s.recs[id]);
    }
  }
}
