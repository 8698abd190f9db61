/**
 The reconnect policy of the helper: one backoff wait at a time, an attempt counter, giving up and
 re-arming. rearm_reconnect() runs on any thread, so its two halves are two steps; the wait of a timer
 that was cancelled or replaced still completes later, and so does one that had expired before.
 */
module Reconnect {
  import opened Session

  const UNLIMITED := -1
  const SATURATION := 1_000_000
  const MAX_DELAY := 30_000
  const MAX_SHIFT := 20

  datatype Helper = Helper(
    maxAttempts: int,
    baseDelay: nat,
    should: bool,       // should_reconnect_
    stopped: bool,      // user_stopped_
    pending: bool,      // reconnect_pending_
    attempts: nat,      // reconnect_attempts_
    waitLive: bool,     // the timer has a wait outstanding
    ripe: nat,          // waits that expired and whose handler has not run
    aborted: nat,       // waits that were cancelled and whose handler has not run
    claims: nat,        // rearm_reconnect() calls that have set the flag and not yet posted their task
    tasks: nat,         // posted re-arm tasks
    waits: nat,         // waits armed since the counter was reset
    delay: nat,         // the delay of the last wait
    connects: nat)      // connect attempts started

  // ------------------------------------------------------------ the backoff

  function Min(a: int, b: int): int {
    if a <= b then a else b
  }

  function Pow2(n: nat): (p: nat)
    ensures p >= 1
  {
    if n == 0 then 1 else 2 * Pow2(n - 1)
  }

  function Delay(maxAttempts: int, baseDelay: nat, attempts: nat): nat {
    if maxAttempts == UNLIMITED then baseDelay
    else Min(baseDelay * Pow2(Min(attempts, MAX_SHIFT)), MAX_DELAY)
  }

  lemma {:induction false} Pow2Monotone(a: nat, b: nat)
    requires a <= b
    ensures Pow2(a) <= Pow2(b)
    decreases b
  {
    if a < b {
      Pow2Monotone(a, b - 1);
    }
  }

  lemma Pow2Twenty()
    ensures Pow2(MAX_SHIFT) == 1_048_576
  {
    assert Pow2(5) == 32;
    assert Pow2(10) == 32 * Pow2(5);
    assert Pow2(15) == 32 * Pow2(10);
    assert Pow2(20) == 32 * Pow2(15);
  }

  /**
   The capped shift computes the capped doubling: for every attempt and every 32-bit base the delay
   is min(base * 2^n, 30000), it never decreases, and the product fits in 64 bits. Without a limit on
   the attempts the delay is the base.
   */
  lemma BackoffIsCappedDoubling(maxAttempts: int, baseDelay: nat, n: nat)
    requires baseDelay < 0x8000_0000
    ensures Delay(maxAttempts, baseDelay, n)
      == if maxAttempts == -1 then baseDelay else Min(baseDelay * Pow2(n), 30_000)
    ensures Delay(maxAttempts, baseDelay, n) <= Delay(maxAttempts, baseDelay, n + 1)
    ensures maxAttempts != -1 ==> Delay(maxAttempts, baseDelay, n + 1) <= 30_000
    ensures baseDelay * Pow2(Min(n, MAX_SHIFT)) < 0x8000_0000_0000_0000
  {
    Pow2Twenty();
    Pow2Monotone(Min(n, MAX_SHIFT), MAX_SHIFT);
    ScaledOrder(baseDelay, Pow2(Min(n, MAX_SHIFT)), 1_048_576);
    DelayIs(baseDelay, n);
    DelayIs(baseDelay, n + 1);
    Pow2Monotone(n, n + 1);
    ScaledOrder(baseDelay, Pow2(n), Pow2(n + 1));
  }

  lemma ScaledOrder(base: nat, a: nat, b: nat)
    requires a <= b
    ensures base * a <= base * b
  {
  }

  lemma DelayIs(baseDelay: nat, n: nat)
    ensures Min(baseDelay * Pow2(Min(n, MAX_SHIFT)), MAX_DELAY) == Min(baseDelay * Pow2(n), MAX_DELAY)
  {
    if n > MAX_SHIFT && baseDelay > 0 {
      Pow2Twenty();
      Pow2Monotone(MAX_SHIFT, n);
      ScaledOrder(baseDelay, Pow2(MAX_SHIFT), Pow2(n));
      assert baseDelay * Pow2(MAX_SHIFT) >= 1_048_576;
    }
  }

  // ------------------------------------------------------------ the steps

  /** The configuration that set_reconnect_config stores. */
  function Configured(maxAttempts: int, baseDelay: int): (int, nat) {
    (if maxAttempts < UNLIMITED then 0 else maxAttempts, if baseDelay < 0 then 0 else baseDelay)
  }

  /** start(): every flag and counter is reset, then the first connect is begun. */
  function Started(maxAttempts: int, baseDelay: int): Helper {
    var (max, base) := Configured(maxAttempts, baseDelay);
    Helper(max, base, true, false, false, 0, false, 0, 0, 0, 0, 0, 0, 1)
  }

  function CancelWait(h: Helper): Helper {
    if h.waitLive then h.(waitLive := false, aborted := h.aborted + 1) else h
  }

  predicate Exhausted(h: Helper) {
    h.maxAttempts != UNLIMITED && h.attempts >= h.maxAttempts
  }

  function DoReconnect(h: Helper): Helper {
    if !h.should || h.stopped then h
    else if h.pending then h
    else if Exhausted(h) then h.(should := false, pending := false)
    else
      CancelWait(h).(
        pending := true,
        waitLive := true,
        attempts := if h.attempts < SATURATION then h.attempts + 1 else h.attempts,
        waits := h.waits + 1,
        delay := Delay(h.maxAttempts, h.baseDelay, h.attempts))
  }

  function DoConnect(h: Helper): Helper {
    h.(connects := h.connects + 1)
  }

  function OnSignal(h: Helper, g: Signal): Helper {
    match g
    case OnClose => if h.should && !h.stopped then DoReconnect(h) else h
    case OnConnect(ok) => if ok then h.(attempts := 0, waits := 0) else DoReconnect(h)
  }

  datatype Action =
    | Told(signal: Signal)
    | WaitExpires
    | RipeHandler
    | AbortedHandler
    | RearmClaim
    | RearmPost
    | RearmTask
    | Stop

  function Act(h: Helper, a: Action): Helper {
    match a
    case Told(g) => OnSignal(h, g)
    case WaitExpires => if h.waitLive then h.(waitLive := false, ripe := h.ripe + 1) else h
    case RipeHandler =>
      if h.ripe == 0 then h
      else
        var t := h.(ripe := h.ripe - 1, pending := false);
        if t.should && !t.stopped then DoConnect(t) else t
    case AbortedHandler => if h.aborted == 0 then h else h.(aborted := h.aborted - 1, pending := false)
    case RearmClaim => if h.stopped || h.should then h else h.(should := true, claims := h.claims + 1)
    case RearmPost =>
      if h.claims == 0 then h else h.(attempts := 0, waits := 0, claims := h.claims - 1, tasks := h.tasks + 1)
    case RearmTask =>
      if h.tasks == 0 then h
      else
        var t := h.(tasks := h.tasks - 1);
        if !t.should || t.stopped then t else DoConnect(CancelWait(t).(pending := false))
    case Stop => CancelWait(h).(stopped := true, should := false, pending := false)
  }

  // ------------------------------------------------------------ what every step keeps

  /** A wait that will lead to a connect when its handler runs. */
  predicate WaitOutstanding(h: Helper) {
    h.waitLive || h.ripe > 0
  }

  /** The pending flag is never set without a wait; and the counter counts the waits, up to saturation. */
  predicate Consistent(h: Helper) {
    && (h.pending ==> WaitOutstanding(h))
    && h.attempts == Min(h.waits, SATURATION)
    && h.maxAttempts >= UNLIMITED
    && (0 <= h.maxAttempts <= SATURATION ==> h.waits <= h.maxAttempts)
  }

  lemma ActKeepsConsistent(h: Helper, a: Action)
    requires Consistent(h)
    ensures Consistent(Act(h, a))
  {
  }

  function Actions(h: Helper, acts: seq<Action>): Helper
    decreases |acts|
  {
    if acts == [] then h else Actions(Act(h, acts[0]), acts[1..])
  }

  lemma {:induction false} ActionsKeepConsistent(h: Helper, acts: seq<Action>)
    requires Consistent(h)
    ensures Consistent(Actions(h, acts)) && Actions(h, acts).maxAttempts == h.maxAttempts
    decreases |acts|
  {
    if acts != [] {
      ActKeepsConsistent(h, acts[0]);
      ActionsKeepConsistent(Act(h, acts[0]), acts[1..]);
    }
  }

  // ------------------------------------------------------------ the attempts since the last success

  lemma {:induction false} ActionsSnoc(h: Helper, acts: seq<Action>, a: Action)
    ensures Actions(h, acts + [a]) == Act(Actions(h, acts), a)
    decreases |acts|
  {
    hide Act;
    if acts == [] {
      assert (acts + [a])[1..] == [];
    } else {
      assert (acts + [a])[1..] == acts[1..] + [a];
      ActionsSnoc(Act(h, acts[0]), acts[1..], a);
    }
  }

  /** A successful connect, or a re-arm that is let in. */
  predicate Restores(h: Helper, a: Action) {
    a == Told(OnConnect(true)) || (a == RearmPost && h.claims > 0)
  }

  /** A failure for which a wait is announced. */
  predicate Arms(h: Helper, a: Action) {
    a.Told? && !h.pending && Act(h, a).pending
  }

  /** The waits announced since the last such success or re-arm, counted on the list of what happened. */
  function Spent(start: Helper, acts: seq<Action>): nat {
    if acts == [] then 0
    else
      var n := |acts| - 1;
      var h := Actions(start, acts[..n]);
      if Restores(h, acts[n]) then 0 else Spent(start, acts[..n]) + if Arms(h, acts[n]) then 1 else 0
  }

  lemma ActCounts(h: Helper, a: Action)
    ensures Act(h, a).waits == if Restores(h, a) then 0 else h.waits + if Arms(h, a) then 1 else 0
  {
    hide Delay;
  }

  lemma {:induction false} SpentIsCounted(maxAttempts: int, baseDelay: int, acts: seq<Action>)
    ensures Actions(Started(maxAttempts, baseDelay), acts).waits == Spent(Started(maxAttempts, baseDelay), acts)
    decreases |acts|
  {
    if acts != [] {
      var n := |acts| - 1;
      SpentIsCounted(maxAttempts, baseDelay, acts[..n]);
      assert acts == acts[..n] + [acts[n]];
      ActionsSnoc(Started(maxAttempts, baseDelay), acts[..n], acts[n]);
      ActCounts(Actions(Started(maxAttempts, baseDelay), acts[..n]), acts[n]);
      hide Act, Restores, Arms;
    }
  }

  /**
   After any run of failures, successes, expiries, re-arms and stops the attempt counter is the number
   of waits announced since the last success or re-arm, up to saturation; and for a limit up to 1000000
   that many waits are never exceeded.
   */
  lemma WaitsAreLimited(maxAttempts: int, baseDelay: int, acts: seq<Action>)
    ensures var start := Started(maxAttempts, baseDelay);
      && Actions(start, acts).attempts == Min(Spent(start, acts), 1_000_000)
      && (maxAttempts != -1 && maxAttempts <= 1_000_000 ==> Spent(start, acts) <= Configured(maxAttempts, baseDelay).0)
  {
    ActionsKeepConsistent(Started(maxAttempts, baseDelay), acts);
    SpentIsCounted(maxAttempts, baseDelay, acts);
    hide Spent;
  }

  // ------------------------------------------------------------ field by field

  /** A failure report that is not absorbed, and one that finds attempts left. */
  predicate Heeded(h: Helper, a: Action) {
    a.Told? && a.signal != OnConnect(true) && h.should && !h.stopped && !h.pending
  }

  predicate Announces(h: Helper, a: Action) {
    Heeded(h, a) && (h.maxAttempts == -1 || h.attempts < h.maxAttempts)
  }

  /** A re-arm task that stop() has not overtaken. */
  predicate Rearms(h: Helper, a: Action) {
    a == RearmTask && h.tasks > 0 && h.should && !h.stopped
  }

  /** The end of a wait, stop(), or a re-arm task. */
  predicate Clears(h: Helper, a: Action) {
    a == Stop || Rearms(h, a) || (a == RipeHandler && h.ripe > 0) || (a == AbortedHandler && h.aborted > 0)
  }

  function One(b: bool): nat {
    if b then 1 else 0
  }

  /** What changes each flag and each counter of what is outstanding, whatever the action. */
  lemma ActMoves(h: Helper, a: Action)
    ensures var t := Act(h, a);
      && (t.stopped <==> h.stopped || a == Stop)
      && (t.should <==>
            a != Stop && !(Heeded(h, a) && !Announces(h, a)) && (h.should || (a == RearmClaim && !h.stopped)))
      && (t.waitLive <==> Announces(h, a) || (h.waitLive && a !in {Stop, WaitExpires} && !Rearms(h, a)))
      && t.claims + One(a == RearmPost && h.claims > 0) == h.claims + One(a == RearmClaim && !h.should && !h.stopped)
      && t.tasks + One(a == RearmTask && h.tasks > 0) == h.tasks + One(a == RearmPost && h.claims > 0)
    ensures var t := Act(h, a);
      && t.ripe + One(a == RipeHandler && h.ripe > 0) == h.ripe + One(a == WaitExpires && h.waitLive)
      && t.aborted + One(a == AbortedHandler && h.aborted > 0)
         == h.aborted + One(h.waitLive && (a == Stop || Rearms(h, a) || Announces(h, a)))
      && t.connects == h.connects + One(Rearms(h, a) || (a == RipeHandler && h.ripe > 0 && h.should && !h.stopped))
    ensures Act(h, a).pending <==> Announces(h, a) || (h.pending && !Clears(h, a))
  {
    hide Delay;
  }

  // ------------------------------------------------------------ giving up

  predicate GivesUp(h: Helper, g: Signal) {
    h.should && !Act(h, Told(g)).should
  }

  /** Between two waits: retrying, nothing outstanding. */
  predicate Idle(h: Helper) {
    h.should && !h.stopped && !h.pending && !h.waitLive && h.ripe == 0
  }

  lemma Then(h: Helper, acts: seq<Action>, a: Action) returns (longer: seq<Action>)
    ensures longer == acts + [a] && Actions(h, longer) == Act(Actions(h, acts), a)
  {
    longer := acts + [a];
    ActionsSnoc(h, acts, a);
  }

  /** A failure, its wait, and the retry. */
  lemma Cycle(h: Helper, acts: seq<Action>) returns (longer: seq<Action>)
    requires Idle(Actions(h, acts)) && !Exhausted(Actions(h, acts)) && Actions(h, acts).attempts < SATURATION
    ensures Actions(h, longer).attempts == Actions(h, acts).attempts + 1
    ensures Idle(Actions(h, longer)) && Actions(h, longer).maxAttempts == Actions(h, acts).maxAttempts
    ensures Actions(h, longer).claims == Actions(h, acts).claims
  {
    longer := Then(h, acts, Told(OnClose));
    longer := Then(h, longer, WaitExpires);
    longer := Then(h, longer, RipeHandler);
  }

  /** k failures, each waited for and retried. */
  lemma {:induction false} Failures(start: Helper, k: nat) returns (acts: seq<Action>)
    requires Idle(start) && start.attempts == 0 && start.maxAttempts >= k && k <= SATURATION
    ensures var h := Actions(start, acts); Idle(h) && h.attempts == k && h.maxAttempts == start.maxAttempts
  {
    if k == 0 {
      acts := [];
    } else {
      acts := Failures(start, k - 1);
      acts := Cycle(start, acts);
    }
  }

  /**
   The helper can give up exactly if the limit is one that the saturating counter can reach: with a
   limit above 1000000 it retries for ever, as if there were none.
   */
  lemma GivesUpIffLimitIsReachable(maxAttempts: int, baseDelay: int)
    ensures var start := Started(maxAttempts, baseDelay);
      (exists acts: seq<Action>, g: Signal :: GivesUp(Actions(start, acts), g))
      <==> maxAttempts != -1 && maxAttempts <= 1_000_000
  {
    var start := Started(maxAttempts, baseDelay);
    if 0 <= start.maxAttempts <= SATURATION {
      var acts := Failures(start, start.maxAttempts);
      assert GivesUp(Actions(start, acts), OnClose);
    }
    forall acts: seq<Action>, g: Signal | GivesUp(Actions(start, acts), g)
      ensures 0 <= start.maxAttempts <= SATURATION
    {
      ActionsKeepConsistent(start, acts);
    }
  }

  /** Once it has given up, no step starts a connect until the application re-arms it. */
  lemma {:induction false} NoConnectAfterGivingUp(h: Helper, acts: seq<Action>)
    requires !h.should && RearmClaim !in acts
    ensures !Actions(h, acts).should && Actions(h, acts).connects == h.connects
    decreases |acts|
  {
    if acts != [] {
      NoConnectAfterGivingUp(Act(h, acts[0]), acts[1..]);
    }
  }

  /** stop() cancels the wait, and nothing whatever starts a connect after it, not even a re-arm. */
  lemma NoConnectAfterStop(h: Helper, acts: seq<Action>)
    ensures var t := Actions(Act(h, Stop), acts); t.connects == h.connects && !t.should && !t.waitLive
  {
    StoppedStays(Act(h, Stop), acts);
  }

  lemma {:induction false} StoppedStays(h: Helper, acts: seq<Action>)
    requires h.stopped && !h.should && !h.waitLive
    ensures var t := Actions(h, acts); t.connects == h.connects && !t.should && !t.waitLive
    decreases |acts|
  {
    hide Delay;
    if acts != [] {
      StoppedStays(Act(h, acts[0]), acts[1..]);
    }
  }

  /** A helper that has given up is brought back by a re-arm: it connects at once, with every attempt restored. */
  lemma RearmBringsBack(h: Helper)
    requires !h.should && !h.stopped
    ensures var t := Act(Act(Act(h, RearmClaim), RearmPost), RearmTask);
      t.should && t.connects == h.connects + 1 && t.attempts == 0 && !t.pending && !t.waitLive
  {
  }

  // ------------------------------------------------------------ every success restores every attempt

  /** k failures in a row, each waited for and retried. */
  function Cycles(k: nat): seq<Action> {
    if k == 0 then [] else Cycles(k - 1) + [Told(OnClose), WaitExpires, RipeHandler]
  }

  lemma OneCycle(h: Helper)
    requires Idle(h) && !Exhausted(h) && h.attempts < SATURATION
    ensures Actions(h, [Told(OnClose), WaitExpires, RipeHandler])
         == h.(attempts := h.attempts + 1, waits := h.waits + 1, connects := h.connects + 1,
               delay := Delay(h.maxAttempts, h.baseDelay, h.attempts))
  {
    hide Delay;
    var acts := [Told(OnClose), WaitExpires, RipeHandler];
    assert acts[1..] == [WaitExpires, RipeHandler] && acts[1..][1..] == [RipeHandler] && |acts[1..][1..][1..]| == 0;
    assert Actions(h, acts) == Act(Act(Act(h, Told(OnClose)), WaitExpires), RipeHandler);
  }

  lemma {:induction false} CyclesRun(h: Helper, k: nat)
    requires Idle(h) && h.attempts == 0 && k <= h.maxAttempts <= SATURATION
    ensures var t := Actions(h, Cycles(k));
      && Idle(t) && t.attempts == k && t.connects == h.connects + k
      && t.maxAttempts == h.maxAttempts && t.baseDelay == h.baseDelay
  {
    if k > 0 {
      CyclesRun(h, k - 1);
      var t := Actions(h, Cycles(k - 1));
      OneCycle(t);
      ActionsInTwo(h, Cycles(k - 1), [Told(OnClose), WaitExpires, RipeHandler]);
      hide Actions, Delay;
    }
  }

  /** What one more failure does: a wait of that delay, or the end of the retrying. */
  predicate Waits(t: Helper, delay: int) {
    t.should && t.pending && t.waitLive && t.delay == delay
  }

  predicate HasGivenUp(t: Helper) {
    !t.should && !WaitOutstanding(t)
  }

  /**
   With a limit of m, 0 to 1000000: in every state between two attempts that any run leads to, a
   successful connect, or a re-arm, restores all of them. Each of the next m failures is answered by a
   wait, the k-th after k others of min(base * 2^k, 30000) ms, and by a connect when it ends; the
   failure after them gives up.
   */
  lemma SuccessRestoresTheAttempts(m: nat, base: int, acts: seq<Action>, a: Action, k: nat)
    requires k <= m <= 1_000_000
    requires var h := Actions(Started(m, base), acts);
      Idle(h) && (a == Told(OnConnect(true)) || (a == RearmPost && h.claims > 0))
    ensures var h := Actions(Started(m, base), acts);
      var t := Actions(Act(h, a), Cycles(k));
      && Idle(t) && t.connects == h.connects + k
      && (k < m ==> Waits(Act(t, Told(OnClose)), Min((if base < 0 then 0 else base) * Pow2(k), 30_000)))
      && (k == m ==> HasGivenUp(Act(t, Told(OnClose))))
  {
    var start := Started(m, base);
    ActionsKeepConsistent(start, acts);
    BaseStays(start, acts);
    var h := Act(Actions(start, acts), a);
    hide Actions, Pow2;
    CyclesRun(h, k);
    DelayIs(start.baseDelay, k);
  }

  lemma {:induction false} BaseStays(h: Helper, acts: seq<Action>)
    ensures Actions(h, acts).baseDelay == h.baseDelay
    decreases |acts|
  {
    hide Delay;
    if acts != [] {
      BaseStays(Act(h, acts[0]), acts[1..]);
    }
  }

  // ------------------------------------------------------------ one wait at a time

  /** The flag says exactly whether the one wait is outstanding, and no cancelled wait has yet to report. */
  predicate Synced(h: Helper) {
    && (h.pending <==> WaitOutstanding(h))
    && h.ripe <= (if h.waitLive then 0 else 1)
    && h.aborted == 0
  }

  /** A re-arm task that finds a wait outstanding: a failure was reported between the call and its task. */
  predicate Races(h: Helper, a: Action) {
    a == RearmTask && h.tasks > 0 && h.should && WaitOutstanding(h)
  }

  /**
   Every step keeps the flag and the wait in step with each other, except exactly the re-arm task that
   overtakes a wait: it clears the flag now, and the cancelled wait clears it once more later.
   */
  lemma SyncLostIff(h: Helper, a: Action)
    requires Synced(h) && !h.stopped && a != Stop
    ensures Synced(Act(h, a)) <==> !Races(h, a)
  {
  }

  /** No step of the sequence is such a re-arm task. */
  predicate NoRace(h: Helper, acts: seq<Action>)
    decreases |acts|
  {
    acts == [] || (!Races(h, acts[0]) && NoRace(Act(h, acts[0]), acts[1..]))
  }

  /** The flag and the wait agree before and after every step of the sequence. */
  predicate SyncedThroughout(h: Helper, acts: seq<Action>)
    decreases |acts|
  {
    Synced(h) && (acts == [] || SyncedThroughout(Act(h, acts[0]), acts[1..]))
  }

  lemma {:induction false} SyncedUntilARace(h: Helper, acts: seq<Action>)
    requires Synced(h) && !h.stopped && Stop !in acts
    ensures SyncedThroughout(h, acts) <==> NoRace(h, acts)
    decreases |acts|
  {
    if acts != [] {
      SyncLostIff(h, acts[0]);
      OnlyStopStops(h, acts[0]);
      hide Synced, Races, Act;
      if !Races(h, acts[0]) {
        SyncedUntilARace(Act(h, acts[0]), acts[1..]);
      }
    }
  }

  lemma OnlyStopStops(h: Helper, a: Action)
    requires !h.stopped && a != Stop
    ensures !Act(h, a).stopped
  {
    hide Delay;
  }

  /**
   One wait at a time, over whole runs from start() to stop(): reconnect_pending_ says exactly whether
   the one backoff wait is outstanding, in every state, if and only if no re-arm task of the run
   overtakes a wait.
   */
  lemma FlagIsTheWaitIffNoRace(maxAttempts: int, baseDelay: int, acts: seq<Action>)
    requires Stop !in acts
    ensures var start := Started(maxAttempts, baseDelay);
      SyncedThroughout(start, acts) <==> NoRace(start, acts)
  {
    SyncedUntilARace(Started(maxAttempts, baseDelay), acts);
  }

  // ------------------------------------------------------------ one failure, one attempt

  /** What may happen between a failure and its retry: more reports of it, and the end of the wait. */
  predicate During(a: Action) {
    a == WaitExpires || (a.Told? && a.signal != OnConnect(true))
  }

  predicate Ready(h: Helper) {
    h.should && !h.stopped && Synced(h) && !WaitOutstanding(h) && !Exhausted(h)
  }

  lemma {:induction false} ActionsInTwo(h: Helper, a: seq<Action>, b: seq<Action>)
    ensures Actions(h, a + b) == Actions(Actions(h, a), b)
    decreases |a|
  {
    hide Act;
    if a == [] {
      assert a + b == b;
    } else {
      assert (a + b)[1..] == a[1..] + b;
      ActionsInTwo(Act(h, a[0]), a[1..], b);
    }
  }

  /** Reports that find a wait announced change nothing; the wait itself may expire once. */
  lemma {:induction false} ReportsAreAbsorbed(w: Helper, acts: seq<Action>)
    requires w.pending && w.should && !w.stopped && (forall a <- acts :: During(a))
    ensures Actions(w, acts) == w
         || (w.waitLive && Actions(w, acts) == w.(waitLive := false, ripe := w.ripe + 1))
    decreases |acts|
  {
    hide Delay;
    if acts != [] {
      assert During(acts[0]);
      ReportsAreAbsorbed(Act(w, acts[0]), acts[1..]);
    }
  }

  /**
   Any number of reports of one failure, in any mixture and before or after the wait expires, arm one
   wait and cost one attempt, and one connect follows; then the helper is where it was, one attempt on.
   */
  lemma ReportsCostOneAttempt(h: Helper, acts: seq<Action>)
    requires Ready(h) && acts != [] && acts[0].Told? && (forall a <- acts :: During(a))
    ensures var t := Actions(h, acts + [WaitExpires, RipeHandler]);
      && t.waits == h.waits + 1 && t.connects == h.connects + 1
      && t.attempts == (if h.attempts < SATURATION then h.attempts + 1 else h.attempts)
      && t.delay == Delay(h.maxAttempts, h.baseDelay, h.attempts)
      && t.should && !WaitOutstanding(t) && Synced(t)
      && t == h.(waits := t.waits, connects := t.connects, attempts := t.attempts, delay := t.delay)
  {
    hide Delay;
    assert During(acts[0]);
    var w := Act(h, acts[0]);
    ReportsAreAbsorbed(w, acts[1..]);
    var u := Actions(h, acts);
    ActionsInTwo(h, acts, [WaitExpires, RipeHandler]);
    RetryFollows(u);
  }

  lemma RetryFollows(u: Helper)
    requires u.should && !u.stopped && u.pending
    requires (u.waitLive && u.ripe == 0) || (!u.waitLive && u.ripe == 1)
    ensures Actions(u, [WaitExpires, RipeHandler])
      == u.(waitLive := false, ripe := 0, pending := false, connects := u.connects + 1)
  {
    hide Delay;
    var acts := [WaitExpires, RipeHandler];
    assert acts[1..] == [RipeHandler] && |acts[1..][1..]| == 0;
    assert Actions(u, acts) == Act(Act(u, WaitExpires), RipeHandler);
  }

  /** A wait is live, the flag denies it, and one more failure report costs one more attempt. */
  predicate Denied(h: Helper) {
    && h.waitLive && !h.pending
    && (Act(h, Told(OnClose)).waits == h.waits + 1 || GivesUp(h, OnClose))
  }

  // ------------------------------------------------------------ the object

  /** The helper: its flags and counters, and the timer and tasks it has outstanding. */
  class ReconnectHelper {
    var maxAttempts: int
    var baseDelay: nat
    var shouldReconnect: bool
    var userStopped: bool
    var reconnectPending: bool
    var attempts: nat
    var waitLive: bool
    var ripe: nat
    var aborted: nat
    var claims: nat
    var tasks: nat
    var waits: nat
    var delay: nat
    var connects: nat

    function Abs(): Helper
      reads this
    {
      Helper(maxAttempts, baseDelay, shouldReconnect, userStopped, reconnectPending, attempts, waitLive, ripe, aborted,
             claims, tasks, waits, delay, connects)
    }

    constructor (max: int, base: int)
      ensures Abs() == Started(max, base)
    {
      maxAttempts := if max < UNLIMITED then 0 else max;
      baseDelay := if base < 0 then 0 else base;
      shouldReconnect, userStopped, reconnectPending, attempts := true, false, false, 0;
      waitLive, ripe, aborted, claims, tasks := false, 0, 0, 0, 0;
      waits, delay, connects := 0, 0, 1;
    }

    method CancelTimer()
      modifies this`waitLive, this`aborted
      ensures Abs() == CancelWait(old(Abs()))
    {
      if waitLive {
        waitLive := false;
        aborted := aborted + 1;
      }
    }

    method Reconnect()
      modifies this
      ensures Abs() == DoReconnect(old(Abs()))
    {
      hide Pow2;
      if !shouldReconnect || userStopped {
        return;
      }
      if reconnectPending {
        return;
      }
      reconnectPending := true;
      if maxAttempts != UNLIMITED && attempts >= maxAttempts {
        shouldReconnect := false;
        reconnectPending := false;
        return;
      }
      if maxAttempts == UNLIMITED {
        delay := baseDelay;
      } else {
        var shift := Min(attempts, MAX_SHIFT);
        var grown := baseDelay * Pow2(shift);
        delay := Min(grown, MAX_DELAY);
      }
      if attempts < SATURATION {
        attempts := attempts + 1;
      }
      CancelTimer();
      waitLive := true;
      waits := waits + 1;
    }

    method OnClosed()
      modifies this
      ensures Abs() == Act(old(Abs()), Told(OnClose))
    {
      if shouldReconnect && !userStopped {
        Reconnect();
      }
    }

    method OnConnected(success: bool)
      modifies this
      ensures Abs() == Act(old(Abs()), Told(OnConnect(success)))
    {
      if !success {
        Reconnect();
        return;
      }
      attempts := 0;
      waits := 0;
    }

    /** The handler of a wait that was cancelled or replaced (`ok` false), or that expired. */
    method OnWaitCompleted(ok: bool)
      requires if ok then ripe > 0 else aborted > 0
      modifies this
      ensures Abs() == Act(old(Abs()), if ok then RipeHandler else AbortedHandler)
    {
      reconnectPending := false;
      if !ok {
        aborted := aborted - 1;
        return;
      }
      ripe := ripe - 1;
      if shouldReconnect && !userStopped {
        connects := connects + 1;
      }
    }

    /** The first half of rearm_reconnect(): the compare-and-exchange. */
    method ClaimRearm() returns (armed: bool)
      modifies this
      ensures Abs() == Act(old(Abs()), RearmClaim)
      ensures armed == !old(userStopped)
    {
      if userStopped {
        return false;
      }
      if !shouldReconnect {
        shouldReconnect := true;
        claims := claims + 1;
      }
      armed := true;
    }

    /** The second half: the counter is reset and the task is posted. */
    method PostRearm()
      requires claims > 0
      modifies this
      ensures Abs() == Act(old(Abs()), RearmPost)
    {
      attempts := 0;
      waits := 0;
      claims := claims - 1;
      tasks := tasks + 1;
    }

    method OnRearmTask()
      requires tasks > 0
      modifies this
      ensures Abs() == Act(old(Abs()), RearmTask)
    {
      tasks := tasks - 1;
      if !shouldReconnect || userStopped {
        return;
      }
      CancelTimer();
      reconnectPending := false;
      connects := connects + 1;
    }

    method StopReconnecting()
      modifies this
      ensures Abs() == Act(old(Abs()), Stop)
    {
      userStopped := true;
      shouldReconnect := false;
      CancelTimer();
      reconnectPending := false;
    }

    /** One action, of the io thread or of the application. A handler runs only if its wait or task exists. */
    method Perform(a: Action)
      modifies this
      ensures Abs() == Act(old(Abs()), a)
    {
      hide Delay;
      match a {
        case Told(g) =>
          match g {
            case OnClose => OnClosed();
            case OnConnect(ok) => OnConnected(ok);
          }
        case WaitExpires =>
          if waitLive {
            waitLive := false;
            ripe := ripe + 1;
          }
        case RipeHandler =>
          if ripe > 0 {
            OnWaitCompleted(true);
          }
        case AbortedHandler =>
          if aborted > 0 {
            OnWaitCompleted(false);
          }
        case RearmClaim =>
          var _ := ClaimRearm();
        case RearmPost =>
          if claims > 0 {
            PostRearm();
          }
        case RearmTask =>
          if tasks > 0 {
            OnRearmTask();
          }
        case Stop => StopReconnecting();
      }
    }
  }

  /** The life of a helper: the limit holds after any actions whatever. */
  method Serve(max: int, base: int, acts: seq<Action>) returns (helper: ReconnectHelper)
    ensures fresh(helper) && helper.Abs() == Actions(Started(max, base), acts)
    ensures 0 <= helper.maxAttempts <= SATURATION ==> helper.waits <= helper.maxAttempts
    ensures helper.reconnectPending ==> WaitOutstanding(helper.Abs())
  {
    hide Act;
    helper := new ReconnectHelper(max, base);
    ghost var start := helper.Abs();
    assert acts[..0] == [];
    for i := 0 to |acts|
      invariant fresh(helper) && helper.Abs() == Actions(start, acts[..i])
    {
      ActionsSnoc(start, acts[..i], acts[i]);
      assert acts[..i] + [acts[i]] == acts[..i + 1];
      helper.Perform(acts[i]);
    }
    assert acts[..|acts|] == acts;
    ActionsKeepConsistent(start, acts);
  }
}
