/**
 The client and the helper together. The helper's reconnect policy is driven by the callbacks of the
 session, and it begins the session's connects; between the two stand the operations that are under
 way: resolving and connecting, the CONNECT frame being written, the read, and the read handlers that
 are posted but have not run.

 The question is whether the helper can end up retrying in name only: told to reconnect, with nothing
 left that could ever make it do so.
 */
module Supervision {
  import opened Bytes
  import opened PacketIds
  import opened Session
  import opened Reconnect
  import E = Effects

  datatype System = System(
    h: Helper,
    s: State,
    tcp: nat,             // connects of the transport that have not completed
    connectsWritten: nat, // CONNECT frames whose write has completed
    reading: bool,        // reading_depth_ > 0: one read is under way
    posted: nat)          // read handlers that are posted and have not run

  datatype Happening =
    | AtClient(event: Event)             // a call, a write completion, a timer or a failure of the session
    | ResolveFails
    | TcpCompletes(ok: bool)
    | ConnectWritten(ok: bool)
    | ReadCompletes                      // the read posts its handler
    | ReadHandler(data: bytes, topics: seq<(bytes, byte)>)
    | ReadErrorHandler
    | AtHelper(action: Action)           // a wait, a cancelled wait, a re-arm or a stop

  /** The CONNECT frames that were queued and whose write has not completed. */
  function ConnectWrites(y: System): int {
    E.ConnectsIn(y.s.frames) - y.connectsWritten
  }

  /** start(): the first connect is begun before the io thread runs. */
  function Begun(maxAttempts: int, baseDelay: int): System {
    System(Started(maxAttempts, baseDelay), AsyncConnect(INITIAL), 1, 0, false, 0)
  }

  // ------------------------------------------------------------ the steps

  function Hear(h: Helper, gs: seq<Signal>): Helper
    decreases |gs|
  {
    if gs == [] then h else Hear(OnSignal(h, gs[0]), gs[1..])
  }

  /** The session moves on to `t`, and the helper hears what it says on the way. */
  function Moved(y: System, t: State): System
    requires |y.s.signals| <= |t.signals|
  {
    y.(s := t, h := Hear(y.h, t.signals[|y.s.signals|..]))
  }

  /** The events that need no operation to be under way. */
  predicate Own(e: Event) {
    !e.Packet? && !e.Connect? && !e.TcpResult? && !e.ResolveFailure?
  }

  /** The subscriptions that the helper restores when a connect succeeds. */
  function Resubscribe(s: State, topics: seq<(bytes, byte)>): (t: State)
    requires Sound(s)
    ensures Sound(t) && Says(s, t)
    ensures s.closed ==> t == s
    decreases |topics|
  {
    if topics == [] then s
    else
      StepIsSound(s, Subscribe(topics[0].0, topics[0].1, false));
      Resubscribe(AsyncSubscribe(s, topics[0].0, topics[0].1, false), topics[1..])
  }

  /** As far as the callbacks go, nothing happened, or the session ended. */
  predicate Says(s: State, t: State) {
    || (t.signals == s.signals && t.closed == s.closed)
    || (t.signals == s.signals + [OnClose] && t.closed)
  }

  /** The SUBSCRIBE of one topic. */
  predicate Asks(f: Frame, topic: (bytes, byte)) {
    f.SubscribeFrame? && f.topic == topic.0 && f.qos == topic.1
  }

  ghost predicate AsksForAll(frames: seq<Frame>, topics: seq<(bytes, byte)>) {
    |frames| == |topics| && forall i :: 0 <= i < |topics| ==> Asks(frames[i], topics[i])
  }

  /** Unless the ids run out, which closes the session, every topic is asked for again, in order, at its QoS. */
  lemma {:induction false} EveryTopicIsRestored(s: State, topics: seq<(bytes, byte)>)
    requires Sound(s) && (forall topic <- topics :: topic.1 <= 2) && !Resubscribe(s, topics).closed
    ensures s.frames <= Resubscribe(s, topics).frames
    ensures AsksForAll(Resubscribe(s, topics).frames[|s.frames|..], topics)
    decreases |topics|
  {
    if topics != [] {
      var e := Subscribe(topics[0].0, topics[0].1, false);
      StepIsSound(s, e);
      var t := Step(s, e);
      assert topics[0].1 <= 2 && !t.closed;
      SubscribeAsks(s, topics[0]);
      hide AsyncSubscribe, Asks, Sound;
      EveryTopicIsRestored(t, topics[1..]);
      var fs := Resubscribe(t, topics[1..]).frames;
      assert fs[|s.frames|] == t.frames[|s.frames|];
      assert fs[|s.frames|..][1..] == fs[|t.frames|..];
    }
  }

  lemma SubscribeAsks(s: State, topic: (bytes, byte))
    requires Sound(s) && topic.1 <= 2 && !s.closed
    ensures var t := AsyncSubscribe(s, topic.0, topic.1, false);
      !t.closed ==> |t.frames| == |s.frames| + 1 && s.frames <= t.frames && Asks(t.frames[|s.frames|], topic)
  {
    hide FirstFree, Used, Drain;
  }

  predicate Up(s: State, t: State) {
    t.signals == s.signals + [OnConnect(true)]
  }

  function Handled(s: State, data: bytes, topics: seq<(bytes, byte)>): State
    requires Sound(s)
  {
    var t := HandlePacket(s, data);
    StepIsSound(s, Packet(data));
    if Up(s, t) then Resubscribe(t, topics) else t
  }

  /** What a helper's step does to the session: at most it begins a connect. */
  function Helped(y: System, h: Helper): System {
    if h.connects > y.h.connects then y.(h := h, s := AsyncConnect(y.s), tcp := y.tcp + 1) else y.(h := h)
  }

  function Happen(y: System, m: Happening): System
    requires Sound(y.s)
  {
    match m
    case AtClient(e) =>
      StepSays(y.s, e);
      if Own(e) then Moved(y, Step(y.s, e)) else y
    case ResolveFails =>
      if y.tcp == 0 then y else Moved(y, ResolveFailed(y.s)).(tcp := y.tcp - 1)
    case TcpCompletes(ok) =>
      if y.tcp == 0 then y
      else Moved(y, TcpDone(y.s, ok)).(tcp := y.tcp - 1)
    case ConnectWritten(ok) =>
      if ConnectWrites(y) <= 0 then y
      else if ok then y.(connectsWritten := y.connectsWritten + 1, reading := true)
      else Moved(y, NotifyClosedOnce(y.s)).(connectsWritten := y.connectsWritten + 1)
    case ReadCompletes =>
      if !y.reading then y else y.(reading := false, posted := y.posted + 1)
    case ReadHandler(data, topics) =>
      if y.posted == 0 then y
      else Moved(y, Handled(y.s, data, topics)).(posted := y.posted - 1, reading := true)
    case ReadErrorHandler =>
      if y.posted == 0 then y else Moved(y, NotifyClosedOnce(y.s)).(posted := y.posted - 1)
    case AtHelper(a) =>
      if a.Told? then y else Helped(y, Act(y.h, a))
  }

  // ------------------------------------------------------------ what a session says

  /** Whatever happens, a session that becomes closed says so, at once and once. */
  lemma StepSays(s: State, e: Event)
    requires Sound(s)
    ensures Announced(s, Step(s, e))
  {
    hide AsyncPublish, AsyncSubscribe, NotifyClosedOnce, PublishWritten, PubrelWritten, SubscribeWritten, PublishTimer;
    hide PubrecTimer, HandlePacket;
    match e
    case Publish(c) => PublishSays(s, c);
    case Subscribe(topic, qos, hasCallback) => SubscribingSays(s, topic, qos, hasCallback);
    case _ =>
  }

  lemma SubscribingSays(s: State, topic: bytes, qos: byte, hasCallback: bool)
    requires Sound(s)
    ensures Says(s, AsyncSubscribe(s, topic, qos, hasCallback))
  {
  }

  lemma PublishSays(s: State, c: Call)
    requires Sound(s)
    ensures Says(s, AsyncPublish(s, c))
  {
    EnteringSays(s, c);
    hide EnterWindow;
  }

  lemma EnteringSays(s: State, c: Call)
    requires Sound(s)
    ensures Says(s, EnterWindow(s, c))
  {
  }

  // ------------------------------------------------------------ never silently dead

  /** An attempt or a session is under way, and its end will be reported. */
  predicate SessionAlive(y: System) {
    !y.s.closed && (y.tcp > 0 || ConnectWrites(y) > 0 || y.reading || y.posted > 0)
  }

  /** Something is outstanding that leads to the next connect. */
  predicate Alive(y: System) {
    WaitOutstanding(y.h) || y.h.claims > 0 || y.h.tasks > 0 || SessionAlive(y)
  }

  predicate Healthy(y: System) {
    && Sound(y.s)
    && Consistent(y.h)
    && (y.h.stopped ==> !y.h.should)
    && (y.h.should ==> Alive(y))
    && ConnectWrites(y) >= 0
  }

  predicate Fit(h: Helper) {
    Consistent(h) && (h.stopped ==> !h.should)
  }

  /** Hearing only ends the retrying; and a failure that does not end it leaves a wait outstanding. */
  lemma {:induction false} HearingLeavesAWait(h: Helper, gs: seq<Signal>)
    requires Fit(h)
    ensures var t := Hear(h, gs);
      && Fit(t) && t.claims == h.claims && t.tasks == h.tasks
      && (t.should ==> h.should)
      && (t.should && WaitOutstanding(h) ==> WaitOutstanding(t))
      && (t.should && Failing(gs) ==> WaitOutstanding(t))
    decreases |gs|
  {
    hide Pow2;
    if gs != [] {
      HearingLeavesAWait(OnSignal(h, gs[0]), gs[1..]);
      assert forall g :: g in gs ==> g == gs[0] || g in gs[1..];
    }
  }

  predicate Failing(gs: seq<Signal>) {
    exists g :: g in gs && g != OnConnect(true)
  }

  lemma FailureIsHeard(before: seq<Signal>, g: Signal)
    requires g != OnConnect(true)
    ensures Failing((before + [g])[|before|..])
  {
    assert g in (before + [g])[|before|..];
  }

  /** The moved system is healthy if it failed, or if something of the session is still under way. */
  lemma MovingKeepsHealthy(y: System, t: State, z: System)
    requires Healthy(y) && Sound(t) && |y.s.signals| <= |t.signals|
    requires z.h == Moved(y, t).h && z.s == t && ConnectWrites(z) >= 0
    requires
      || Failing(t.signals[|y.s.signals|..])
      || (SessionAlive(y) ==> SessionAlive(z))
    ensures Healthy(z)
  {
    HearingLeavesAWait(y.h, t.signals[|y.s.signals|..]);
    hide Hear, Sound, Consistent;
  }

  lemma HappeningKeepsHealthy(y: System, m: Happening)
    requires Healthy(y)
    ensures Healthy(Happen(y, m))
  {
    hide Step, Handled, NotifyClosedOnce, Hear, Act, Sound, Consistent;
    match m
    case AtClient(e) =>
      if Own(e) {
        OwnKeepsHealthy(y, e);
      }
    case ResolveFails => TransportKeepsHealthy(y, m);
    case TcpCompletes(ok) => TransportKeepsHealthy(y, m);
    case ConnectWritten(ok) =>
      if ConnectWrites(y) > 0 && !ok {
        ClosingKeepsHealthy(y, m, Happen(y, m));
      }
    case ReadCompletes =>
    case ReadHandler(data, topics) =>
      if y.posted > 0 {
        HandlingSays(y.s, data, topics);
        HandlingConnects(y.s, data, topics);
        MovingKeepsHealthy(y, Handled(y.s, data, topics), Happen(y, m));
      }
    case ReadErrorHandler =>
      if y.posted > 0 {
        ClosingKeepsHealthy(y, m, Happen(y, m));
      }
    case AtHelper(a) =>
      HelperKeepsHealthy(y, a);
  }

  lemma ClosingKeepsHealthy(y: System, m: Happening, z: System)
    requires Healthy(y) && z.h == Moved(y, NotifyClosedOnce(y.s)).h && z.s == NotifyClosedOnce(y.s)
    requires z.connectsWritten == y.connectsWritten + if ConnectWrites(y) > 0 && m.ConnectWritten? then 1 else 0
    ensures Healthy(z)
  {
    FailureIsHeard(y.s.signals, OnClose);
    assert NotifyClosedOnce(y.s).frames == y.s.frames;
    hide Consistent, Hear, E.ConnectsIn;
    MovingKeepsHealthy(y, NotifyClosedOnce(y.s), z);
  }

  lemma TransportKeepsHealthy(y: System, m: Happening)
    requires Healthy(y) && (m.ResolveFails? || m.TcpCompletes?)
    ensures Healthy(Happen(y, m))
  {
    FailureIsHeard(y.s.signals, OnConnect(false));
    hide Consistent, Hear;
    if y.tcp > 0 {
      MovingKeepsHealthy(y, if m.ResolveFails? then ResolveFailed(y.s) else TcpDone(y.s, m.ok), Happen(y, m));
    }
  }

  lemma HelperKeepsHealthy(y: System, a: Action)
    requires Healthy(y)
    ensures Healthy(Happen(y, AtHelper(a)))
  {
    ActKeepsConsistent(y.h, a);
    hide Consistent, Delay;
  }

  lemma OwnKeepsHealthy(y: System, e: Event)
    requires Healthy(y) && Own(e)
    ensures Healthy(Happen(y, AtClient(e)))
  {
    FailureIsHeard(y.s.signals, OnClose);
    FailureIsHeard(y.s.signals, OnConnect(false));
    StepSays(y.s, e);
    StepIsSound(y.s, e);
    E.StepConnects(y.s, e);
    hide Step, E.ConnectsIn, Hear, Consistent, Sound;
    MovingKeepsHealthy(y, Step(y.s, e), Happen(y, AtClient(e)));
  }

  lemma {:induction false} RestoringConnects(s: State, topics: seq<(bytes, byte)>)
    requires Sound(s)
    ensures E.ConnectsIn(Resubscribe(s, topics).frames) == E.ConnectsIn(s.frames)
    decreases |topics|
  {
    if topics != [] {
      var e := Subscribe(topics[0].0, topics[0].1, false);
      StepIsSound(s, e);
      E.StepConnects(s, e);
      hide AsyncSubscribe, E.ConnectsIn, Sound;
      RestoringConnects(Step(s, e), topics[1..]);
    }
  }

  lemma HandlingConnects(s: State, data: bytes, topics: seq<(bytes, byte)>)
    requires Sound(s)
    ensures E.ConnectsIn(Handled(s, data, topics).frames) == E.ConnectsIn(s.frames)
  {
    PacketConnects(s, data);
    hide HandlePacket, E.ConnectsIn, Sound, Resubscribe, Up;
    RestoringConnects(HandlePacket(s, data), topics);
  }

  lemma PacketConnects(s: State, data: bytes)
    requires Sound(s)
    ensures var t := HandlePacket(s, data); Sound(t) && E.ConnectsIn(t.frames) == E.ConnectsIn(s.frames)
  {
    StepIsSound(s, Packet(data));
    E.StepConnects(s, Packet(data));
    hide HandlePacket, E.ConnectsIn, Sound;
  }

  lemma HandlingSays(s: State, data: bytes, topics: seq<(bytes, byte)>)
    requires Sound(s)
    ensures var t := Handled(s, data, topics);
      && Sound(t) && |t.signals| >= |s.signals|
      && (!t.closed || Failing(t.signals[|s.signals|..]) || (s.closed && t.signals == s.signals))
  {
    FailureIsHeard(s.signals, OnClose);
    FailureIsHeard(s.signals, OnConnect(false));
    var u := HandlePacket(s, data);
    FailureIsHeard(u.signals, OnClose);
    StepIsSound(s, Packet(data));
    hide HandlePacket;
    var t := Handled(s, data, topics);
    if Up(s, u) && t.closed {
      assert t.signals == u.signals + [OnClose];
      assert OnClose in t.signals[|s.signals|..];
    }
  }

  // ------------------------------------------------------------ over whole runs

  function Life(y: System, ms: seq<Happening>): (z: System)
    requires Sound(y.s)
    ensures Sound(z.s)
    decreases |ms|
  {
    if ms == [] then y
    else
      HappeningIsSound(y, ms[0]);
      Life(Happen(y, ms[0]), ms[1..])
  }

  lemma HappeningIsSound(y: System, m: Happening)
    requires Sound(y.s)
    ensures Sound(Happen(y, m).s)
  {
    match m
    case AtClient(e) => StepIsSound(y.s, e);
    case _ =>
  }

  lemma {:induction false} LifeKeepsHealthy(y: System, ms: seq<Happening>)
    requires Healthy(y)
    ensures Healthy(Life(y, ms))
    decreases |ms|
  {
    hide Happen;
    if ms != [] {
      HappeningIsSound(y, ms[0]);
      HappeningKeepsHealthy(y, ms[0]);
      LifeKeepsHealthy(Happen(y, ms[0]), ms[1..]);
    }
  }

  /**
   The helper is never silently dead: as long as it says that it will reconnect, a backoff wait is
   outstanding, a re-arm is under way, or a connect attempt or session is, whose end it will hear of.
   This holds after every run of calls, packets, completions, failures, stale timers and re-arms.
   */
  lemma NeverSilentlyDead(maxAttempts: int, baseDelay: int, ms: seq<Happening>)
    ensures var y := Life(Begun(maxAttempts, baseDelay), ms); y.h.should ==> Alive(y)
  {
    LifeKeepsHealthy(Begun(maxAttempts, baseDelay), ms);
  }

  // ------------------------------------------------------------ and always about to retry

  /** The completion that comes next, if everything that can fail does. */
  function Due(y: System): Happening {
    if y.h.ripe > 0 then AtHelper(RipeHandler)
    else if y.h.waitLive then AtHelper(WaitExpires)
    else if y.h.tasks > 0 then AtHelper(RearmTask)
    else if y.h.claims > 0 then AtHelper(RearmPost)
    else if y.tcp > 0 then TcpCompletes(false)
    else if ConnectWrites(y) > 0 then ConnectWritten(false)
    else if y.posted > 0 then ReadErrorHandler
    else ReadCompletes
  }

  function Rank(y: System): nat {
    if y.h.ripe > 0 then 1
    else if y.h.waitLive then 2
    else if y.h.tasks > 0 then 1
    else if y.h.claims > 0 then 2
    else if y.tcp > 0 || ConnectWrites(y) > 0 || y.posted > 0 then 3
    else 4
  }

  /** Only what is under way completes: nobody calls anything, and no timer of the session fires. */
  predicate Completes(m: Happening) {
    match m
    case TcpCompletes(ok) => !ok
    case ConnectWritten(ok) => !ok
    case AtHelper(a) => a in {RipeHandler, WaitExpires, RearmTask, RearmPost}
    case _ => m == ReadCompletes || m == ReadErrorHandler
  }

  predicate Retried(y: System, z: System) {
    z.h.connects > y.h.connects || !z.h.should
  }

  lemma DueLeadsOn(y: System)
    requires Healthy(y) && y.h.should
    ensures var z := Happen(y, Due(y)); Retried(y, z) || (z.h.connects == y.h.connects && Rank(z) < Rank(y))
  {
    if !WaitOutstanding(y.h) && y.h.tasks == 0 && y.h.claims == 0 {
      FailureIsDue(y);
    } else {
      hide Consistent, NotifyClosedOnce, TcpDone, Sound;
    }
  }

  lemma FailureIsDue(y: System)
    requires Healthy(y) && y.h.should && SessionAlive(y)
    requires !WaitOutstanding(y.h) && y.h.tasks == 0 && y.h.claims == 0
    ensures var z := Happen(y, Due(y)); !z.h.should || (z.h.connects == y.h.connects && Rank(z) < Rank(y))
  {
    HearOne(y.h, y.s.signals, OnClose);
    HearOne(y.h, y.s.signals, OnConnect(false));
    hide Delay, Sound, Hear;
  }

  lemma HearOne(h: Helper, before: seq<Signal>, g: Signal)
    ensures Hear(h, (before + [g])[|before|..]) == OnSignal(h, g)
  {
    assert (before + [g])[|before|..] == [g];
    assert [g][1..] == [];
  }

  /**
   From every state of every run in which the helper says that it will reconnect, at most four
   completions of what is already under way, all of them failures, bring the next connect, or the
   give-up that turns the answer to no.
   */
  lemma {:induction false} NextConnectIsUnderWay(y: System) returns (ms: seq<Happening>)
    requires Healthy(y) && y.h.should
    ensures |ms| <= Rank(y) <= 4 && (forall m :: m in ms ==> Completes(m))
    ensures Retried(y, Life(y, ms))
    decreases Rank(y)
  {
    var z := Happen(y, Due(y));
    HappeningKeepsHealthy(y, Due(y));
    DueLeadsOn(y);
    hide Happen, Healthy;
    if Retried(y, z) {
      ms := [Due(y)];
      assert ms[1..] == [];
    } else {
      var rest := NextConnectIsUnderWay(z);
      ms := [Due(y)] + rest;
      assert ms[1..] == rest;
    }
  }

  lemma RetryIsAlwaysUnderWay(maxAttempts: int, baseDelay: int, ms: seq<Happening>)
    ensures var y := Life(Begun(maxAttempts, baseDelay), ms);
      y.h.should ==> exists more :: |more| <= 4 && (forall m :: m in more ==> Completes(m)) && Retried(y, Life(y, more))
  {
    var y := Life(Begun(maxAttempts, baseDelay), ms);
    LifeKeepsHealthy(Begun(maxAttempts, baseDelay), ms);
    if y.h.should {
      var more := NextConnectIsUnderWay(y);
      assert |more| <= 4;
    }
  }

  // ------------------------------------------------------------ the race of a re-arm

  lemma {:induction false} LifeSnoc(y: System, ms: seq<Happening>, m: Happening)
    requires Sound(y.s)
    ensures Life(y, ms + [m]) == Happen(Life(y, ms), m)
    decreases |ms|
  {
    HappeningIsSound(y, if ms == [] then m else ms[0]);
    hide Happen, Sound;
    if ms == [] {
      assert |(ms + [m])[1..]| == 0;
    } else {
      assert (ms + [m])[1..] == ms[1..] + [m];
      LifeSnoc(Happen(y, ms[0]), ms[1..], m);
    }
  }

  /** Where the example is: what the helper and the transport have outstanding. */
  predicate At(y: System, h: Helper, closed: bool, tcp: nat) {
    y.h == h && y.s.closed == closed && y.tcp == tcp
  }

  /** One step of the example. */
  lemma Go(start: System, ms: seq<Happening>, m: Happening, h: Helper, closed: bool, tcp: nat)
    returns (longer: seq<Happening>)
    requires Sound(start.s) && At(Happen(Life(start, ms), m), h, closed, tcp)
    ensures At(Life(start, longer), h, closed, tcp)
  {
    longer := ms + [m];
    hide Happen, Sound, At, Life;
    LifeSnoc(start, ms, m);
  }

  lemma ExpiryGoes(y: System, tcp: nat)
    requires Sound(y.s) && !y.s.closed && y.tcp == tcp
    ensures At(Happen(y, AtClient(ConnectExpiry)), OnSignal(y.h, OnConnect(false)), true, tcp)
  {
    HearOne(y.h, y.s.signals, OnConnect(false));
    hide Hear, OnSignal;
  }

  lemma ResolveGoes(y: System)
    requires Sound(y.s) && !y.s.closed && y.tcp > 0
    ensures At(Happen(y, ResolveFails), OnSignal(y.h, OnConnect(false)), false, y.tcp - 1)
  {
    HearOne(y.h, y.s.signals, OnConnect(false));
    hide Hear, OnSignal;
  }

  lemma HelperGoes(y: System, a: Action)
    requires Sound(y.s) && !a.Told?
    ensures var h := Act(y.h, a);
      At(Happen(y, AtHelper(a)), h, h.connects <= y.h.connects && y.s.closed,
         y.tcp + if h.connects > y.h.connects then 1 else 0)
  {
    hide Act;
  }

  lemma TimesOut(start: System, ms: seq<Happening>, h: Helper, tcp: nat) returns (longer: seq<Happening>)
    requires Sound(start.s) && At(Life(start, ms), h, false, tcp)
    ensures At(Life(start, longer), OnSignal(h, OnConnect(false)), true, tcp)
  {
    hide Happen, OnSignal;
    ExpiryGoes(Life(start, ms), tcp);
    longer := Go(start, ms, AtClient(ConnectExpiry), OnSignal(h, OnConnect(false)), true, tcp);
  }

  lemma FailsToResolve(start: System, ms: seq<Happening>, h: Helper, tcp: nat) returns (longer: seq<Happening>)
    requires Sound(start.s) && At(Life(start, ms), h, false, tcp) && tcp > 0
    ensures At(Life(start, longer), OnSignal(h, OnConnect(false)), false, tcp - 1)
  {
    hide Happen, OnSignal;
    ResolveGoes(Life(start, ms));
    longer := Go(start, ms, ResolveFails, OnSignal(h, OnConnect(false)), false, tcp - 1);
  }

  lemma Acts(start: System, ms: seq<Happening>, a: Action, h: Helper, closed: bool, tcp: nat)
    returns (longer: seq<Happening>)
    requires Sound(start.s) && At(Life(start, ms), h, closed, tcp) && !a.Told?
    ensures var t := Act(h, a);
      At(Life(start, longer), t, t.connects <= h.connects && closed, tcp + if t.connects > h.connects then 1 else 0)
  {
    hide Happen, Act;
    HelperGoes(Life(start, ms), a);
    var t := Act(h, a);
    longer := Go(start, ms, AtHelper(a), t, t.connects <= h.connects && closed,
                 tcp + if t.connects > h.connects then 1 else 0);
  }

  /**
   The race can happen. With a limit of two attempts: the first attempt times out with its connect still
   under way, two more fail to resolve and the helper gives up, one connect being under way still. The
   application re-arms it. Before the re-arm task runs, the timer of the last attempt, which its failure
   left running, reports it once more, and a wait is armed; the task cancels that wait and connects. Then
   a resolve fails, of the connect left over for one: it is taken for a failure of the new attempt, and
   another wait is armed. Now the handler of the cancelled wait runs and clears the flag of the live one.
   */
  lemma RearmRace(baseDelay: nat)
    ensures exists ms :: Denied(Life(Begun(2, baseDelay), ms).h)
  {
    hide Happen, Life, Delay, Denied;
    var start := Begun(2, baseDelay);
    var ms: seq<Happening> := [];
    var h := Started(2, baseDelay);
    assert At(Life(start, ms), h, false, 1) by {
      NothingHappened(start);
    }
    ms := TimesOut(start, ms, h, 1);
    h := OnSignal(h, OnConnect(false));
    ms := Retries(start, ms, h, true, 1);
    h := Act(Act(h, WaitExpires), RipeHandler);
    ms := FailsToResolve(start, ms, h, 2);
    h := OnSignal(h, OnConnect(false));
    ms := Retries(start, ms, h, false, 1);
    h := Act(Act(h, WaitExpires), RipeHandler);
    ms := FailsToResolve(start, ms, h, 2);
    h := OnSignal(h, OnConnect(false));
    assert !h.should;
    ms := Acts(start, ms, RearmClaim, h, false, 1);
    h := Act(h, RearmClaim);
    ms := Acts(start, ms, RearmPost, h, false, 1);
    h := Act(h, RearmPost);
    ms := TimesOut(start, ms, h, 1);
    h := OnSignal(h, OnConnect(false));
    ms := Acts(start, ms, RearmTask, h, true, 1);
    h := Act(h, RearmTask);
    ms := FailsToResolve(start, ms, h, 2);
    h := OnSignal(h, OnConnect(false));
    ms := Acts(start, ms, AbortedHandler, h, false, 1);
    h := Act(h, AbortedHandler);
    assert Denied(h) by {
      WaitIsDenied(h);
    }
    assert Denied(Life(start, ms).h);
  }

  lemma NothingHappened(y: System)
    requires Sound(y.s)
    ensures Life(y, []) == y
  {
  }

  lemma WaitIsDenied(h: Helper)
    requires h.waitLive && !h.pending && h.should && !h.stopped
    ensures Denied(h)
  {
    hide Delay;
  }

  /** The wait expires, and its handler connects. */
  lemma Retries(start: System, ms: seq<Happening>, h: Helper, closed: bool, tcp: nat) returns (longer: seq<Happening>)
    requires Sound(start.s) && At(Life(start, ms), h, closed, tcp)
    requires h.waitLive && h.should && !h.stopped
    ensures At(Life(start, longer), Act(Act(h, WaitExpires), RipeHandler), false, tcp + 1)
  {
    hide Happen, Life;
    longer := Acts(start, ms, WaitExpires, h, closed, tcp);
    longer := Acts(start, longer, RipeHandler, Act(h, WaitExpires), closed, tcp);
  }
}
