/**
 What a write handler is told. Success is told for a write that completed, and only then; every other
 way in which a handler runs tells it of a failure. Over an epoch of client and connection a QoS 0
 publish is reported as sent if and only if its own write completed.
 */
module Outcomes {
  import opened Session
  import opened Accounting
  import opened Epoch
  import C = Contract
  import W = WriteQueue

  // ------------------------------------------------------------ the handlers that an event runs

  function Failures(items: seq<W.Item>): seq<W.Ran> {
    seq(|items|, i requires 0 <= i < |items| => W.Ran(items[i], false))
  }

  /** The handler calls close(). */
  predicate Closing(r: W.Ran) {
    if r.ok then r.item.request.closesOnSuccess else r.item.request.closesOnError
  }

  function ByClosing(c: W.Conn): seq<W.Ran> {
    if c.closed then []
    else Failures(c.queue) + if c.inFlight.Busy? then [W.Ran(c.inFlight.item, false)] else []
  }

  /**
   The handlers that an event runs, in their order, with what they are told. A write that failed, or
   whose handler closes, takes the whole queue with it.
   */
  function HandlersRun(c: W.Conn, e: W.Event): seq<W.Ran> {
    match e
    case Completed(ok) =>
      if c.inFlight.Empty? then []
      else
        var first := W.Ran(c.inFlight.item, ok);
        [first] + if !ok || Closing(first) then Failures(c.queue) else []
    case DeferredTask => if c.deferred > 0 then Failures(c.queue) else []
    case RejectedTask =>
      if c.rejected == [] then []
      else
        var first := W.Ran(c.rejected[0], false);
        [first] + if Closing(first) then ByClosing(c) else []
    case CloseCall => ByClosing(c)
    case _ => []
  }

  lemma FailuresOfNone()
    ensures Failures([]) == []
  {
  }

  lemma FailuresFirst(items: seq<W.Item>)
    requires items != []
    ensures Failures(items) == [W.Ran(items[0], false)] + Failures(items[1..])
  {
  }

  lemma Regroup(a: seq<W.Ran>, b: seq<W.Ran>, c: seq<W.Ran>)
    ensures a + b + c == a + (b + c)
  {
  }

  /** Nothing queued or in flight: a close() runs no handler. */
  predicate Bare(c: W.Conn) {
    c.queue == [] && c.inFlight.Empty?
  }

  lemma CloseOfBare(c: W.Conn)
    requires Bare(c) || c.closed
    ensures W.Close(c).ran == c.ran && (Bare(c) ==> Bare(W.Close(c)))
  {
    if !c.closed {
      var shut := c.(closed := true, open := false, link := Disconnected, inFlight := W.Empty, writing := false);
      assert W.FailPending(shut) == W.FailAll(shut.(queue := [], writing := false), []);
    }
  }

  lemma HandlerOfBare(c: W.Conn, item: W.Item, ok: bool)
    requires Bare(c) || c.closed
    ensures var d := W.RunHandler(c, item, ok);
      && d.ran == c.ran + [W.Ran(item, ok)]
      && (Bare(c) ==> Bare(d)) && (d.closed <==> c.closed || Closing(W.Ran(item, ok)))
  {
    CloseOfBare(c.(ran := c.ran + [W.Ran(item, ok)]));
    hide W.Close;
  }

  lemma {:induction false} FailAllRuns(c: W.Conn, items: seq<W.Item>)
    requires Bare(c)
    ensures var d := W.FailAll(c, items); d.ran == c.ran + Failures(items) && Bare(d)
    ensures W.FailAll(c, items).closed <==> c.closed || exists r <- Failures(items) :: Closing(r)
    decreases |items|
  {
    hide W.RunHandler, Closing;
    if items == [] {
      FailuresOfNone();
      assert c.ran + [] == c.ran;
    } else {
      HandlerOfBare(c, items[0], false);
      var d := W.RunHandler(c, items[0], false);
      FailAllRuns(d, items[1..]);
      FailuresFirst(items);
      Regroup(c.ran, [W.Ran(items[0], false)], Failures(items[1..]));
      hide Failures;
    }
  }

  lemma FailPendingRuns(c: W.Conn)
    requires c.inFlight.Empty?
    ensures var d := W.FailPending(c); d.ran == c.ran + Failures(c.queue) && Bare(d)
    ensures W.FailPending(c).closed <==> c.closed || exists r <- Failures(c.queue) :: Closing(r)
  {
    FailAllRuns(c.(queue := [], writing := false), c.queue);
    hide W.FailAll, Failures, Closing;
  }

  lemma CloseRuns(c: W.Conn)
    ensures W.Close(c).ran == c.ran + ByClosing(c)
    ensures W.Close(c).closed
  {
    if c.closed {
      assert c.ran + [] == c.ran;
    } else {
      var shut := c.(closed := true, open := false, link := Disconnected, inFlight := W.Empty, writing := false);
      FailPendingRuns(shut);
      hide W.FailPending, Failures;
      var done := W.FailPending(shut);
      if c.inFlight.Busy? {
        HandlerOfBare(done, c.inFlight.item, false);
        hide W.RunHandler;
        Regroup(c.ran, Failures(c.queue), [W.Ran(c.inFlight.item, false)]);
      } else {
        assert Failures(c.queue) + [] == Failures(c.queue);
      }
    }
  }

  /** A handler in general: it runs, and then what its close() runs. */
  lemma HandlerRuns(c: W.Conn, item: W.Item, ok: bool)
    ensures var first := W.Ran(item, ok);
      W.RunHandler(c, item, ok).ran == c.ran + ([first] + if Closing(first) then ByClosing(c) else [])
    ensures W.RunHandler(c, item, ok).closed <==> c.closed || Closing(W.Ran(item, ok))
  {
    var first := W.Ran(item, ok);
    var noted := c.(ran := c.ran + [first]);
    CloseRuns(noted);
    hide W.Close, Failures;
    assert ByClosing(noted) == ByClosing(c);
    Regroup(c.ran, [first], ByClosing(c));
    assert [first] + [] == [first];
  }

  lemma CompletedRuns(c: W.Conn, ok: bool)
    requires W.Settled(c) && c.inFlight.Busy?
    ensures W.WriteDone(c, ok).ran == c.ran + HandlersRun(c, W.Completed(ok))
  {
    var first := W.Ran(c.inFlight.item, ok);
    var idle := c.(inFlight := W.Empty, writing := false);
    HandlerRuns(idle, c.inFlight.item, ok);
    var d := W.RunHandler(idle, c.inFlight.item, ok);
    ClosedIsBare(idle, d);
    hide W.RunHandler, W.Settled;
    assert !c.closed by {
      OpenWhileBusy(c);
    }
    assert ByClosing(idle) == Failures(c.queue) by {
      assert Failures(c.queue) + [] == Failures(c.queue);
    }
    if ok {
      DoWriteRuns(d);
      hide W.DoWrite;
    } else {
      FailPendingRuns(d.(open := false, link := Disconnected));
      hide W.FailPending;
      FailedRuns(c, idle, d, first);
    }
  }

  lemma OpenWhileBusy(c: W.Conn)
    requires W.Settled(c) && c.inFlight.Busy?
    ensures !c.closed && c.open
  {
  }

  lemma DoWriteRuns(c: W.Conn)
    ensures W.DoWrite(c).ran == c.ran && W.DoWrite(c).closed == c.closed && W.DoWrite(c).open == c.open
  {
  }

  /** What a handler leaves: the queue as it was, or a closed connection without one. */
  lemma ClosedIsBare(c: W.Conn, d: W.Conn)
    requires W.Onward(c, d)
    ensures c.inFlight.Empty? ==> d.inFlight.Empty?
    ensures d.closed && !c.closed ==> Bare(d)
    ensures (d.closed <==> c.closed) ==> d.queue == c.queue
  {
  }

  lemma FailedRuns(c: W.Conn, idle: W.Conn, d: W.Conn, first: W.Ran)
    requires idle.queue == c.queue && idle.ran == c.ran && !idle.closed
    requires d.ran == c.ran + ([first] + if Closing(first) then Failures(c.queue) else [])
    requires d.closed <==> Closing(first)
    requires d.closed ==> d.queue == []
    requires !d.closed ==> d.queue == c.queue
    ensures d.ran + Failures(d.queue) == c.ran + ([first] + Failures(c.queue))
  {
    FailuresOfNone();
    hide Failures, Closing;
    assert d.ran + [] == d.ran;
    assert [first] + [] == [first];
    Regroup(c.ran, [first], Failures(c.queue));
  }

  /** Exactly the handlers that an event runs, in their order, and exactly what each is told. */
  lemma StepRunsHandlers(c: W.Conn, e: W.Event)
    requires W.Settled(c)
    ensures W.Step(c, e).ran == c.ran + HandlersRun(c, e)
  {
    assert c.ran + [] == c.ran;
    hide W.WriteDone, W.RunHandler, W.FailPending, W.Close, Failures, Closing, ByClosing;
    match e
    case Completed(ok) => CompletionRuns(c, ok);
    case DeferredTask =>
      if c.deferred > 0 {
        FailPendingRuns(c.(deferred := c.deferred - 1));
      }
    case RejectedTask =>
      if c.rejected != [] {
        HandlerRuns(c.(rejected := c.rejected[1..]), c.rejected[0], false);
        assert ByClosing(c.(rejected := c.rejected[1..])) == ByClosing(c) by {
          SameClosing(c, c.(rejected := c.rejected[1..]));
        }
      }
    case CloseCall => CloseRuns(c);
    case Write(request) => EnqueueOnly(c, request);
    case Connack =>
  }

  lemma CompletionRuns(c: W.Conn, ok: bool)
    requires W.Settled(c)
    ensures W.WriteDone(c, ok).ran == c.ran + HandlersRun(c, W.Completed(ok))
  {
    if c.inFlight.Busy? {
      CompletedRuns(c, ok);
    } else {
      assert c.ran + [] == c.ran;
    }
    hide W.RunHandler, W.FailPending, Failures, Closing, W.DoWrite;
  }

  lemma SameClosing(c: W.Conn, d: W.Conn)
    requires d.closed == c.closed && d.queue == c.queue && d.inFlight == c.inFlight
    ensures ByClosing(d) == ByClosing(c)
  {
  }

  // ------------------------------------------------------------ who is told of success

  /** A write that completed without an error, and found its frame in flight. */
  predicate Succeeds(c: W.Conn, e: W.Event) {
    e == W.Completed(true) && c.inFlight.Busy?
  }

  /**
   Success is told by exactly this: a completion without an error that finds a frame in flight tells the
   handler of that frame, first of all; every other handler that runs, and every handler that any other
   event runs, is told of a failure.
   */
  lemma SuccessIsACompletedWrite(c: W.Conn, e: W.Event, i: nat)
    requires W.Settled(c) && |c.ran| <= i < |W.Step(c, e).ran|
    ensures W.Step(c, e).ran[i].ok <==> Succeeds(c, e) && i == |c.ran|
    ensures Succeeds(c, e) ==> W.Step(c, e).ran[|c.ran|] == W.Ran(c.inFlight.item, true)
  {
    StepRunsHandlers(c, e);
    hide W.Step, W.Settled;
    assert W.Step(c, e).ran[i] == HandlersRun(c, e)[i - |c.ran|];
  }

  // ------------------------------------------------------------ what closes the connection

  /** A write that failed. */
  predicate Fails(c: W.Conn, e: W.Event) {
    e == W.Completed(false) && c.inFlight.Busy?
  }

  /** close() is called, by the application or by a handler that runs. */
  ghost predicate Closes(c: W.Conn, e: W.Event) {
    e.CloseCall? || exists r <- HandlersRun(c, e) :: Closing(r)
  }

  ghost predicate LeftAs(c: W.Conn, d: W.Conn, closes: bool, fails: bool) {
    && (d.closed <==> c.closed || closes)
    && (d.open <==> c.open && !closes && !fails)
    && d.link == if (c.open && !d.open) || (!c.closed && d.closed) then Disconnected else c.link
  }

  lemma HandlerLeaves(c: W.Conn, item: W.Item, ok: bool)
    ensures LeftAs(c, W.RunHandler(c, item, ok), Closing(W.Ran(item, ok)) && !c.closed, false)
  {
    hide W.FailPending;
  }

  lemma SomeClosing(first: W.Ran, rest: seq<W.Ran>, all: seq<W.Ran>)
    requires all == [first] + rest
    ensures (exists r <- all :: Closing(r)) <==> Closing(first) || exists r <- rest :: Closing(r)
  {
    hide Closing;
    if exists r <- rest :: Closing(r) {
      var r :| r in rest && Closing(r);
      assert r in all;
    }
    assert first in all;
  }

  lemma FailPendingLeaves(c: W.Conn)
    requires c.inFlight.Empty? && !c.open
    ensures LeftAs(c, W.FailPending(c), exists r <- Failures(c.queue) :: Closing(r), false)
  {
    FailPendingRuns(c);
    hide W.FailAll, Failures, Closing;
  }

  lemma CompletedLeaves(c: W.Conn, ok: bool)
    requires W.Settled(c) && c.inFlight.Busy?
    ensures var e := W.Completed(ok); LeftAs(c, W.WriteDone(c, ok), Closes(c, e), Fails(c, e))
  {
    var first := W.Ran(c.inFlight.item, ok);
    var idle := c.(inFlight := W.Empty, writing := false);
    HandlerLeaves(idle, c.inFlight.item, ok);
    OpenWhileBusy(c);
    var d := W.RunHandler(idle, c.inFlight.item, ok);
    ClosedIsBare(idle, d);
    hide W.RunHandler, W.Settled, Failures, Closing;
    var rest := if !ok || Closing(first) then Failures(c.queue) else [];
    SomeClosing(first, rest, [first] + rest);
    if ok {
      DoWriteRuns(d);
      hide W.DoWrite;
    } else {
      FailPendingLeaves(d.(open := false, link := Disconnected));
      hide W.FailPending;
      FailuresOfNone();
    }
  }

  lemma RejectedLeaves(c: W.Conn)
    requires W.Settled(c) && c.rejected != []
    ensures LeftAs(c, W.RunRejected(c), Closes(c, W.RejectedTask), false)
  {
    var first := W.Ran(c.rejected[0], false);
    HandlerLeaves(c.(rejected := c.rejected[1..]), c.rejected[0], false);
    hide W.RunHandler, Closing, ByClosing;
    var rest := if Closing(first) then ByClosing(c) else [];
    SomeClosing(first, rest, [first] + rest);
  }

  lemma CloseLeaves(c: W.Conn)
    requires W.Settled(c)
    ensures LeftAs(c, W.Close(c), true, false)
  {
    hide W.FailPending, W.RunHandler;
  }

  lemma EnqueueLeaves(c: W.Conn, request: W.Request)
    ensures LeftAs(c, W.Enqueue(c, request), false, false)
  {
  }

  /**
   A connection becomes closed by close() alone, called from outside or by a handler that runs; its
   socket is given up, and its link down, with that, or when a write fails. The link comes up with an
   accepted CONNACK.
   */
  lemma StepLeaves(c: W.Conn, e: W.Event)
    requires W.Settled(c)
    ensures if e.Connack? then W.Step(c, e) == c.(link := Connected)
            else LeftAs(c, W.Step(c, e), Closes(c, e), Fails(c, e))
  {
    hide W.WriteDone, W.RunHandler, W.FailPending, W.Close, W.RunRejected, W.Enqueue, Failures, Closing, ByClosing;
    match e
    case Completed(ok) =>
      if c.inFlight.Busy? {
        CompletedLeaves(c, ok);
      } else {
        NothingCompletes(c, ok);
      }
    case DeferredTask =>
      if c.deferred > 0 {
        FailPendingLeaves(c.(deferred := c.deferred - 1));
      }
    case RejectedTask =>
      if c.rejected != [] {
        RejectedLeaves(c);
      } else {
        NothingRejected(c);
      }
    case CloseCall => CloseLeaves(c);
    case Write(request) => EnqueueLeaves(c, request);
    case Connack =>
  }

  lemma NothingCompletes(c: W.Conn, ok: bool)
    requires c.inFlight.Empty?
    ensures W.WriteDone(c, ok) == c
  {
  }

  lemma NothingRejected(c: W.Conn)
    requires c.rejected == []
    ensures W.RunRejected(c) == c
  {
  }

  // ------------------------------------------------------------ QoS 0: sent if and only if written

  /** A report of success for a call. */
  ghost predicate Confirmed(reports: seq<Report>, h: nat) {
    exists i :: 0 <= i < |reports| && reports[i].handle == h && reports[i].ok
  }

  /** The connection writes the frame of a QoS 0 call, without an error. */
  predicate Writes(j: Joint, m: Happening, h: nat) {
    && m == ConnectionStep(W.Completed(true)) && j.c.inFlight.Busy?
    && j.c.inFlight.item.index < |j.owners| && j.owners[j.c.inFlight.item.index] == Qos0(h)
  }

  /** Some happening of the epoch does. */
  predicate Written(j: Joint, ms: seq<Happening>, h: nat)
    requires Sound(j.s)
    decreases |ms|
  {
    ms != [] && (Writes(j, ms[0], h) || Written(Happen(j, ms[0]), ms[1..], h))
  }

  /** A call of QoS 1 or 2 is told apart from the calls looked at here. */
  predicate NotWindowed(calls: seq<Call>, h: nat) {
    h < |calls| ==> calls[h].qos == 0
  }

  lemma ConfirmedSnoc(reports: seq<Report>, r: Report, h: nat)
    ensures Confirmed(reports + [r], h) <==> Confirmed(reports, h) || (r.handle == h && r.ok)
  {
    var all := reports + [r];
    assert all[|reports|] == r;
    if Confirmed(reports, h) {
      var i :| 0 <= i < |reports| && reports[i].handle == h && reports[i].ok;
      assert all[i] == reports[i];
    }
  }

  /** A step of the client reports success for calls of its window only. */
  lemma ClientConfirmsNone(s: State, e: Event, h: nat)
    requires Sound(s) && Accounted(s) && !e.Qos0Write? && NotWindowed(s.calls, h)
    ensures Confirmed(Step(s, e).reports, h) <==> Confirmed(s.reports, h)
  {
    C.StepIsEarned(s, e);
    var t := Step(s, e);
    hide Step;
    if Confirmed(t.reports, h) {
      var i :| 0 <= i < |t.reports| && t.reports[i].handle == h && t.reports[i].ok;
      if i >= |s.reports| {
        EarnedInWindow(s, e, t.reports[i]);
      }
      assert t.reports[i] == s.reports[i];
    }
    if Confirmed(s.reports, h) {
      var i :| 0 <= i < |s.reports| && s.reports[i].handle == h && s.reports[i].ok;
      assert t.reports[i] == s.reports[i];
    }
  }

  lemma EarnedInWindow(s: State, e: Event, r: Report)
    requires Accounted(s) && C.Earned(s, e, r) && !e.Qos0Write?
    ensures !NotWindowed(s.calls, r.handle)
  {
    assert r.packetId in s.pubs;
  }

  /** The write handler of the call's frame runs, and hears of a success. */
  predicate Tells(owners: seq<Owner>, r: W.Ran, h: nat) {
    r.ok && r.item.index < |owners| && owners[r.item.index] == Qos0(h)
  }

  lemma {:induction false} HandlersConfirm(s: State, owners: seq<Owner>, ran: seq<W.Ran>, h: nat)
    requires Sound(s) && forall owner <- owners :: owner.Qos0? ==> owner.handle in s.qos0
    ensures Confirmed(RunHandlers(s, owners, ran).reports, h)
       <==> Confirmed(s.reports, h) || exists r <- ran :: Tells(owners, r, h)
    decreases |ran|
  {
    if ran != [] {
      var t := RunHandler(s, owners, ran[0]);
      HandlerConfirms(s, owners, ran[0], h);
      hide RunHandler, Confirmed, Tells, Sound;
      HandlersConfirm(t, owners, ran[1..], h);
      assert ran == [ran[0]] + ran[1..];
    }
  }

  lemma HandlerConfirms(s: State, owners: seq<Owner>, r: W.Ran, h: nat)
    requires Sound(s) && forall owner <- owners :: owner.Qos0? ==> owner.handle in s.qos0
    ensures var t := RunHandler(s, owners, r);
      && Sound(t) && t.qos0 == s.qos0
      && (Confirmed(t.reports, h) <==> Confirmed(s.reports, h) || Tells(owners, r, h))
  {
    var i := r.item.index;
    if i < |owners| && owners[i].Qos0? {
      var handle := owners[i].handle;
      assert owners[i] in owners;
      ConfirmedSnoc(s.reports, Report(handle, r.ok, s.calls[handle].topic, 0, 0), h);
    }
    hide Confirmed;
  }

  lemma ConnectionConfirms(first: nat, j: Joint, w: W.Event, h: nat)
    requires Whole(first, j) && !w.Write?
    ensures Confirmed(Happen(j, ConnectionStep(w)).s.reports, h)
       <==> Confirmed(j.s.reports, h) || Writes(j, ConnectionStep(w), h)
  {
    hide W.Step, RunHandlers, Confirmed, HandlersRun, Tells, Writes, Sound, Accounted, Linked;
    hide W.Settled, W.Conserved, W.Indexed;
    ConnectionRuns(j.c, w);
    var more := W.Step(j.c, w).ran[|j.c.ran|..];
    OwnersAreTaken(first, j);
    HandlersConfirm(j.s, j.owners, more, h);
    StepRunsHandlers(j.c, w);
    assert more == HandlersRun(j.c, w);
    TellingIsWriting(j, w, h);
  }

  lemma OwnersAreTaken(first: nat, j: Joint)
    requires Whole(first, j)
    ensures forall owner <- j.owners :: owner.Qos0? ==> owner.handle in j.s.qos0
    ensures W.Settled(j.c)
  {
    forall owner | owner in j.owners && owner.Qos0?
      ensures owner.handle in j.s.qos0
    {
      var i :| 0 <= i < |j.owners| && j.owners[i] == owner;
      assert j.owners[i].Qos0?;
    }
  }

  lemma TellingIsWriting(j: Joint, w: W.Event, h: nat)
    ensures (exists r <- HandlersRun(j.c, w) :: Tells(j.owners, r, h)) <==> Writes(j, ConnectionStep(w), h)
  {
    if Writes(j, ConnectionStep(w), h) {
      var r := W.Ran(j.c.inFlight.item, true);
      assert HandlersRun(j.c, w)[0] == r;
      assert Tells(j.owners, r, h);
    }
    if exists r <- HandlersRun(j.c, w) :: Tells(j.owners, r, h) {
      var r :| r in HandlersRun(j.c, w) && Tells(j.owners, r, h);
      assert r.ok;
    }
  }

  lemma HappeningConfirms(first: nat, j: Joint, m: Happening, h: nat)
    requires Whole(first, j) && NotWindowed(j.s.calls, h)
    ensures Confirmed(Happen(j, m).s.reports, h) <==> Confirmed(j.s.reports, h) || Writes(j, m, h)
  {
    match m
    case ClientStep(e, request) =>
      if !e.Qos0Write? {
        ClientConfirmsNone(j.s, e, h);
      }
      hide Confirmed, Step, Whole;
    case OtherWrite(request) =>
      hide Confirmed, Whole;
    case ConnectionStep(w) =>
      if !w.Write? {
        ConnectionConfirms(first, j, w, h);
      }
      hide Confirmed, Whole, W.Step, RunHandlers;
  }

  lemma HappeningKeepsCalls(first: nat, j: Joint, m: Happening)
    requires Whole(first, j)
    ensures j.s.calls <= Happen(j, m).s.calls
  {
    match m
    case ClientStep(e, request) =>
      if !e.Qos0Write? {
        StepHands(j.s, e);
      }
      hide Step, Whole, Accounted;
    case OtherWrite(request) =>
    case ConnectionStep(w) =>
      if !w.Write? {
        ConnectionRuns(j.c, w);
        HandlersLink(first, j.s, j.owners, j.c.ran, W.Step(j.c, w).ran[|j.c.ran|..]);
      }
      hide W.Step, RunHandlers;
  }

  lemma {:induction false} LifeKeepsCalls(first: nat, j: Joint, ms: seq<Happening>)
    requires Whole(first, j)
    ensures j.s.calls <= Life(j, ms).s.calls
    decreases |ms|
  {
    assert Sound(j.s);
    if ms != [] {
      HappeningKeepsWhole(first, j, ms[0]);
      HappeningKeepsCalls(first, j, ms[0]);
      hide Happen, Whole;
      LifeKeepsCalls(first, Happen(j, ms[0]), ms[1..]);
    }
  }

  lemma {:induction false} LifeConfirms(first: nat, j: Joint, ms: seq<Happening>, h: nat)
    requires Whole(first, j) && NotWindowed(Life(j, ms).s.calls, h)
    ensures Confirmed(Life(j, ms).s.reports, h) <==> Confirmed(j.s.reports, h) || Written(j, ms, h)
    decreases |ms|
  {
    assert Sound(j.s);
    LifeKeepsCalls(first, j, ms);
    hide Happen, Whole, Confirmed, Writes;
    if ms != [] {
      HappeningConfirms(first, j, ms[0], h);
      HappeningKeepsWhole(first, j, ms[0]);
      LifeConfirms(first, Happen(j, ms[0]), ms[1..], h);
    }
  }

  lemma NoReportYet(s: State, h: nat)
    requires Accounted(s) && h >= |s.calls|
    ensures !Confirmed(s.reports, h)
  {
  }

  /**
   What callback(true) means at QoS 0, after any run of the client, in every state of every epoch: a
   call of the epoch was reported as sent if and only if the write of its own frame completed without an
   error. A failed write, a close, a deferred failure and a rejection never report it so.
   */
  lemma Qos0SuccessIff(es: seq<Event>, ms: seq<Happening>, h: nat)
    requires IsQos0(Life(Begun(Reached(es)), ms), |Reached(es).calls|, h)
    ensures Confirmed(Life(Begun(Reached(es)), ms).s.reports, h) <==> Written(Begun(Reached(es)), ms, h)
  {
    RunKeepsAccounts(INITIAL, es);
    var s := Reached(es);
    BegunIsWhole(s);
    NoReportYet(s, h);
    LifeConfirms(|s.calls|, Begun(s), ms, h);
    hide Life, Whole, Written, Confirmed;
  }
}
