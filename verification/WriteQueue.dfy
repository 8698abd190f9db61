/**
 The writing half of the connection: frames are queued and written one at a time, and every completion
 handler runs once. A handler may call close() while the connection is in the middle of reporting.

 One epoch is modelled: from a connected socket with an empty queue and no deferred failure
 outstanding, up to the next connect.
 */
module WriteQueue {
  import opened Bytes
  import opened Framing
  import Session

  type Link = Session.Link

  /** A frame with its completion handler, which calls close() or does not, depending on the outcome. */
  datatype Request = Request(buffer: bytes, closesOnSuccess: bool, closesOnError: bool)

  /** A request that was handed over, as the index-th of its epoch: no two are the same. */
  datatype Item = Item(index: nat, request: Request)
  datatype Ran = Ran(item: Item, ok: bool)
  datatype Slot = Empty | Busy(item: Item)

  datatype Conn = Conn(
    closed: bool,
    open: bool,               // the socket
    link: Link,
    queue: seq<Item>,
    inFlight: Slot,
    writing: bool,
    deferred: nat,            // posted tasks that fail whatever is queued when they run
    rejected: seq<Item>,      // posted failures of frames that came after close()
    accepted: seq<Item>,      // every frame handed over, in order
    started: seq<Item>,       // every write begun, in order
    ran: seq<Ran>)            // every handler run, in order

  const EPOCH := Conn(false, true, Session.Handshaking, [], Empty, false, 0, [], [], [], [])

  // ------------------------------------------------------------ handlers that close

  function Rank(c: Conn): nat {
    if c.closed then 0 else 1
  }

  /** What running handlers cannot do: hand over or start a frame, reopen anything. */
  predicate Onward(c: Conn, d: Conn) {
    && d.accepted == c.accepted && d.started == c.started && d.rejected == c.rejected && d.deferred == c.deferred
    && (c.closed ==> d.closed) && (!c.open ==> !d.open)
    && (d == c.(ran := d.ran) || (!c.closed && Shut(d) && d.link.Disconnected?))
    && c.ran <= d.ran
  }

  predicate Shut(c: Conn) {
    c.closed && !c.open && c.queue == [] && c.inFlight.Empty? && !c.writing
  }

  function RunHandler(c: Conn, item: Item, ok: bool): (d: Conn)
    ensures Onward(c, d)
    decreases Rank(c), 1, 0
  {
    var noted := c.(ran := c.ran + [Ran(item, ok)]);
    if (if ok then item.request.closesOnSuccess else item.request.closesOnError) then Close(noted) else noted
  }

  function FailAll(c: Conn, items: seq<Item>): (d: Conn)
    ensures Onward(c, d)
    decreases Rank(c), 2, |items|
  {
    if items == [] then c else FailAll(RunHandler(c, items[0], false), items[1..])
  }

  function FailPending(c: Conn): (d: Conn)
    ensures Onward(c.(queue := [], writing := false), d)
    decreases Rank(c), 3, 0
  {
    FailAll(c.(queue := [], writing := false), c.queue)
  }

  /** Queued handlers hear of the failure first, the one in flight last. */
  function Close(c: Conn): (d: Conn)
    ensures Onward(c, d) && d.closed
    decreases Rank(c), 0, 0
  {
    if c.closed then c
    else
      var shut := FailPending(c.(closed := true, open := false, link := Session.Disconnected,
                                 inFlight := Empty, writing := false));
      if c.inFlight.Busy? then RunHandler(shut, c.inFlight.item, false) else shut
  }

  // ------------------------------------------------------------ the events of an epoch

  function DoWrite(c: Conn): Conn {
    if c.writing then c
    else if c.queue == [] then c
    else if !c.open || c.link in {Session.Disconnected, Session.Connecting} then c.(deferred := c.deferred + 1)
    else c.(writing := true, inFlight := Busy(c.queue[0]), queue := c.queue[1..], started := c.started + [c.queue[0]])
  }

  function Enqueue(c: Conn, request: Request): Conn {
    var item := Item(|c.accepted|, request);
    var d := c.(accepted := c.accepted + [item]);
    if c.closed then d.(rejected := d.rejected + [item])
    else
      var q := d.(queue := d.queue + [item]);
      if !q.writing then DoWrite(q) else q
  }

  /** The write in flight completed; after close() its completion finds nothing in flight. */
  function WriteDone(c: Conn, ok: bool): Conn {
    if c.inFlight.Empty? then c
    else
      var d := RunHandler(c.(inFlight := Empty, writing := false), c.inFlight.item, ok);
      if !ok then FailPending(d.(open := false, link := Session.Disconnected))
      else if !d.writing && d.queue != [] then DoWrite(d)
      else d
  }

  function RunDeferred(c: Conn): Conn {
    if c.deferred == 0 then c else FailPending(c.(deferred := c.deferred - 1))
  }

  function RunRejected(c: Conn): Conn {
    if c.rejected == [] then c else RunHandler(c.(rejected := c.rejected[1..]), c.rejected[0], false)
  }

  datatype Event = Write(request: Request) | Completed(ok: bool) | DeferredTask | RejectedTask | CloseCall | Connack

  function Step(c: Conn, e: Event): Conn {
    match e
    case Write(request) => Enqueue(c, request)
    case Completed(ok) => WriteDone(c, ok)
    case DeferredTask => RunDeferred(c)
    case RejectedTask => RunRejected(c)
    case CloseCall => Close(c)
    case Connack => c.(link := Session.Connected)
  }

  function Run(c: Conn, es: seq<Event>): Conn
    decreases |es|
  {
    if es == [] then c else Run(Step(c, es[0]), es[1..])
  }

  lemma {:induction false} RunSnoc(c: Conn, es: seq<Event>, e: Event)
    ensures Run(c, es + [e]) == Step(Run(c, es), e)
    decreases |es|
  {
    hide Step;
    if es == [] {
      assert |(es + [e])[1..]| == 0;
    } else {
      assert (es + [e])[1..] == es[1..] + [e];
      RunSnoc(Step(c, es[0]), es[1..], e);
    }
  }

  // ------------------------------------------------------------ conservation

  function Items(ran: seq<Ran>): seq<Item> {
    if ran == [] then [] else Items(ran[..|ran| - 1]) + [ran[|ran| - 1].item]
  }

  lemma ItemsSnoc(ran: seq<Ran>, r: Ran)
    ensures Items(ran + [r]) == Items(ran) + [r.item]
  {
    assert (ran + [r])[..|ran|] == ran;
  }

  function InFlight(c: Conn): multiset<Item> {
    if c.inFlight.Busy? then multiset{c.inFlight.item} else multiset{}
  }

  /** Where every frame of the epoch is: reported, in flight, queued, or waiting for its rejection. */
  function Whereabouts(c: Conn): multiset<Item> {
    multiset(Items(c.ran)) + InFlight(c) + multiset(c.queue) + multiset(c.rejected)
  }

  lemma {:induction false} HandlerConserves(c: Conn, item: Item, ok: bool)
    ensures Whereabouts(RunHandler(c, item, ok)) == Whereabouts(c) + multiset{item}
    decreases Rank(c), 1, 0
  {
    var noted := c.(ran := c.ran + [Ran(item, ok)]);
    NotedWhereabouts(c, item, ok);
    CloseConserves(noted);
    hide Close, Whereabouts;
  }

  lemma NotedWhereabouts(c: Conn, item: Item, ok: bool)
    ensures Whereabouts(c.(ran := c.ran + [Ran(item, ok)])) == Whereabouts(c) + multiset{item}
  {
    ItemsSnoc(c.ran, Ran(item, ok));
    hide Items;
  }

  lemma {:induction false} FailAllConserves(c: Conn, items: seq<Item>)
    ensures Whereabouts(FailAll(c, items)) == Whereabouts(c) + multiset(items)
    decreases Rank(c), 2, |items|
  {
    hide RunHandler, Whereabouts;
    if items != [] {
      HandlerConserves(c, items[0], false);
      FailAllConserves(RunHandler(c, items[0], false), items[1..]);
      assert items == [items[0]] + items[1..];
    }
  }

  lemma {:induction false} FailPendingConserves(c: Conn)
    ensures Whereabouts(FailPending(c)) == Whereabouts(c)
    decreases Rank(c), 3, 0
  {
    FailAllConserves(c.(queue := [], writing := false), c.queue);
    hide FailAll, Items;
  }

  lemma {:induction false} CloseConserves(c: Conn)
    ensures Whereabouts(Close(c)) == Whereabouts(c)
    decreases Rank(c), 0, 0
  {
    if !c.closed {
      var shut := c.(closed := true, open := false, link := Session.Disconnected, inFlight := Empty, writing := false);
      FailPendingConserves(shut);
      if c.inFlight.Busy? {
        HandlerConserves(FailPending(shut), c.inFlight.item, false);
      }
      hide FailPending, RunHandler, Items;
    }
  }

  // ------------------------------------------------------------ the invariant of an epoch

  ghost predicate Settled(c: Conn) {
    && (c.writing <==> c.inFlight.Busy?)
    && (c.closed ==> Shut(c))
    && (!c.open ==> c.inFlight.Empty?)
    && (c.deferred > 0 ==> !c.open)
    && (c.open ==> c.link in {Session.Handshaking, Session.Connected})
    && (c.open ==> c.accepted == c.started + c.queue)
    && c.started <= c.accepted
    && (c.queue != [] ==> c.writing || c.deferred > 0)
  }

  ghost predicate Conserved(c: Conn) {
    Whereabouts(c) == multiset(c.accepted)
  }

  lemma PutInQueue(c: Conn, item: Item)
    ensures Whereabouts(c.(queue := c.queue + [item])) == Whereabouts(c) + multiset{item}
  {
    hide Items;
  }

  lemma PutInRejected(c: Conn, item: Item)
    ensures Whereabouts(c.(rejected := c.rejected + [item])) == Whereabouts(c) + multiset{item}
  {
    hide Items;
  }

  lemma TakeFromRejected(c: Conn)
    requires c.rejected != []
    ensures Whereabouts(c.(rejected := c.rejected[1..])) + multiset{c.rejected[0]} == Whereabouts(c)
  {
    hide Items;
    assert c.rejected == [c.rejected[0]] + c.rejected[1..];
  }

  lemma TakeFromFlight(c: Conn)
    requires c.inFlight.Busy?
    ensures Whereabouts(c.(inFlight := Empty, writing := false)) + multiset{c.inFlight.item} == Whereabouts(c)
  {
    hide Items;
  }

  lemma SameWhereabouts(c: Conn, d: Conn)
    requires d.ran == c.ran && d.inFlight == c.inFlight && d.queue == c.queue && d.rejected == c.rejected
    ensures Whereabouts(d) == Whereabouts(c)
  {
  }

  lemma DoWriteConserves(c: Conn)
    requires c.inFlight.Empty?
    ensures Whereabouts(DoWrite(c)) == Whereabouts(c)
  {
    hide Items;
    if c.queue != [] {
      assert c.queue == [c.queue[0]] + c.queue[1..];
    }
  }

  lemma EnqueueConserves(c: Conn, request: Request)
    requires Settled(c) && Conserved(c)
    ensures Conserved(Enqueue(c, request))
  {
    hide Whereabouts, DoWrite;
    var item := Item(|c.accepted|, request);
    var d := c.(accepted := c.accepted + [item]);
    SameWhereabouts(c, d);
    PutInQueue(d, item);
    PutInRejected(d, item);
    if !c.writing {
      DoWriteConserves(d.(queue := d.queue + [item]));
    }
    DoWriteAccepts(d.(queue := d.queue + [item]));
    assert multiset(d.accepted) == multiset(c.accepted) + multiset{item};
  }

  lemma DoWriteAccepts(c: Conn)
    ensures DoWrite(c).accepted == c.accepted
  {
  }

  lemma EnqueueSettles(c: Conn, request: Request)
    requires Settled(c)
    ensures Settled(Enqueue(c, request))
  {
    var item := Item(|c.accepted|, request);
    if c.open {
      var queue := c.queue + [item];
      assert c.accepted + [item] == c.started + queue;
      if !c.writing {
        assert c.started + [queue[0]] + queue[1..] == c.started + queue;
      }
    }
  }

  lemma WriteDoneConserves(c: Conn, ok: bool)
    requires Conserved(c) && Settled(c)
    ensures Conserved(WriteDone(c, ok))
  {
    hide Whereabouts, RunHandler, FailPending, DoWrite, Settled;
    if c.inFlight.Busy? {
      var idle := c.(inFlight := Empty, writing := false);
      TakeFromFlight(c);
      HandlerConserves(idle, c.inFlight.item, ok);
      var d := RunHandler(idle, c.inFlight.item, ok);
      SameWhereabouts(d, d.(open := false, link := Session.Disconnected));
      FailPendingConserves(d.(open := false, link := Session.Disconnected));
      assert d.inFlight.Empty?;
      DoWriteConserves(d);
      DoWriteAccepts(d);
    }
  }

  lemma WriteDoneSettles(c: Conn, ok: bool)
    requires Settled(c)
    ensures Settled(WriteDone(c, ok))
  {
    hide RunHandler, FailPending;
    if c.inFlight.Busy? {
      var d := RunHandler(c.(inFlight := Empty, writing := false), c.inFlight.item, ok);
      if d.queue != [] {
        assert d.started + [d.queue[0]] + d.queue[1..] == d.started + d.queue;
      }
    }
  }

  lemma TasksConserve(c: Conn)
    requires Conserved(c)
    ensures Conserved(RunDeferred(c)) && Conserved(RunRejected(c)) && Conserved(Close(c))
  {
    hide Whereabouts, RunHandler, FailPending, Close;
    if c.deferred > 0 {
      SameWhereabouts(c, c.(deferred := c.deferred - 1));
      FailPendingConserves(c.(deferred := c.deferred - 1));
    }
    if c.rejected != [] {
      TakeFromRejected(c);
      HandlerConserves(c.(rejected := c.rejected[1..]), c.rejected[0], false);
    }
    CloseConserves(c);
  }

  lemma TasksSettle(c: Conn)
    requires Settled(c)
    ensures Settled(RunDeferred(c)) && Settled(RunRejected(c)) && Settled(Close(c))
  {
    hide RunHandler, FailPending, Close;
  }

  lemma StepSettles(c: Conn, e: Event)
    requires Settled(c) && Conserved(c)
    ensures Settled(Step(c, e)) && Conserved(Step(c, e))
  {
    hide Settled, Conserved, WriteDone, Enqueue, RunDeferred, RunRejected, Close;
    match e
    case Write(request) =>
      EnqueueConserves(c, request);
      EnqueueSettles(c, request);
    case Completed(ok) =>
      WriteDoneConserves(c, ok);
      WriteDoneSettles(c, ok);
    case Connack => ConnackSettles(c);
    case _ =>
      TasksConserve(c);
      TasksSettle(c);
  }

  lemma ConnackSettles(c: Conn)
    requires Settled(c) && Conserved(c)
    ensures Settled(c.(link := Session.Connected)) && Conserved(c.(link := Session.Connected))
  {
    hide Items;
  }

  lemma {:induction false} RunSettles(c: Conn, es: seq<Event>)
    requires Settled(c) && Conserved(c) && Indexed(c)
    ensures Settled(Run(c, es)) && Conserved(Run(c, es)) && Indexed(Run(c, es))
    decreases |es|
  {
    if es != [] {
      StepSettles(c, es[0]);
      StepIndexes(c, es[0]);
      hide Settled, Conserved, Indexed, Step;
      RunSettles(Step(c, es[0]), es[1..]);
    }
  }

  // ------------------------------------------------------------ each handler by itself

  /** How often the handler of the i-th frame has run. */
  function Invocations(ran: seq<Ran>, i: nat): nat {
    if ran == [] then 0
    else Invocations(ran[..|ran| - 1], i) + if ran[|ran| - 1].item.index == i then 1 else 0
  }

  /** The frames that were not reported yet: in flight, queued, or waiting for their rejection. */
  function Outstanding(c: Conn): multiset<Item> {
    InFlight(c) + multiset(c.queue) + multiset(c.rejected)
  }

  ghost predicate Indexed(c: Conn) {
    forall i :: 0 <= i < |c.accepted| ==> c.accepted[i].index == i
  }

  lemma StepIndexes(c: Conn, e: Event)
    requires Indexed(c)
    ensures Indexed(Step(c, e))
  {
    hide RunHandler, FailPending, Close;
  }

  lemma {:induction false} InvocationsAreItems(ran: seq<Ran>, item: Item)
    requires forall r <- ran :: r.item.index == item.index ==> r.item == item
    ensures Invocations(ran, item.index) == multiset(Items(ran))[item]
    decreases |ran|
  {
    if ran != [] {
      InvocationsAreItems(ran[..|ran| - 1], item);
    }
  }

  lemma {:induction false} RanIsListed(ran: seq<Ran>, r: Ran)
    requires r in ran
    ensures r.item in Items(ran)
    decreases |ran|
  {
    if r != ran[|ran| - 1] {
      RanIsListed(ran[..|ran| - 1], r);
    }
  }

  /** With an index each, frames are told apart even if their octets and handlers are alike. */
  lemma IndexedCounts(c: Conn, i: nat)
    requires Indexed(c) && Conserved(c) && i < |c.accepted|
    ensures Invocations(c.ran, i) + Outstanding(c)[c.accepted[i]] == 1
  {
    var item := c.accepted[i];
    forall r | r in c.ran && r.item.index == i
      ensures r.item == item
    {
      RanIsListed(c.ran, r);
      assert r.item in Whereabouts(c);
      assert r.item in c.accepted;
    }
    InvocationsAreItems(c.ran, item);
    hide Items, Outstanding, Invocations;
    Distinct(c.accepted, i);
    assert Whereabouts(c)[item] == multiset(Items(c.ran))[item] + Outstanding(c)[item] by {
      assert Whereabouts(c) == multiset(Items(c.ran)) + Outstanding(c) by {
        WhereaboutsSplit(c);
      }
    }
  }

  lemma WhereaboutsSplit(c: Conn)
    ensures Whereabouts(c) == multiset(Items(c.ran)) + Outstanding(c)
  {
    hide Items;
  }

  lemma Distinct(items: seq<Item>, i: nat)
    requires i < |items| && forall j :: 0 <= j < |items| ==> items[j].index == j
    ensures multiset(items)[items[i]] == 1
  {
    assert items == items[..i] + [items[i]] + items[i + 1..];
    assert items[i] !in items[..i] && items[i] !in items[i + 1..];
  }

  /**
   Conservation, in every state of an epoch, for each frame handed over: its handler has run exactly
   once, or not at all and the frame is in flight, queued or waiting for its rejection, in one place
   only. Once the connection is closed and the posted rejections have run, each handler has run exactly
   once, also if it was a handler that closed the connection.
   */
  lemma EveryHandlerRunsOnce(es: seq<Event>, i: nat)
    requires i < |Run(EPOCH, es).accepted|
    ensures var c := Run(EPOCH, es);
      && Invocations(c.ran, i) + Outstanding(c)[c.accepted[i]] == 1
      && (c.closed && c.rejected == [] ==> Invocations(c.ran, i) == 1)
  {
    EpochStarts();
    RunSettles(EPOCH, es);
    var c := Run(EPOCH, es);
    IndexedCounts(c, i);
  }

  lemma EpochStarts()
    ensures Settled(EPOCH) && Conserved(EPOCH) && Indexed(EPOCH)
  {
    assert Items([]) == [];
  }

  /**
   Writes are started one at a time and in the order in which the frames were handed over; a frame
   that has to wait has a write in flight or a posted failure ahead of it.
   */
  lemma WritesStartInOrder(es: seq<Event>)
    ensures var c := Run(EPOCH, es);
      && (c.writing <==> c.inFlight.Busy?)
      && c.started <= c.accepted
      && (c.open ==> c.accepted == c.started + c.queue)
      && (c.queue != [] ==> c.writing || c.deferred > 0)
  {
    EpochStarts();
    RunSettles(EPOCH, es);
  }

  /**
   An epoch has to begin without an outstanding deferred failure, and only then is nothing lost: such
   a task clears the writing flag under a write in flight, and the next frame takes the slot of a
   frame whose handler then never runs.
   */
  lemma ConservationNeedsNoDeferredTask(n: nat)
    ensures (forall es: seq<Event> :: Conserved(Run(EPOCH.(deferred := n), es))) <==> n == 0
  {
    if n == 0 {
      forall es: seq<Event>
        ensures Conserved(Run(EPOCH.(deferred := 0), es))
      {
        EpochStarts();
        RunSettles(EPOCH, es);
      }
    } else {
      LostHandler(n);
    }
  }

  lemma LostHandler(n: nat)
    requires n > 0
    ensures exists es: seq<Event> :: !Conserved(Run(EPOCH.(deferred := n), es))
  {
    var c := EPOCH.(deferred := n);
    var request := Request([], false, false);
    var first := c.(writing := true, inFlight := Busy(Item(0, request)), accepted := [Item(0, request)],
                    started := [Item(0, request)]);
    FirstWrite(c, request);
    ClearedUnderWrite(first);
    SlotTaken(first.(deferred := n - 1, writing := false), request);
    hide Step, Conserved;
    var es: seq<Event> := [];
    RunSnoc(c, es, Write(request));
    es := es + [Write(request)];
    RunSnoc(c, es, DeferredTask);
    es := es + [DeferredTask];
    RunSnoc(c, es, Write(request));
    es := es + [Write(request)];
    hide Run;
    assert !Conserved(Run(c, es));
  }

  lemma FirstWrite(c: Conn, request: Request)
    requires c == EPOCH.(deferred := c.deferred)
    ensures Step(c, Write(request)) == c.(writing := true, inFlight := Busy(Item(0, request)),
              accepted := [Item(0, request)], started := [Item(0, request)])
  {
    assert [] + [Item(0, request)] == [Item(0, request)];
  }

  /** The task fails an empty queue, and takes the flag from the write in flight. */
  lemma ClearedUnderWrite(c: Conn)
    requires c.deferred > 0 && c.queue == []
    ensures Step(c, DeferredTask) == c.(deferred := c.deferred - 1, writing := false)
  {
    var d := c.(deferred := c.deferred - 1, writing := false);
    assert d.(queue := []) == d;
    assert FailAll(d, []) == d;
    hide RunHandler;
  }

  lemma SlotTaken(c: Conn, request: Request)
    requires !c.closed && c.open && c.link == Session.Handshaking && c.queue == [] && !c.writing
    requires c.ran == [] && c.rejected == [] && |c.accepted| == 1 && c.accepted[0].index == 0
    ensures !Conserved(Step(c, Write(request)))
  {
    var d := Step(c, Write(request));
    var next := Item(1, request);
    assert d.inFlight == Busy(next) && d.queue == [] && d.accepted == c.accepted + [next];
    assert Whereabouts(d)[c.accepted[0]] == 0;
    assert c.accepted[0] in d.accepted;
  }

  // ------------------------------------------------------------ the octets on the wire

  function Buffers(items: seq<Item>): seq<bytes> {
    seq(|items|, i requires 0 <= i < |items| => items[i].request.buffer)
  }

  /**
   What a peer deframes from the octets of the started writes are those frames, in the order in which
   they were handed over: no two frames mix.
   */
  lemma PeerSeesTheFramesInOrder(es: seq<Event>)
    requires forall item <- Run(EPOCH, es).accepted :: WellFormed(item.request.buffer)
    ensures var c := Run(EPOCH, es);
      && Deframe(Flatten(Buffers(c.started))).frames == Buffers(c.started)
      && Buffers(c.started) <= Buffers(c.accepted)
  {
    WritesStartInOrder(es);
    var c := Run(EPOCH, es);
    var frames := Buffers(c.started);
    assert forall i :: 0 <= i < |c.started| ==> c.started[i] == c.accepted[i];
    DeframeInvertsConcatenation(frames, []);
    assert Flatten(frames) + [] == Flatten(frames);
    assert frames + [] == frames;
  }

  // ------------------------------------------------------------ the object

  class Connection {
    var closed: bool
    var socketOpen: bool
    var link: Link
    var queue: seq<Item>
    var inFlight: Slot
    var writing: bool
    var deferred: nat
    var rejected: seq<Item>
    var accepted: seq<Item>
    var started: seq<Item>
    var ran: seq<Ran>

    function Abs(): Conn
      reads this
    {
      Conn(closed, socketOpen, link, queue, inFlight, writing, deferred, rejected, accepted, started, ran)
    }

    /** A socket that has just connected. */
    constructor ()
      ensures Abs() == EPOCH
    {
      closed, socketOpen, link := false, true, Session.Handshaking;
      queue, inFlight, writing := [], Empty, false;
      deferred, rejected, accepted, started, ran := 0, [], [], [], [];
    }

    method Invoke(item: Item, ok: bool)
      modifies this
      ensures Abs() == RunHandler(old(Abs()), item, ok)
      decreases Rank(Abs()), 1
    {
      ran := ran + [Ran(item, ok)];
      if ok {
        if item.request.closesOnSuccess {
          CloseConnection();
        }
      } else {
        if item.request.closesOnError {
          CloseConnection();
        }
      }
    }

    /** Takes the queue over before it runs the handlers, so that a handler may close. */
    method FailPendingWrites()
      modifies this
      ensures Abs() == FailPending(old(Abs()))
      decreases Rank(Abs()), 2
    {
      var pending := queue;
      queue := [];
      writing := false;
      ghost var all := FailAll(Abs(), pending);
      assert pending[0..] == pending;
      for i := 0 to |pending|
        invariant FailAll(Abs(), pending[i..]) == all
        invariant Rank(Abs()) <= Rank(old(Abs()))
      {
        assert pending[i..][1..] == pending[i + 1..];
        Invoke(pending[i], false);
      }
    }

    method CloseConnection()
      modifies this
      ensures Abs() == Close(old(Abs()))
      decreases Rank(Abs()), 0
    {
      if closed {
        return;
      }
      closed := true;
      socketOpen := false;
      link := Session.Disconnected;
      var taken := inFlight;
      inFlight := Empty;
      writing := false;
      FailPendingWrites();
      if taken.Busy? {
        Invoke(taken.item, false);
      }
    }

    /** An accepted CONNACK. */
    method MarkConnected()
      modifies this`link
      ensures Abs() == Step(old(Abs()), Connack)
    {
      link := Session.Connected;
    }

    method StartWrite()
      modifies this
      ensures Abs() == DoWrite(old(Abs()))
    {
      if writing {
        return;
      }
      if queue == [] {
        return;
      }
      if !socketOpen || link == Session.Disconnected || link == Session.Connecting {
        deferred := deferred + 1;
        return;
      }
      writing := true;
      inFlight := Busy(queue[0]);
      started := started + [queue[0]];
      queue := queue[1..];
    }

    method EnqueueWrite(request: Request)
      modifies this
      ensures Abs() == Enqueue(old(Abs()), request)
    {
      var item := Item(|accepted|, request);
      accepted := accepted + [item];
      if closed {
        rejected := rejected + [item];
        return;
      }
      queue := queue + [item];
      if !writing {
        StartWrite();
      }
    }

    method OnWriteCompleted(ok: bool)
      modifies this
      ensures Abs() == WriteDone(old(Abs()), ok)
    {
      if inFlight.Empty? {
        return;
      }
      var item := inFlight.item;
      inFlight := Empty;
      writing := false;
      Invoke(item, ok);
      if !ok {
        socketOpen := false;
        link := Session.Disconnected;
        FailPendingWrites();
      } else if !writing && queue != [] {
        StartWrite();
      }
    }

    method OnDeferredTask()
      requires deferred > 0
      modifies this
      ensures Abs() == RunDeferred(old(Abs()))
    {
      deferred := deferred - 1;
      FailPendingWrites();
    }

    method OnRejectedTask()
      requires rejected != []
      modifies this
      ensures Abs() == RunRejected(old(Abs()))
    {
      var item := rejected[0];
      rejected := rejected[1..];
      Invoke(item, false);
    }

    /** One turn of the io thread. A posted task runs once. */
    method Handle(e: Event)
      modifies this
      ensures Abs() == Step(old(Abs()), e)
    {
      hide RunHandler, FailPending, Close;
      match e {
        case Write(request) => EnqueueWrite(request);
        case Completed(ok) => OnWriteCompleted(ok);
        case DeferredTask =>
          if deferred > 0 {
            OnDeferredTask();
          }
        case RejectedTask =>
          if rejected != [] {
            OnRejectedTask();
          }
        case CloseCall => CloseConnection();
        case Connack => MarkConnected();
      }
    }
  }

  /** The life of a connection, from one connect to the next: no handler runs twice, none is lost. */
  method Serve(es: seq<Event>) returns (conn: Connection)
    ensures fresh(conn) && conn.Abs() == Run(EPOCH, es)
    ensures forall i: nat :: i < |conn.accepted| ==> Invocations(conn.ran, i) <= 1
    ensures conn.closed && conn.rejected == []
      ==> forall i: nat :: i < |conn.accepted| ==> Invocations(conn.ran, i) == 1
  {
    hide Step, Invocations, Outstanding;
    conn := new Connection();
    assert es[..0] == [];
    for i := 0 to |es|
      invariant fresh(conn) && conn.Abs() == Run(EPOCH, es[..i])
    {
      RunSnoc(EPOCH, es[..i], es[i]);
      assert es[..i] + [es[i]] == es[..i + 1];
      conn.Handle(es[i]);
    }
    assert es[..|es|] == es;
    forall i: nat | i < |conn.accepted|
      ensures Invocations(conn.ran, i) <= 1
      ensures conn.closed && conn.rejected == [] ==> Invocations(conn.ran, i) == 1
    {
      EveryHandlerRunsOnce(es, i);
    }
  }
}
