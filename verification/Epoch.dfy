/**
 The client and its connection during one epoch: what the client queues is handed to the connection,
 and the write handler of a QoS 0 frame runs when, and as often as, the connection runs it.

 The other handlers stay free, as in the session by itself: their events may come at any time.
 */
module Epoch {
  import opened Bytes
  import opened Packets
  import opened PacketIds
  import opened Framing
  import opened Session
  import opened Accounting
  import opened Delivery
  import T = Transmissions
  import W = WriteQueue

  /** Whom a frame belongs to: the QoS 0 call that its handler reports, or nobody of interest. */
  datatype Owner = Qos0(handle: nat) | Other

  datatype Joint = Joint(s: State, c: W.Conn, owners: seq<Owner>)

  datatype Happening =
    | ClientStep(event: Event, request: W.Request)   // the request says how the handler of a queued frame behaves
    | OtherWrite(request: W.Request)                 // PINGREQ, UNSUBSCRIBE, DISCONNECT
    | ConnectionStep(step: W.Event)

  function Begun(s: State): Joint {
    Joint(s, W.EPOCH, [])
  }

  function OwnerOf(f: Frame): Owner {
    if f.PublishFrame? && f.packet.qos == 0 then Qos0(f.handle) else Other
  }

  /** The octets of a frame; those of CONNECT are supplied. */
  function BytesOf(f: Frame, supplied: bytes): bytes {
    match f
    case PublishFrame(_, p) => PublishBytes(p)
    case PubrelFrame(_, id) => AckBytes(PUBREL * 16 + 2, id)
    case AckFrame(head, id) => AckBytes(head, id)
    case SubscribeFrame(id, topic, qos) => SubscribeBytes(id, topic, qos)
    case ConnectFrame => supplied
  }

  /** A step of the client queues at most one frame, which goes to the connection at once. */
  function HandOver(j: Joint, t: State, request: W.Request): Joint {
    if |t.frames| <= |j.s.frames| then j.(s := t)
    else
      var f := t.frames[|j.s.frames|];
      Joint(t, W.Enqueue(j.c, request.(buffer := BytesOf(f, request.buffer))), j.owners + [OwnerOf(f)])
  }

  function RunHandler(s: State, owners: seq<Owner>, r: W.Ran): State
    requires Sound(s)
  {
    if r.item.index < |owners| && owners[r.item.index].Qos0?
    then Qos0Written(s, owners[r.item.index].handle, r.ok)
    else s
  }

  function RunHandlers(s: State, owners: seq<Owner>, ran: seq<W.Ran>): (t: State)
    requires Sound(s)
    ensures Sound(t)
    decreases |ran|
  {
    if ran == [] then s else RunHandlers(RunHandler(s, owners, ran[0]), owners, ran[1..])
  }

  function Happen(j: Joint, m: Happening): (k: Joint)
    requires Sound(j.s)
    ensures Sound(k.s)
  {
    match m
    case ClientStep(e, request) =>
      StepIsSound(j.s, e);
      if e.Qos0Write? then j else HandOver(j, Step(j.s, e), request)
    case OtherWrite(request) => Joint(j.s, W.Enqueue(j.c, request), j.owners + [Other])
    case ConnectionStep(w) =>
      if w.Write? then j
      else
        var d := W.Step(j.c, w);
        if |d.ran| < |j.c.ran| then j
        else Joint(RunHandlers(j.s, j.owners, d.ran[|j.c.ran|..]), d, j.owners)
  }

  function Life(j: Joint, ms: seq<Happening>): (k: Joint)
    requires Sound(j.s)
    ensures Sound(k.s)
    decreases |ms|
  {
    if ms == [] then j else Life(Happen(j, ms[0]), ms[1..])
  }

  // ------------------------------------------------------------ what the epoch keeps

  /** Every QoS 0 frame of the epoch has its call, and that call is reported as often as its handler ran. */
  ghost predicate Linked(first: nat, s: State, owners: seq<Owner>, ran: seq<W.Ran>) {
    && (forall i :: 0 <= i < |owners| && owners[i].Qos0? ==>
          && first <= owners[i].handle && owners[i].handle in s.qos0
          && s.written[owners[i].handle] == W.Invocations(ran, i))
    && (forall i, k :: 0 <= i < k < |owners| && owners[i].Qos0? ==> owners[i] != owners[k])
    && (forall h :: h in s.qos0 && first <= h ==> Qos0(h) in owners)
  }

  ghost predicate Whole(first: nat, j: Joint) {
    && Sound(j.s) && Accounted(j.s) && first <= |j.s.calls|
    && W.Settled(j.c) && W.Conserved(j.c) && W.Indexed(j.c)
    && |j.owners| == |j.c.accepted|
    && Linked(first, j.s, j.owners, j.c.ran)
  }

  /** What a step of the client does to the QoS 0 frames. */
  ghost predicate Hands(s: State, t: State) {
    && t.written == s.written && s.calls <= t.calls
    && if t.frames == s.frames then t.qos0 == s.qos0
       else
         && |t.frames| == |s.frames| + 1 && t.frames == s.frames + [t.frames[|s.frames|]]
         && match OwnerOf(t.frames[|s.frames|])
            case Qos0(h) => h == |s.calls| && t.qos0 == s.qos0 + {h}
            case Other => t.qos0 == s.qos0
  }

  lemma StepHands(s: State, e: Event)
    requires Sound(s) && Accounted(s) && !e.Qos0Write?
    ensures Hands(s, Step(s, e))
  {
    match e
    case Publish(c) => PublishHands(s, c);
    case PublishExpiry(id, current) => TimerHands(s, id, current);
    case _ =>
      T.StepIsQuiet(s, e);
      OtherKeeps(s, e);
      hide Step, Sound, Accounted;
  }

  lemma OtherKeeps(s: State, e: Event)
    requires Sound(s) && !e.Publish? && !e.Qos0Write?
    ensures var t := Step(s, e); t.qos0 == s.qos0 && t.written == s.written && t.calls == s.calls
  {
    if e.Subscribe? {
      hide FirstFree, Used;
    } else {
      HandlerKeeps(s, e);
      hide Step;
    }
  }

  lemma PublishHands(s: State, c: Call)
    requires Sound(s)
    ensures Hands(s, AsyncPublish(s, c))
  {
    if c.qos in {1, 2} {
      EnteringHands(s, c);
    }
    RejectHands(s, s, c);
    Qos0Hands(s, c);
    hide EnterWindow, Hands, Reject, AcceptQos0;
  }

  lemma Qos0Hands(s: State, c: Call)
    ensures Hands(s, AcceptQos0(s, c))
  {
  }

  lemma EnteringHands(s: State, c: Call)
    requires Sound(s) && c.qos in {1, 2}
    ensures Hands(s, EnterWindow(s, c))
  {
    hide FirstFree, Used, Hands, Reject, NotifyClosedOnce, SendPublishEntry, Accept;
    var id := FirstFree(s.cursor, Used(s));
    if id == 0 {
      NotifyQueuesNothing(s);
      RejectHands(s, NotifyClosedOnce(s), c);
    } else if |s.pubs| >= MAX_PENDING {
      RejectHands(s, s.(cursor := id), c);
    } else {
      AcceptHands(s, c, id);
    }
  }

  lemma NotifyQueuesNothing(s: State)
    ensures NotifyClosedOnce(s).frames == s.frames
  {
    hide Drain;
  }

  lemma RejectHands(s: State, r: State, c: Call)
    requires r.frames == s.frames && r.qos0 == s.qos0 && r.written == s.written && r.calls == s.calls
    ensures Hands(s, Reject(r, c))
  {
  }

  lemma AcceptHands(s: State, c: Call, id: u16)
    requires c.qos in {1, 2}
    ensures Hands(s, SendPublishEntry(Accept(s, c, id), id))
  {
  }

  lemma TimerHands(s: State, id: u16, current: bool)
    requires Accounted(s)
    ensures Hands(s, PublishTimer(s, id, current))
  {
    hide Accounted, Hands, FinishPublishFailure, SendPublishEntry, Bump, Arm;
    ArmedHands(s, s, id);
    ArmedHands(s, Arm(s, id, false), id);
  }

  /** Both ends of an expiry, whether or not its own wait was cleared first. */
  lemma ArmedHands(s: State, a: State, id: u16)
    requires Accounted(s) && (a == s || a == Arm(s, id, false))
    ensures Hands(s, FinishPublishFailure(a, id)) && Hands(s, s)
    ensures id in s.pubs ==> id in a.pubs && Hands(s, SendPublishEntry(Bump(a, id), id))
  {
    FailureHands(s, a, id);
    if id in s.pubs {
      RetryHands(s, a, id);
    }
    hide Accounted, FinishPublishFailure, SendPublishEntry;
  }

  lemma FailureHands(s: State, a: State, id: u16)
    requires a == s || a == Arm(s, id, false)
    ensures Hands(s, FinishPublishFailure(a, id))
  {
    NotifyQueuesNothing(if id in a.pubs then Retire(a, id, false) else a);
    hide NotifyClosedOnce;
  }

  lemma RetryHands(s: State, a: State, id: u16)
    requires Accounted(s) && (a == s || a == Arm(s, id, false)) && id in s.pubs
    ensures id in a.pubs && Hands(s, SendPublishEntry(Bump(a, id), id))
  {
    assert s.pubs[id].qos > 0;
    hide Accounted;
    assert a.pubs[id].qos == s.pubs[id].qos;
  }

  // ------------------------------------------------------------ every happening keeps it

  lemma {:induction false} InvocationsBeyond(ran: seq<W.Ran>, i: nat)
    requires forall r <- ran :: r.item.index != i
    ensures W.Invocations(ran, i) == 0
    decreases |ran|
  {
    if ran != [] {
      InvocationsBeyond(ran[..|ran| - 1], i);
    }
  }

  lemma RanWasAccepted(c: W.Conn, r: W.Ran)
    requires W.Conserved(c) && W.Indexed(c) && r in c.ran
    ensures r.item.index < |c.accepted|
  {
    W.RanIsListed(c.ran, r);
    assert r.item in W.Whereabouts(c);
    assert r.item in c.accepted;
  }

  lemma NotYetRun(c: W.Conn)
    requires W.Conserved(c) && W.Indexed(c)
    ensures W.Invocations(c.ran, |c.accepted|) == 0
  {
    forall r | r in c.ran
      ensures r.item.index != |c.accepted|
    {
      RanWasAccepted(c, r);
    }
    InvocationsBeyond(c.ran, |c.accepted|);
  }

  /** A frame more, or none: a QoS 0 call made by this step gets the next place. */
  lemma HandingLinks(first: nat, s: State, t: State, owners: seq<Owner>, c: W.Conn)
    requires Sound(s) && Accounted(s) && first <= |s.calls| && Hands(s, t) && |owners| == |c.accepted|
    requires W.Conserved(c) && W.Indexed(c) && Linked(first, s, owners, c.ran)
    ensures t.frames == s.frames ==> Linked(first, t, owners, c.ran)
    ensures t.frames != s.frames ==> Linked(first, t, owners + [OwnerOf(t.frames[|s.frames|])], c.ran)
  {
    NotYetRun(c);
    hide W.Invocations, W.Conserved, W.Indexed;
    if t.frames != s.frames {
      var owner := OwnerOf(t.frames[|s.frames|]);
      var more := owners + [owner];
      assert forall h :: Qos0(h) in owners ==> Qos0(h) in more;
      if owner.Qos0? {
        assert owner in more;
        assert owner.handle !in s.qos0;
      }
    }
  }

  lemma OthersLink(first: nat, s: State, owners: seq<Owner>, ran: seq<W.Ran>)
    requires Linked(first, s, owners, ran)
    ensures Linked(first, s, owners + [Other], ran)
  {
    assert forall h :: Qos0(h) in owners ==> Qos0(h) in owners + [Other];
  }

  lemma InvocationsSnoc(ran: seq<W.Ran>, r: W.Ran, i: nat)
    ensures W.Invocations(ran + [r], i) == W.Invocations(ran, i) + if r.item.index == i then 1 else 0
  {
    assert (ran + [r])[..|ran|] == ran;
  }

  /** One handler: the connection counts it, and the call is reported. */
  lemma HandlerLinks(first: nat, s: State, owners: seq<Owner>, ran: seq<W.Ran>, r: W.Ran)
    requires Sound(s) && Accounted(s) && Linked(first, s, owners, ran)
    ensures var t := RunHandler(s, owners, r);
      && Sound(t) && Accounted(t) && Linked(first, t, owners, ran + [r])
      && t.calls == s.calls && t.frames == s.frames
  {
    forall i: nat
      ensures W.Invocations(ran + [r], i) == W.Invocations(ran, i) + if r.item.index == i then 1 else 0
    {
      InvocationsSnoc(ran, r, i);
    }
    if r.item.index < |owners| && owners[r.item.index].Qos0? {
      Qos0WrittenKeeps(s, owners[r.item.index].handle, r.ok);
    }
    hide W.Invocations, Accounted;
  }

  lemma {:induction false} HandlersLink(first: nat, s: State, owners: seq<Owner>, ran: seq<W.Ran>, more: seq<W.Ran>)
    requires Sound(s) && Accounted(s) && Linked(first, s, owners, ran)
    ensures var t := RunHandlers(s, owners, more);
      && Accounted(t) && Linked(first, t, owners, ran + more)
      && t.calls == s.calls && t.frames == s.frames
    decreases |more|
  {
    hide Sound, Accounted, Linked, RunHandler;
    if more == [] {
      assert ran + more == ran;
    } else {
      HandlerLinks(first, s, owners, ran, more[0]);
      HandlersLink(first, RunHandler(s, owners, more[0]), owners, ran + [more[0]], more[1..]);
      assert ran + [more[0]] + more[1..] == ran + more;
    }
  }

  lemma EnqueueOnly(c: W.Conn, request: W.Request)
    ensures var d := W.Enqueue(c, request); d.ran == c.ran && |d.accepted| == |c.accepted| + 1
  {
  }

  lemma ConnectionRuns(c: W.Conn, w: W.Event)
    requires !w.Write?
    ensures var d := W.Step(c, w); c.ran <= d.ran && d.accepted == c.accepted
  {
    hide W.RunHandler, W.FailPending, W.Close;
  }

  lemma ClientStepKeepsWhole(first: nat, j: Joint, e: Event, request: W.Request)
    requires Whole(first, j) && !e.Qos0Write?
    ensures Whole(first, Happen(j, ClientStep(e, request)))
  {
    var t := Step(j.s, e);
    StepHands(j.s, e);
    StepKeepsAccounts(j.s, e);
    StepIsSound(j.s, e);
    HandingLinks(first, j.s, t, j.owners, j.c);
    hide Step, Sound, Accounted, Linked, W.Settled, W.Conserved, W.Indexed, W.Step;
    if t.frames != j.s.frames {
      var f := t.frames[|j.s.frames|];
      EnqueueKeepsWhole(j.c, request.(buffer := BytesOf(f, request.buffer)));
    }
  }

  lemma EnqueueKeepsWhole(c: W.Conn, request: W.Request)
    requires W.Settled(c) && W.Conserved(c) && W.Indexed(c)
    ensures var d := W.Enqueue(c, request);
      && W.Settled(d) && W.Conserved(d) && W.Indexed(d) && d.ran == c.ran && |d.accepted| == |c.accepted| + 1
  {
    W.StepSettles(c, W.Write(request));
    W.StepIndexes(c, W.Write(request));
    EnqueueOnly(c, request);
    hide W.Settled, W.Conserved, W.Indexed, W.Enqueue;
  }

  lemma RunningKeepsWhole(first: nat, j: Joint, d: W.Conn)
    requires Whole(first, j) && W.Settled(d) && W.Conserved(d) && W.Indexed(d)
    requires j.c.ran <= d.ran && d.accepted == j.c.accepted
    ensures Whole(first, Joint(RunHandlers(j.s, j.owners, d.ran[|j.c.ran|..]), d, j.owners))
  {
    hide Sound, Accounted, Linked, W.Settled, W.Conserved, W.Indexed, RunHandlers;
    HandlersLink(first, j.s, j.owners, j.c.ran, d.ran[|j.c.ran|..]);
    assert j.c.ran + d.ran[|j.c.ran|..] == d.ran;
  }

  lemma ConnectionStepKeepsWhole(first: nat, j: Joint, w: W.Event)
    requires Whole(first, j) && !w.Write?
    ensures Whole(first, Happen(j, ConnectionStep(w)))
  {
    W.StepSettles(j.c, w);
    W.StepIndexes(j.c, w);
    ConnectionRuns(j.c, w);
    RunningKeepsWhole(first, j, W.Step(j.c, w));
    hide W.Step, Whole, W.Settled, W.Conserved, W.Indexed, RunHandlers;
  }

  lemma HappeningKeepsWhole(first: nat, j: Joint, m: Happening)
    requires Whole(first, j)
    ensures Whole(first, Happen(j, m))
  {
    match m
    case ClientStep(e, request) =>
      if !e.Qos0Write? {
        ClientStepKeepsWhole(first, j, e, request);
      }
    case OtherWrite(request) =>
      EnqueueKeepsWhole(j.c, request);
      OthersLink(first, j.s, j.owners, j.c.ran);
      hide W.Enqueue, W.Settled, W.Conserved, W.Indexed, Accounted, Linked;
    case ConnectionStep(w) =>
      if !w.Write? {
        ConnectionStepKeepsWhole(first, j, w);
      }
  }

  lemma {:induction false} LifeKeepsWhole(first: nat, j: Joint, ms: seq<Happening>)
    requires Whole(first, j)
    ensures Whole(first, Life(j, ms))
    decreases |ms|
  {
    assert Sound(j.s);
    hide Happen, Whole;
    if ms != [] {
      HappeningKeepsWhole(first, j, ms[0]);
      LifeKeepsWhole(first, Happen(j, ms[0]), ms[1..]);
    }
  }

  lemma BegunIsWhole(s: State)
    requires Sound(s) && Accounted(s)
    ensures Whole(|s.calls|, Begun(s))
  {
    W.EpochStarts();
    hide Accounted, W.Settled, W.Conserved, W.Indexed;
    assert Qos0Handles(s) by {
      HandlesOf(s);
    }
  }

  lemma HandlesOf(s: State)
    requires Accounted(s)
    ensures Qos0Handles(s)
  {
  }

  // ------------------------------------------------------------ QoS 0, exactly once

  /** The frame of a call is in flight, queued, or waiting for its rejection. */
  ghost predicate UnderWay(j: Joint, h: nat)
    requires |j.owners| == |j.c.accepted|
  {
    exists i :: 0 <= i < |j.owners| && j.owners[i] == Qos0(h) && W.Outstanding(j.c)[j.c.accepted[i]] > 0
  }

  /** A QoS 0 call made in the epoch. */
  predicate IsQos0(j: Joint, first: nat, h: nat) {
    first <= h < |j.s.calls| && j.s.calls[h].qos == 0
  }

  lemma WholeCounts(first: nat, j: Joint, h: nat)
    requires Whole(first, j) && first <= h < |j.s.calls| && j.s.calls[h].qos == 0
    ensures Times(j.s.reports, h) == if UnderWay(j, h) then 0 else 1
    ensures j.c.closed && j.c.rejected == [] ==> !UnderWay(j, h)
  {
    assert Times(j.s.reports, h) == Due(j.s, h);
    hide Times, W.Conserved, W.Indexed, W.Invocations, W.Outstanding;
    if h in j.s.qos0 {
      assert Qos0(h) in j.owners;
      var i :| 0 <= i < |j.owners| && j.owners[i] == Qos0(h);
      W.IndexedCounts(j.c, i);
      OutstandingOnceClosed(j.c, j.c.accepted[i]);
      assert forall k :: 0 <= k < |j.owners| && j.owners[k] == Qos0(h) ==> k == i;
    } else {
      assert !InWindow(j.s.pubs, h);
    }
  }

  lemma OutstandingOnceClosed(c: W.Conn, item: W.Item)
    requires W.Settled(c)
    ensures c.closed && c.rejected == [] ==> W.Outstanding(c)[item] == 0
  {
  }

  /**
   QoS 0, in every state of every epoch, from whatever run of the client led to it: a call made in the
   epoch has been reported exactly once, unless its frame is in flight, queued or waiting for its
   rejection, and then not at all. Once the connection is closed and the posted rejections have run,
   every one has been reported exactly once.
   */
  lemma Qos0ReportedOnce(es: seq<Event>, ms: seq<Happening>, h: nat)
    ensures var first, j := |Reached(es).calls|, Life(Begun(Reached(es)), ms);
      && |j.owners| == |j.c.accepted|
      && (IsQos0(j, first, h) ==>
            && Times(j.s.reports, h) == (if UnderWay(j, h) then 0 else 1)
            && (j.c.closed && j.c.rejected == [] ==> Times(j.s.reports, h) == 1))
  {
    RunKeepsAccounts(INITIAL, es);
    var s := Reached(es);
    BegunIsWhole(s);
    LifeKeepsWhole(|s.calls|, Begun(s), ms);
    hide Life, Whole, UnderWay;
    var j := Life(Begun(s), ms);
    ShapeOf(|s.calls|, j);
    if IsQos0(j, |s.calls|, h) {
      WholeCounts(|s.calls|, j, h);
    }
  }

  lemma ShapeOf(first: nat, j: Joint)
    requires Whole(first, j)
    ensures |j.owners| == |j.c.accepted|
  {
  }

  // ------------------------------------------------------------ what a broker reads

  /** The octets supplied for CONNECT are its own, a SUBSCRIBE fits its length, other packets are no PUBLISH. */
  predicate Fair(j: Joint, m: Happening)
    requires Sound(j.s)
  {
    match m
    case ClientStep(e, request) =>
      var t := Step(j.s, e);
      |t.frames| > |j.s.frames| ==>
        Encodes(t.frames[|j.s.frames|], BytesOf(t.frames[|j.s.frames|], request.buffer))
    case OtherWrite(request) => Foreign(request.buffer)
    case ConnectionStep(_) => true
  }

  predicate AllFair(j: Joint, ms: seq<Happening>)
    requires Sound(j.s)
    decreases |ms|
  {
    ms == [] || (Fair(j, ms[0]) && AllFair(Happen(j, ms[0]), ms[1..]))
  }

  ghost predicate Faithful(from: nat, j: Joint) {
    && T.Budgeted(j.s) && from <= |j.s.frames|
    && Handed(j.s.frames[from..], W.Buffers(j.c.accepted))
  }

  lemma HandedMore(frames: seq<Frame>, items: seq<W.Item>, item: W.Item)
    requires Handed(frames, W.Buffers(items))
    ensures Foreign(item.request.buffer) ==> Handed(frames, W.Buffers(items + [item]))
    ensures forall f :: Encodes(f, item.request.buffer) ==> Handed(frames + [f], W.Buffers(items + [item]))
  {
    hide Encodes, Foreign;
    var packets := W.Buffers(items + [item]);
    assert packets == W.Buffers(items) + [item.request.buffer];
    assert packets[..|packets| - 1] == W.Buffers(items);
    forall f | Encodes(f, item.request.buffer)
      ensures Handed(frames + [f], packets)
    {
      assert (frames + [f])[..|frames|] == frames;
    }
  }

  lemma AcceptedByEnqueue(c: W.Conn, request: W.Request)
    ensures W.Enqueue(c, request).accepted == c.accepted + [W.Item(|c.accepted|, request)]
  {
  }

  lemma HandedOneMore(from: nat, s: State, t: State, c: W.Conn, request: W.Request)
    requires from <= |s.frames| && |t.frames| == |s.frames| + 1 && t.frames == s.frames + [t.frames[|s.frames|]]
    requires Handed(s.frames[from..], W.Buffers(c.accepted)) && Encodes(t.frames[|s.frames|], request.buffer)
    ensures Handed(t.frames[from..], W.Buffers(W.Enqueue(c, request).accepted))
  {
    hide Encodes, Handed, W.Buffers, W.Enqueue;
    AcceptedByEnqueue(c, request);
    HandedMore(s.frames[from..], c.accepted, W.Item(|c.accepted|, request));
    assert t.frames[from..] == s.frames[from..] + [t.frames[|s.frames|]];
  }

  lemma ClientStepKeepsFaith(first: nat, from: nat, j: Joint, e: Event, request: W.Request)
    requires Whole(first, j) && Faithful(from, j) && Fair(j, ClientStep(e, request)) && !e.Qos0Write?
    ensures Faithful(from, Happen(j, ClientStep(e, request)))
  {
    T.StepKeepsBudget(j.s, e);
    StepHands(j.s, e);
    hide Step, Accounted, Sound, Linked, T.Budgeted, Encodes, Handed, BytesOf, OwnerOf;
    hide W.Enqueue, W.Buffers, W.Settled, W.Conserved, W.Indexed;
    var t := Step(j.s, e);
    if t.frames != j.s.frames {
      HandedOneMore(from, j.s, t, j.c, request.(buffer := BytesOf(t.frames[|j.s.frames|], request.buffer)));
    }
  }

  lemma {:induction false} HandlersKeepBudget(s: State, owners: seq<Owner>, ran: seq<W.Ran>)
    requires Sound(s) && T.Budgeted(s)
    ensures T.Budgeted(RunHandlers(s, owners, ran)) && RunHandlers(s, owners, ran).frames == s.frames
    decreases |ran|
  {
    if ran != [] {
      var t := RunHandler(s, owners, ran[0]);
      var i := ran[0].item.index;
      if i < |owners| && owners[i].Qos0? {
        T.StepIsQuiet(s, Qos0Write(owners[i].handle, ran[0].ok));
        T.QuietKeeps(s, t);
      }
      hide T.Budgeted, T.Quiet, Sound;
      HandlersKeepBudget(t, owners, ran[1..]);
    }
  }

  lemma HappeningKeepsFaith(first: nat, from: nat, j: Joint, m: Happening)
    requires Whole(first, j) && Faithful(from, j) && Fair(j, m)
    ensures Faithful(from, Happen(j, m))
  {
    match m
    case ClientStep(e, request) =>
      if !e.Qos0Write? {
        ClientStepKeepsFaith(first, from, j, e, request);
      }
    case OtherWrite(request) =>
      AcceptedByEnqueue(j.c, request);
      HandedMore(j.s.frames[from..], j.c.accepted, W.Item(|j.c.accepted|, request));
      hide T.Budgeted, Handed, W.Enqueue, Whole;
    case ConnectionStep(w) =>
      if !w.Write? {
        ConnectionRuns(j.c, w);
        HandlersKeepBudget(j.s, j.owners, W.Step(j.c, w).ran[|j.c.ran|..]);
        hide T.Budgeted, Handed, W.Step, Whole, RunHandlers;
      }
  }

  lemma {:induction false} LifeKeepsFaith(first: nat, from: nat, j: Joint, ms: seq<Happening>)
    requires Whole(first, j) && Faithful(from, j) && AllFair(j, ms)
    ensures Faithful(from, Life(j, ms)) && W.Settled(Life(j, ms).c)
    decreases |ms|
  {
    assert W.Settled(j.c);
    if ms != [] {
      HappeningKeepsWhole(first, j, ms[0]);
      HappeningKeepsFaith(first, from, j, ms[0]);
      hide Happen, Whole, Faithful, Fair, W.Settled;
      LifeKeepsFaith(first, from, Happen(j, ms[0]), ms[1..]);
    }
  }

  /**
   The whole way, without taking it for granted that the frames reach the connection: after any run of
   the client, any epoch of client and connection together. Of the octets of the writes begun a peer
   reads exactly the publishes of a prefix of the frames queued in the epoch, first transmissions in
   call order.
   */
  lemma EpochIsRead(es: seq<Event>, ms: seq<Happening>)
    requires AllFair(Begun(Reached(es)), ms)
    requires forall c <- Life(Begun(Reached(es)), ms).s.calls :: Sendable(c)
    ensures var from, j := |Reached(es).frames|, Life(Begun(Reached(es)), ms);
      exists n :: Reads(j.s, from, n, Flatten(W.Buffers(j.c.started)))
  {
    var s := Reached(es);
    RunKeepsAccounts(INITIAL, es);
    T.RunKeepsBudget(INITIAL, es);
    BegunIsWhole(s);
    assert W.Buffers([]) == [] && s.frames[|s.frames|..] == [];
    LifeKeepsFaith(|s.calls|, |s.frames|, Begun(s), ms);
    hide Life, AllFair, Whole, Reads, Handed, T.Budgeted, W.Settled, Sendable;
    var j := Life(Begun(s), ms);
    var n := StateIsRead(j.s, |s.frames|, j.c);
    assert Reads(j.s, |s.frames|, n, Flatten(W.Buffers(j.c.started)));
  }
}
