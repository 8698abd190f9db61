/** Who owns a packet id: in every state a run can lead to, at most one exchange does. */
module Ownership {
  import opened Bytes
  import opened Packets
  import opened PacketIds
  import opened Session

  ghost predicate Owned(s: State) {
    && s.cursor > 0
    && 0 !in Used(s)
    && s.subs.Keys !! s.pubs.Keys + s.recs.Keys
    && |s.pubs| <= 1000
  }

  lemma KeepsOwned(s: State, t: State)
    requires Owned(s) && Keeps(s, t)
    ensures Owned(t)
  {
    SubsetSize(t.pubs.Keys, s.pubs.Keys);
  }

  /** One publish more, under an id that nothing used. */
  predicate AddsPublish(s: State, t: State, id: u16, p: Pub) {
    && id > 0 && id !in Used(s) && |s.pubs| < MAX_PENDING
    && t.pubs == s.pubs[id := p] && t.recs == s.recs && t.subs == s.subs
  }

  /** The entry of a call whose first transmission was queued. */
  function FirstEntry(s: State, c: Call): Pub {
    Pub(|s.calls|, c.topic, c.qos, c.payload, 1, true)
  }

  predicate SameMaps(s: State, t: State) {
    t.pubs == s.pubs && t.recs == s.recs && t.subs == s.subs
  }

  predicate NoMaps(t: State) {
    t.pubs == map[] && t.recs == map[] && t.subs == map[]
  }

  /** A publish call leaves the three maps alone, drains them, or adds one entry under a free id. */
  lemma PublishEffect(s: State, c: Call)
    requires Sound(s)
    ensures var t := AsyncPublish(s, c);
      && t.cursor > 0
      && (SameMaps(s, t) || NoMaps(t) || AddsPublish(s, t, FirstFree(s.cursor, Used(s)), FirstEntry(s, c)))
  {
    hide EnterWindow, AddsPublish;
    if !s.closed {
      EnterEffect(s, c);
    }
  }

  lemma EnterEffect(s: State, c: Call)
    requires Sound(s) && !s.closed
    ensures var t := EnterWindow(s, c);
      && t.cursor > 0
      && (SameMaps(s, t) || NoMaps(t) || AddsPublish(s, t, FirstFree(s.cursor, Used(s)), FirstEntry(s, c)))
  {
    hide FirstFree, Used, SendPublishEntry, Accept, FirstEntry, Drain, AddsPublish;
    var id := FirstFree(s.cursor, Used(s));
    if id != 0 && |s.pubs| < MAX_PENDING {
      FoundIsFree(s.cursor, Used(s));
      AcceptAdds(s, c, id);
    }
  }

  lemma AcceptAdds(s: State, c: Call, id: u16)
    requires id > 0 && id !in Used(s) && |s.pubs| < MAX_PENDING
    ensures AddsPublish(s, SendPublishEntry(Accept(s, c, id), id), id, FirstEntry(s, c))
    ensures SendPublishEntry(Accept(s, c, id), id).cursor == id
  {
    UpdateTwice(s.pubs, id, Accept(s, c, id).pubs[id], FirstEntry(s, c));
  }

  lemma UpdateTwice(m: map<u16, Pub>, id: u16, p: Pub, q: Pub)
    ensures m[id := p][id := q] == m[id := q]
  {
  }

  lemma PublishKeepsOwned(s: State, c: Call)
    requires Owned(s) && Sound(s)
    ensures Owned(AsyncPublish(s, c))
  {
    hide AsyncPublish, FirstFree, FirstEntry, AddsPublish;
    PublishEffect(s, c);
    var t := AsyncPublish(s, c);
    var id := FirstFree(s.cursor, Used(s));
    if AddsPublish(s, t, id, FirstEntry(s, c)) {
      AddsOwned(s, t, id, FirstEntry(s, c));
    }
  }

  lemma AddsOwned(s: State, t: State, id: u16, p: Pub)
    requires Owned(s) && AddsPublish(s, t, id, p) && t.cursor > 0
    ensures Owned(t)
  {
    assert t.pubs.Keys == s.pubs.Keys + {id};
    assert |t.pubs.Keys| == |s.pubs.Keys| + 1;
  }

  lemma SubscribeKeepsOwned(s: State, topic: bytes, qos: byte, hasCallback: bool)
    requires Owned(s)
    ensures Owned(AsyncSubscribe(s, topic, qos, hasCallback))
  {
    var id := FirstFree(s.cursor, Used(s));
    if id != 0 {
      FoundIsFree(s.cursor, Used(s));
    }
  }

  lemma StepKeepsOwned(s: State, e: Event)
    requires Owned(s) && Sound(s)
    ensures Owned(Step(s, e))
  {
    hide Owned;
    match e
    case Publish(c) => PublishKeepsOwned(s, c);
    case Subscribe(topic, qos, hasCallback) => SubscribeKeepsOwned(s, topic, qos, hasCallback);
    case _ =>
      ControlKeepsOwned(s, Step(s, e));
  }

  /** Every other step keeps ids in the sense of Keeps, or completes a QoS 0 write and touches no map. */
  lemma ControlKeepsOwned(s: State, t: State)
    requires Owned(s)
    ensures Keeps(s, t) ==> Owned(t)
    ensures (t.cursor, t.pubs, t.recs, t.subs) == (s.cursor, s.pubs, s.recs, s.subs) ==> Owned(t)
  {
    if Keeps(s, t) {
      KeepsOwned(s, t);
    }
  }

  lemma {:induction false} RunKeepsOwned(s: State, es: seq<Event>)
    requires Owned(s) && Sound(s)
    ensures Owned(Run(s, es))
    decreases |es|
  {
    if es != [] {
      StepKeepsOwned(s, es[0]);
      StepIsSound(s, es[0]);
      RunKeepsOwned(Step(s, es[0]), es[1..]);
    }
  }

  /**
   Packet-id ownership, for any broker: no exchange has id 0, no id belongs to a subscribe and to a
   publish or its PUBREL exchange at once, and at most 1000 publishes are pending.
   */
  lemma PacketIdOwnership(es: seq<Event>)
    ensures Owned(Reached(es))
  {
    RunKeepsOwned(INITIAL, es);
  }

  /** A new exchange takes an id that is free: nothing outstanding is overwritten. */
  lemma PublishNeverOverwrites(s: State, c: Call)
    requires Sound(s)
    ensures var t := AsyncPublish(s, c);
      && (forall id :: id in s.pubs && id in t.pubs ==> t.pubs[id] == s.pubs[id])
      && forall id :: id in t.pubs && id !in s.pubs ==> id > 0 && id !in Used(s)
  {
    hide AsyncPublish, FirstFree, AddsPublish, Used, FirstEntry;
    PublishEffect(s, c);
    AddsOne(s, AsyncPublish(s, c), FirstFree(s.cursor, Used(s)), FirstEntry(s, c));
  }

  lemma AddsOne(s: State, t: State, id: u16, p: Pub)
    ensures AddsPublish(s, t, id, p) ==>
      && (forall j :: j in s.pubs && j in t.pubs ==> t.pubs[j] == s.pubs[j])
      && forall j :: j in t.pubs && j !in s.pubs ==> j > 0 && j !in Used(s)
  {
  }

  lemma SubscribeNeverOverwrites(s: State, topic: bytes, qos: byte, hasCallback: bool)
    requires Sound(s)
    ensures var t := AsyncSubscribe(s, topic, qos, hasCallback);
      && (forall id :: id in s.subs && id in t.subs ==> t.subs[id] == s.subs[id])
      && forall id :: id in t.subs && id !in s.subs ==> id > 0 && id !in Used(s)
  {
    if FirstFree(s.cursor, Used(s)) != 0 {
      FoundIsFree(s.cursor, Used(s));
    }
  }

  // ------------------------------------------------------------ the ids run out too early

  /** After n subscribes that nobody answers. */
  ghost predicate Subscribed(s: State, n: nat) {
    && !s.closed && s.cursor == n % IDS + 1 && s.pubs == map[] && s.recs == map[]
    && (forall id: u16 :: id in s.subs <==> (2 <= id <= n + 1 || (n == IDS && id == 1)))
    && forall id :: id in s.subs ==> !s.subs[id].hasCallback
  }

  lemma NextIdIsFree(s: State, n: nat)
    requires Sound(s) && Subscribed(s, n) && n < IDS
    ensures FirstFree(s.cursor, Used(s)) == (n + 1) % IDS + 1
  {
    var next := Advance(s.cursor);
    assert next != s.cursor && next !in Used(s) && next == (n + 1) % IDS + 1;
    hide Search;
    SearchTurn(s.cursor, Used(s), next);
  }

  lemma OneMoreSubscribe(s: State, n: nat)
    requires Sound(s) && Subscribed(s, n) && n < IDS
    ensures Subscribed(AsyncSubscribe(s, [], 0, false), n + 1)
  {
    hide FirstFree, Used, NotifyClosedOnce;
    NextIdIsFree(s, n);
  }

  lemma {:induction false} ManySubscribes(n: nat) returns (es: seq<Event>)
    requires n <= IDS
    ensures Subscribed(Reached(es), n)
  {
    if n == 0 {
      es := [];
    } else {
      var before := ManySubscribes(n - 1);
      var e := Subscribe([], 0, false);
      hide Run, Subscribed, AsyncSubscribe;
      OneMoreSubscribe(Reached(before), n - 1);
      RunSnoc(INITIAL, before, e);
      es := before + [e];
    }
  }

  /** Every id is in use but the one at the cursor, on an open session. */
  ghost predicate OneIdLeft(s: State) {
    !s.closed && forall id: u16 :: id in Used(s) <==> id > 0 && id != s.cursor
  }

  lemma SizeOfTheRest(used: set<u16>, start: u16, n: nat)
    requires n == IDS && start > 0 && forall id: u16 :: id in used <==> id > 0 && id != start
    ensures |used| == n - 1
  {
    hide Upto;
    AllButOne(start, used, n);
    assert used == Upto(n) - {start};
  }

  lemma FreedAgain(s: State, p: SubackPacket, n: nat)
    requires Subscribed(s, n) && n == IDS && p.packetId == 1
    ensures OneIdLeft(HandleSuback(s, p))
  {
  }

  lemma SubackIsHandled(s: State, p: SubackPacket)
    ensures HandlePacket(s, SubackBytes(p)) == HandleSuback(s, p)
  {
    SubackRoundTrip(p);
    assert SubackBytes(p)[0] / 16 == SUBACK;
    hide SubackBytes, SubackOf, HandleSuback;
  }

  /** The state the comment on acquire_packet_id rules out. */
  ghost predicate OutOfIds(s: State)
    requires Sound(s)
  {
    OneIdLeft(s) && |Used(s)| == IDS - 1 && AsyncSubscribe(s, [], 0, false).closed
  }

  lemma OneIdIsNotEnough(s: State)
    requires Sound(s) && OneIdLeft(s)
    ensures OutOfIds(s)
  {
    SizeOfTheRest(Used(s), s.cursor, IDS);
    ExhaustedIff(s.cursor, Used(s));
    hide FirstFree, Used;
  }

  /**
   65534 outstanding exchanges are enough, in a run: 65535 subscribes use every id, the SUBACK for the
   one at the cursor frees it, and the next subscribe closes the session although an id is free.
   */
  lemma ExhaustedWithAFreeId()
    ensures exists es :: OutOfIds(Reached(es))
  {
    hide Run, Subscribed, HandlePacket, OneIdLeft, OutOfIds, SubackBytes, HandleSuback;
    var n: nat := IDS;
    var before := ManySubscribes(n);
    var p := SubackPacket(1, [0]);
    var e := Packet(SubackBytes(p));
    FreedAgain(Reached(before), p, n);
    SubackIsHandled(Reached(before), p);
    RunSnoc(INITIAL, before, e);
    OneIdIsNotEnough(Reached(before + [e]));
  }
}
