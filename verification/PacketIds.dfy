/**
 Choosing a packet id: the first id after a cursor, in cyclic order and without the reserved 0,
 that no outstanding exchange uses (section 2.3.1 of MQTT 3.1.1).
 */
module PacketIds {
  import opened Bytes

  const IDS := 65_535

  /** The k-th id after `start`; 65535 is followed by 1. */
  function Nth(start: u16, k: nat): (id: u16)
    requires start > 0
    ensures id > 0
  {
    (start - 1 + k) % IDS + 1
  }

  /** The 16-bit increment of the cursor, with the step over 0. */
  function Advance(id: u16): u16 {
    var next := (id + 1) % 0x1_0000;
    if next == 0 then (next + 1) % 0x1_0000 else next
  }

  lemma AdvanceIsNext(start: u16, k: nat)
    requires start > 0
    ensures Advance(Nth(start, k)) == Nth(start, k + 1)
    ensures Nth(start, 0) == start && (0 < k < IDS ==> Nth(start, k) != start)
  {
  }

  /** How far the cursor has to move from `id` until it is back at `start`. */
  function Gap(start: u16, id: u16): nat {
    if id <= start then start - id else start - id + IDS
  }

  /** The cursor moves on until an id is free or it is back at `start`: then there is none, which is 0. */
  function Search(start: u16, used: set<u16>, id: u16): u16
    requires start > 0 && id > 0
    decreases Gap(start, id)
  {
    if id == start then 0
    else if id !in used then id
    else Search(start, used, Advance(id))
  }

  function FirstFree(start: u16, used: set<u16>): u16
    requires start > 0
  {
    Search(start, used, Advance(start))
  }

  /** One turn of the search, and what it takes from the way back to `start`. */
  lemma SearchTurn(start: u16, used: set<u16>, id: u16)
    requires start > 0 && id > 0
    ensures Advance(id) > 0
    ensures id == start ==> Search(start, used, id) == 0
    ensures id != start && id !in used ==> Search(start, used, id) == id
    ensures id != start && id in used ==> Search(start, used, id) == Search(start, used, Advance(id))
    ensures id != start ==> Gap(start, Advance(id)) < Gap(start, id)
  {
  }

  /** What the search returns, said without the search. */
  ghost predicate IsFirstFree(start: u16, used: set<u16>, from: nat, id: u16)
    requires start > 0
  {
    if id == 0 then forall j :: from <= j < IDS ==> Nth(start, j) in used
    else exists k :: from <= k < IDS && id == Nth(start, k) && id !in used
           && forall j :: from <= j < k ==> Nth(start, j) in used
  }

  lemma {:induction false} SearchIsFirst(start: u16, used: set<u16>, from: nat)
    requires start > 0 && 1 <= from <= IDS
    ensures IsFirstFree(start, used, from, Search(start, used, Nth(start, from)))
    decreases IDS - from
  {
    AdvanceIsNext(start, from);
    if from < IDS && Nth(start, from) in used {
      SearchIsFirst(start, used, from + 1);
      var id := Search(start, used, Nth(start, from + 1));
      if id != 0 {
        var k :| from + 1 <= k < IDS && id == Nth(start, k) && id !in used
                 && forall j :: from + 1 <= j < k ==> Nth(start, j) in used;
      }
    }
  }

  lemma FirstFreeIsFirst(start: u16, used: set<u16>)
    requires start > 0
    ensures IsFirstFree(start, used, 1, FirstFree(start, used))
  {
    AdvanceIsNext(start, 0);
    SearchIsFirst(start, used, 1);
  }

  /** Every id other than `start` is one of its first 65534 successors. */
  lemma OffsetOf(start: u16, id: u16) returns (k: nat)
    requires start > 0 && id > 0 && id != start
    ensures 1 <= k < IDS && Nth(start, k) == id
  {
    k := if id > start then id - start else id - start + IDS;
  }

  /** The search fails exactly when every id other than the cursor itself is in use. */
  lemma ExhaustedIff(start: u16, used: set<u16>)
    requires start > 0
    ensures FirstFree(start, used) == 0 <==> forall id: u16 :: id > 0 && id != start ==> id in used
  {
    FirstFreeIsFirst(start, used);
    var r := FirstFree(start, used);
    if r == 0 {
      forall id: u16 | id > 0 && id != start
        ensures id in used
      {
        var k := OffsetOf(start, id);
      }
    } else {
      var k :| 1 <= k < IDS && r == Nth(start, k) && r !in used;
      assert r != start;
    }
  }

  /** A found id is free, nonzero and not the cursor it started from. */
  lemma FoundIsFree(start: u16, used: set<u16>)
    requires start > 0 && FirstFree(start, used) != 0
    ensures FirstFree(start, used) !in used && FirstFree(start, used) != start
  {
    FirstFreeIsFirst(start, used);
  }

  /** Failure therefore takes at least 65534 outstanding ids. */
  lemma ExhaustionNeedsAlmostAll(start: u16, used: set<u16>)
    requires start > 0 && FirstFree(start, used) == 0
    ensures |used| >= IDS - 1
  {
    ExhaustedIff(start, used);
    AllButOne(start, used, IDS);
  }

  lemma AllButOne(start: u16, used: set<u16>, n: nat)
    requires 1 <= start <= n <= IDS
    requires forall id: u16 :: 1 <= id <= n && id != start ==> id in used
    ensures |used| >= n - 1
    ensures |Upto(n) - {start}| == n - 1
  {
    UptoSize(n);
    SubsetSize(Upto(n) - {start}, used);
  }

  /**
   The id at the cursor is never tried: with every other id in use the search gives up although the
   id at the cursor is free, so 65534 outstanding ids, not 65535, are enough to exhaust it.
   */
  lemma CursorIsNeverTried(start: u16)
    requires start > 0
    ensures exists used: set<u16> :: start !in used && |used| == IDS - 1 && FirstFree(start, used) == 0
  {
    var used := OthersUpTo(start, IDS);
    ExhaustedIff(start, used);
    assert start !in used && |used| == IDS - 1;
  }

  lemma OthersUpTo(start: u16, n: nat) returns (used: set<u16>)
    requires 1 <= start <= n <= IDS
    ensures start !in used && |used| == n - 1
    ensures forall id: u16 :: 1 <= id <= n && id != start ==> id in used
  {
    used := Upto(n) - {start};
    AllButOne(start, used, n);
  }

  function Upto(n: nat): (ids: set<u16>)
    requires n <= IDS
    ensures forall id: u16 :: id in ids <==> 1 <= id <= n
  {
    if n == 0 then {} else Upto(n - 1) + {n}
  }

  lemma {:induction false} UptoSize(n: nat)
    requires n <= IDS
    ensures |Upto(n)| == n
  {
    if n > 0 {
      UptoSize(n - 1);
    }
  }

  lemma {:induction false} SubsetSize(a: set<u16>, b: set<u16>)
    requires a <= b
    ensures |a| <= |b|
  {
    if a != {} {
      var x :| x in a;
      SubsetSize(a - {x}, b - {x});
    }
  }
}
