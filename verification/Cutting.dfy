/**
 What the three deframers cut out of a stream, in plain numbers: which types, how many length digits and
 which lengths each accepts, and what each rejects.
 */
module Cutting {
  import opened Bytes
  import opened RemainingLength
  import opened Framing
  import opened BrokerFraming
  import opened Octets

  lemma FieldIff(s: bytes, digits: nat)
    ensures Decode(s, digits).Done? <==> exists k: nat :: k <= digits && FieldAtFront(s, k)
    ensures Decode(s, digits).Done? ==> FieldAtFront(s, Decode(s, digits).count)
  {
    if Decode(s, digits).Done? {
      DecodeIsPositional(s, digits);
      assert FieldAtFront(s, Decode(s, digits).count);
    }
    if exists k: nat :: k <= digits && FieldAtFront(s, k) {
      var k: nat :| k <= digits && FieldAtFront(s, k);
      FieldDecodes(s, k, digits);
    }
  }

  /** Only digits that announce another one, and then the other one. */
  predicate Surplus(s: bytes, digits: nat) {
    |s| > digits && forall i :: 0 <= i < digits ==> s[i] >= 128
  }

  lemma {:induction false} SurplusIff(s: bytes, digits: nat)
    ensures Decode(s, digits).TooLong? <==> Surplus(s, digits)
    decreases digits
  {
    if s != [] && digits > 0 && s[0] >= 128 {
      SurplusIff(s[1..], digits - 1);
      assert Surplus(s, digits) <==> Surplus(s[1..], digits - 1) by {
        SurplusFront(s, digits);
      }
    }
  }

  lemma SurplusFront(s: bytes, digits: nat)
    requires s != [] && digits > 0 && s[0] >= 128
    ensures Surplus(s, digits) <==> Surplus(s[1..], digits - 1)
  {
    if Surplus(s[1..], digits - 1) {
      forall i | 0 <= i < digits
        ensures s[i] >= 128
      {
        assert i > 0 ==> s[1..][i - 1] == s[i];
      }
    }
  }

  /** A packet of n octets at the front: its type, k digits of length, and as many octets as they say. */
  predicate PacketAtFront(s: bytes, k: nat, n: nat) {
    s != [] && FieldAtFront(s[1..], k) && n == 1 + k + Weighed(s[1..][..k]) <= |s|
  }

  lemma PacketIff(s: bytes, n: nat, digits: nat)
    requires s != []
    ensures var r := Decode(s[1..], digits);
      (exists k: nat :: k <= digits && PacketAtFront(s, k, n)) <==> r.Done? && n == 1 + r.count + r.value <= |s|
  {
    var r := Decode(s[1..], digits);
    FieldIff(s[1..], digits);
    if exists k: nat :: k <= digits && PacketAtFront(s, k, n) {
      var k: nat :| k <= digits && PacketAtFront(s, k, n);
      FieldDecodes(s[1..], k, digits);
    }
    if r.Done? && n == 1 + r.count + r.value <= |s| {
      FieldDecodes(s[1..], r.count, digits);
      assert PacketAtFront(s, r.count, n);
    }
  }

  /**
   The connection takes a packet from the front of a stream exactly if its type is 1 to 14 and its length
   field has at most four digits; it rejects exactly the types 0 and 15, and four digits that are followed
   by a fifth.
   */
  lemma FrameIff(s: bytes, n: nat)
    requires |s| >= 2
    ensures NextFrame(s).Got? && |NextFrame(s).packet| == n
       <==> 16 <= s[0] < 240 && exists k: nat :: k <= 4 && PacketAtFront(s, k, n)
    ensures NextFrame(s) == Stopped(InvalidType) <==> s[0] < 16 || s[0] >= 240
    ensures NextFrame(s) == Stopped(LengthTooLong) <==> 16 <= s[0] < 240 && Surplus(s[1..], 4)
  {
    PacketIff(s, n, 4);
    SurplusIff(s[1..], 4);
    hide Decode, PacketAtFront, Surplus;
  }

  /**
   The framing broker takes any type, at most four digits and at most 16777216 octets, and a larger length
   is nonsense. The chaos broker takes at most three digits, a fourth is nonsense, and a DISCONNECT hangs
   up. Anything else is unfinished.
   */
  lemma CutIff(buf: bytes, n: nat)
    requires |buf| >= 2
    ensures CutOf(Probe, buf) == Take(n) <==> (exists k: nat :: k <= 4 && PacketAtFront(buf, k, n)) && !Oversized(buf)
    ensures CutOf(Probe, buf) == Nonsense <==> Oversized(buf)
    ensures CutOf(Chaos, buf) == Take(n) <==> exists k: nat :: k <= 3 && PacketAtFront(buf, k, n)
    ensures CutOf(Chaos, buf) == Nonsense <==> Surplus(buf[1..], 3)
    ensures !Hangup(Probe, buf) && (Hangup(Chaos, buf) <==> 224 <= buf[0] < 240)
  {
    PacketIff(buf, n, 4);
    PacketIff(buf, n, 3);
    SurplusIff(buf[1..], 3);
    OversizedIff(buf);
    hide Decode, PacketAtFront, Surplus, Oversized;
  }

  ghost predicate Oversized(buf: bytes)
    requires buf != []
  {
    exists k: nat :: k <= 4 && FieldAtFront(buf[1..], k) && Weighed(buf[1..][..k]) > 16_777_216
  }

  lemma OversizedIff(buf: bytes)
    requires buf != []
    ensures var r := Decode(buf[1..], 4); Oversized(buf) <==> r.Done? && r.value > 16_777_216
  {
    var r := Decode(buf[1..], 4);
    FieldIff(buf[1..], 4);
    if Oversized(buf) {
      var k: nat :| k <= 4 && FieldAtFront(buf[1..], k) && Weighed(buf[1..][..k]) > 16_777_216;
      FieldDecodes(buf[1..], k, 4);
    }
    if r.Done? {
      FieldDecodes(buf[1..], r.count, 4);
    }
  }
}
