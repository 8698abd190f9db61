/**
 The remaining-length field of MQTT (section 2.2.3 of MQTT 3.1.1): base-128 digits, least
 significant first, bit 7 of a digit saying that another digit follows.
 */
module RemainingLength {
  import opened Bytes

  /** The largest length that four digits can carry. */
  const MAX_LENGTH := 268_435_455

  function Encode(n: nat): (s: bytes)
    ensures |s| >= 1
  {
    if n < 128 then [n] else [n % 128 + 128] + Encode(n / 128)
  }

  /**
   What a decoder that accepts at most `digits` digits makes of a byte string: a value and the
   number of octets it took, a string that ends too early, or a surplus digit.
   */
  datatype Length = Done(value: nat, count: nat) | Truncated | TooLong

  function Decode(s: bytes, digits: nat): (r: Length)
    ensures r.Done? ==> 1 <= r.count <= |s| && r.count <= digits
    ensures r.TooLong? ==> digits < |s|
  {
    if s == [] then Truncated
    else if digits == 0 then TooLong
    else if s[0] < 128 then Done(s[0], 1)
    else match Decode(s[1..], digits - 1)
      case Done(v, c) => Done(s[0] - 128 + 128 * v, c + 1)
      case other => other
  }

  /** The number of values that `k` digits can carry. */
  function Capacity(k: nat): (c: nat)
    ensures c >= 1
  {
    if k == 0 then 1 else 128 * Capacity(k - 1)
  }

  lemma Capacities()
    ensures Capacity(1) == 128
    ensures Capacity(2) == 16_384
    ensures Capacity(3) == 2_097_152
    ensures Capacity(4) == MAX_LENGTH + 1
    ensures Capacity(5) >= U32
  {
    assert Capacity(2) == 128 * Capacity(1);
    assert Capacity(3) == 128 * Capacity(2);
    assert Capacity(4) == 128 * Capacity(3);
    assert Capacity(5) == 128 * Capacity(4);
  }

  lemma {:induction false} DecodedValueFits(s: bytes, digits: nat)
    requires Decode(s, digits).Done?
    ensures Decode(s, digits).value < Capacity(Decode(s, digits).count)
    ensures Decode(s, digits).count <= 4 ==> Decode(s, digits).value <= MAX_LENGTH
  {
    if s[0] >= 128 {
      DecodedValueFits(s[1..], digits - 1);
    }
    var c := Decode(s, digits).count;
    Capacities();
    if c <= 4 {
      CapacityMonotone(c, 4);
    }
  }

  lemma {:induction false} CapacityMonotone(j: nat, k: nat)
    requires j <= k
    ensures Capacity(j) <= Capacity(k)
    decreases k
  {
    if j < k {
      CapacityMonotone(j, k - 1);
    }
  }

  /** A value needs at most k digits exactly when it is below 128^k. */
  lemma {:induction false} EncodedSize(n: nat, k: nat)
    ensures |Encode(n)| <= k <==> k > 0 && n < Capacity(k)
  {
    if k > 0 {
      if n >= 128 {
        EncodedSize(n / 128, k - 1);
        var c := Capacity(k - 1);
        assert n / 128 < c <==> n < 128 * c;
      } else {
        assert Capacity(k) >= 128;
      }
    }
  }

  /** Decoding an encoded value, whatever follows it, returns the value and its size. */
  lemma {:induction false} DecodeEncode(n: nat, rest: bytes, digits: nat)
    ensures Decode(Encode(n) + rest, digits)
         == if |Encode(n)| <= digits then Done(n, |Encode(n)|) else TooLong
  {
    var s := Encode(n) + rest;
    if digits > 0 && n >= 128 {
      assert s[1..] == Encode(n / 128) + rest;
      DecodeEncode(n / 128, rest, digits - 1);
    }
  }

  /**
   No accepted form of a value is shorter than the encoder's, and only the encoder's own form is
   as short: the encoder picks the one minimal form among those a decoder accepts.
   */
  lemma {:induction false} EncodeIsShortest(s: bytes, digits: nat)
    requires Decode(s, digits).Done?
    ensures var r := Decode(s, digits);
      && |Encode(r.value)| <= r.count
      && (|Encode(r.value)| == r.count <==> s[..r.count] == Encode(r.value))
  {
    var r := Decode(s, digits);
    if s[0] < 128 {
      assert s[..1] == [s[0]];
    } else {
      var t := Decode(s[1..], digits - 1);
      EncodeIsShortest(s[1..], digits - 1);
      assert s[..r.count] == [s[0]] + s[1..][..t.count];
      assert r.value / 128 == t.value && r.value % 128 == s[0] - 128;
      if r.value >= 128 {
        assert Encode(r.value) == [s[0]] + Encode(t.value);
        if s[..r.count] == Encode(r.value) {
          assert s[1..][..t.count] == s[..r.count][1..] == Encode(t.value);
        }
      }
    }
  }

  /** Once a decoder has made up its mind, later octets do not change it. */
  lemma {:induction false} DecodeExtend(s: bytes, t: bytes, digits: nat)
    requires !Decode(s, digits).Truncated?
    ensures Decode(s + t, digits) == Decode(s, digits)
  {
    if digits > 0 && s[0] >= 128 {
      assert (s + t)[1..] == s[1..] + t;
      DecodeExtend(s[1..], t, digits - 1);
    }
  }

  /** A decoder looks at no octet beyond the ones it reports. */
  lemma {:induction false} DecodePrefix(s: bytes, digits: nat)
    requires Decode(s, digits).Done?
    ensures Decode(s[..Decode(s, digits).count], digits) == Decode(s, digits)
  {
    var r := Decode(s, digits);
    if s[0] >= 128 {
      assert s[..r.count][1..] == s[1..][..r.count - 1];
      DecodePrefix(s[1..], digits - 1);
    }
  }

  /** A decoder that accepts fewer digits makes of a string what the more generous one tells it. */
  lemma {:induction false} DecodeFewerDigits(s: bytes, few: nat, many: nat)
    requires few <= many
    ensures Decode(s, few) == match Decode(s, many)
      case Done(v, c) => if c <= few then Done(v, c) else TooLong
      case TooLong => TooLong
      case Truncated => if |s| <= few then Truncated else TooLong
  {
    if s != [] && few > 0 && s[0] >= 128 {
      DecodeFewerDigits(s[1..], few - 1, many - 1);
    }
  }

  /**
   The view of a decoder half way: `value` was accumulated from `count` digits, the next digit
   weighs `multiplier`, and `r` is what the remaining octets decode to.
   */
  function Resume(value: nat, multiplier: nat, count: nat, r: Length): Length {
    match r
    case Done(v, c) => Done(value + multiplier * v, count + c)
    case other => other
  }

  /** One turn of an accumulating decoder over a digit that has a successor. */
  lemma ResumeStep(value: nat, multiplier: nat, count: nat, s: bytes, digits: nat)
    requires s != [] && digits > 0 && s[0] >= 128
    ensures Resume(value, multiplier, count, Decode(s, digits))
         == Resume(value + (s[0] - 128) * multiplier, multiplier * 128, count + 1, Decode(s[1..], digits - 1))
  {
    match Decode(s[1..], digits - 1)
    case Done(v, c) =>
      assert multiplier * (s[0] - 128 + 128 * v) == (s[0] - 128) * multiplier + multiplier * 128 * v;
    case Truncated =>
    case TooLong =>
  }

  /**
   What both accumulating decoders of the library know after `count` digits of `s`: the running
   value stays below the running multiplier, and resuming gives what the whole field gives.
   */
  ghost predicate Accumulated(s: bytes, value: nat, multiplier: nat, count: nat) {
    && count <= 4 && count <= |s|
    && multiplier == Capacity(count)
    && value < multiplier
    && Decode(s, 4) == Resume(value, multiplier, count, Decode(s[count..], 4 - count))
  }

  lemma AccumulatedNone(s: bytes)
    ensures Accumulated(s, 0, 1, 0)
  {
    assert s[0..] == s;
  }

  /** The turn of an accumulating decoder: one more digit, added with its weight. */
  lemma AccumulateTurn(s: bytes, value: nat, multiplier: nat, count: nat)
    requires Accumulated(s, value, multiplier, count) && count < |s| && count < 4
    ensures var value' := value + s[count] % 128 * multiplier;
      && value' < multiplier * 128 == Capacity(count + 1)
      && (s[count] >= 128 ==> Accumulated(s, value', multiplier * 128, count + 1))
      && (s[count] < 128 ==> Decode(s, 4) == Done(value', count + 1))
  {
    var b := s[count];
    TermBound(b % 128, value, multiplier);
    if b >= 128 {
      TurnGoesOn(s, value, multiplier, count);
    } else {
      assert b % 128 == b;
      assert Decode(s[count..], 4 - count) == Done(b, 1);
    }
  }

  lemma TurnGoesOn(s: bytes, value: nat, multiplier: nat, count: nat)
    requires Accumulated(s, value, multiplier, count) && count < |s| && count < 4 && s[count] >= 128
    ensures Accumulated(s, value + s[count] % 128 * multiplier, multiplier * 128, count + 1)
  {
    var b := s[count];
    assert s[count..][0] == b && s[count..][1..] == s[count + 1..];
    assert b % 128 == b - 128;
    TermBound(b - 128, value, multiplier);
    ResumeStep(value, multiplier, count, s[count..], 4 - count);
    hide Decode, Resume;
  }

  /** An accumulating decoder that ran out of octets, or out of digits. */
  lemma AccumulatedStuck(s: bytes, value: nat, multiplier: nat, count: nat)
    requires Accumulated(s, value, multiplier, count) && (count == |s| || count == 4)
    ensures Decode(s, 4) == if count == |s| then Truncated else TooLong
  {
  }

  lemma TermBound(digit: nat, value: nat, multiplier: nat)
    requires digit < 128 && value < multiplier
    ensures value + digit * multiplier < multiplier * 128
    ensures digit * multiplier == multiplier * digit
  {
    assert digit * multiplier <= 127 * multiplier;
  }

  /** The multiplier of the first four digits and every term it is used in fit in 32 bits. */
  lemma AccumulatorFits(multiplier: nat, count: nat, digit: byte)
    requires count < 4 && multiplier == Capacity(count)
    ensures multiplier * 128 < U32 && digit % 128 * multiplier < U32
  {
    Capacities();
    CapacityMonotone(count, 3);
    assert digit % 128 * multiplier <= 127 * multiplier;
  }

  /**
   The same knowledge when the octets after the digits have not arrived yet: it holds for every
   continuation.
   */
  ghost predicate Gathered(digits: bytes, value: nat, multiplier: nat) {
    forall rest: bytes :: Accumulated(digits + rest, value, multiplier, |digits|)
  }

  lemma GatheredNone()
    ensures Gathered([], 0, 1)
  {
    forall rest: bytes
      ensures Accumulated([] + rest, 0, 1, 0)
    {
      assert [] + rest == rest && rest[0..] == rest;
    }
  }

  /** A further digit, of a decoder that has not seen what follows it. */
  lemma GatheredTurn(digits: bytes, value: nat, multiplier: nat, b: byte, value': nat)
    requires Gathered(digits, value, multiplier) && |digits| < 4
    requires value' == value + b % 128 * multiplier
    ensures b >= 128 ==> Gathered(digits + [b], value', multiplier * 128)
    ensures b < 128 ==> Decode(digits + [b], 4) == Done(value', |digits| + 1)
  {
    if b >= 128 {
      var multiplier' := multiplier * 128;
      forall rest: bytes
        ensures Accumulated(digits + [b] + rest, value', multiplier', |digits + [b]|)
      {
        GatheredTurnBefore(digits, value, multiplier, b, rest, value');
      }
    } else {
      GatheredTurnBefore(digits, value, multiplier, b, [], value');
      assert digits + [b] + [] == digits + [b];
    }
  }

  lemma GatheredTurnBefore(digits: bytes, value: nat, multiplier: nat, b: byte, rest: bytes, value': nat)
    requires Gathered(digits, value, multiplier) && |digits| < 4
    requires value' == value + b % 128 * multiplier
    ensures b >= 128 ==> Accumulated(digits + [b] + rest, value', multiplier * 128, |digits| + 1)
    ensures b < 128 ==> Decode(digits + [b] + rest, 4) == Done(value', |digits| + 1)
  {
    var s := digits + ([b] + rest);
    assert digits + [b] + rest == s;
    assert Accumulated(s, value, multiplier, |digits|);
    assert s[|digits|] == b;
    AccumulateTurn(s, value, multiplier, |digits|);
  }

  lemma GatheredFull(digits: bytes, value: nat, multiplier: nat, b: byte)
    requires Gathered(digits, value, multiplier) && |digits| == 4
    ensures Decode(digits + [b], 4) == TooLong
  {
    assert Accumulated(digits + [b], value, multiplier, 4);
    assert (digits + [b])[4..] == [b];
  }

  lemma GatheredOpen(digits: bytes, value: nat, multiplier: nat)
    requires Gathered(digits, value, multiplier)
    ensures Decode(digits, 4) == Truncated
  {
    assert digits + [] == digits;
    assert Accumulated(digits + [], value, multiplier, |digits|);
    assert digits[|digits|..] == [];
  }
}
