/**
 The append-only writer and the cursor reader that every packet is built and taken apart with.
 The functions say what a field looks like and what a reader leaves behind, also on short input;
 the classes are the two buffers of the library.
 */
module Buffers {
  import opened Bytes
  import opened RemainingLength

  /** A string with its length in front. The length is cut to 16 bits, the string is not. */
  function StringField(str: bytes): bytes {
    WordBytes(|str| % 0x1_0000) + str
  }

  /** The digits written for a length, which is cut to 32 bits first. */
  function LengthField(length: nat): bytes {
    Encode(length % U32)
  }

  // What a reader makes of the octets in front of it: the value (zero or empty when there are too
  // few octets) and the octets it leaves unread.

  function TakeByte(s: bytes): (byte, bytes) {
    if s == [] then (0, s) else (s[0], s[1..])
  }

  function TakeWord(s: bytes): (u16, bytes) {
    if |s| < 2 then (0, s) else (Word(s[0], s[1]), s[2..])
  }

  /** A string whose announced length exceeds the buffer is lost, but its length is consumed. */
  function TakeString(s: bytes): (r: (bytes, bytes))
    ensures |r.0| < 0x1_0000
    ensures |r.0| + |r.1| <= |s|
  {
    if |s| < 2 then ([], s)
    else
      var len := Word(s[0], s[1]);
      if 2 + len > |s| then ([], s[2..]) else (s[2..2 + len], s[2 + len..])
  }

  /** The octets after the length field; a field with a surplus digit loses that digit as well. */
  function AfterLength(s: bytes): (r: bytes)
    ensures |r| <= |s|
  {
    match Decode(s, 4)
    case Done(_, c) => s[c..]
    case Truncated => []
    case TooLong => s[5..]
  }

  lemma TakeWordBack(v: u16, rest: bytes)
    ensures TakeWord(WordBytes(v) + rest) == (v, rest)
  {
    assert (WordBytes(v) + rest)[2..] == rest;
  }

  lemma TakeStringBack(str: bytes, rest: bytes)
    requires |str| < 0x1_0000
    ensures TakeString(StringField(str) + rest) == (str, rest)
  {
    var s := StringField(str) + rest;
    assert Word(s[0], s[1]) == |str|;
    assert s[2..2 + |str|] == str && s[2 + |str|..] == rest;
  }

  /**
   The reader finds the body behind any length field the writer makes, including the five-digit
   ones it reports as malformed: a rejected field is consumed whole.
   */
  lemma AfterLengthBack(length: nat, rest: bytes)
    ensures AfterLength(LengthField(length) + rest) == rest
  {
    var n := length % U32;
    DecodeEncode(n, rest, 4);
    EncodedSize(n, 5);
    Capacities();
    assert (Encode(n) + rest)[|Encode(n)|..] == rest;
  }

  class BufferWriter {
    var buf: bytes

    constructor ()
      ensures buf == []
    {
      buf := [];
    }

    method WriteUint8(value: byte)
      modifies this
      ensures buf == old(buf) + [value]
    {
      buf := buf + [value];
    }

    method WriteUint16(value: u16)
      modifies this
      ensures buf == old(buf) + WordBytes(value)
      ensures var n := old(|buf|); |buf| == n + 2 && buf[..n] == old(buf) && buf[n] as int * 256 + buf[n + 1] == value
    {
      buf := buf + [value / 256];
      buf := buf + [value % 256];
    }

    method WriteString(str: bytes)
      modifies this
      ensures buf == old(buf) + StringField(str)
    {
      WriteUint16(|str| % 0x1_0000);
      if str != [] {
        buf := buf + str;
      }
    }

    method WriteBytes(data: bytes)
      modifies this
      ensures buf == old(buf) + data
    {
      if data == [] {
        return;
      }
      buf := buf + data;
    }

    method WriteRemainingLength(length: nat)
      modifies this
      ensures buf == old(buf) + LengthField(length)
    {
      var val: nat := length % U32;
      var more := true;
      while more
        invariant more ==> buf + Encode(val) == old(buf) + LengthField(length)
        invariant !more ==> buf == old(buf) + LengthField(length)
        decreases more, val
      {
        var digit := val % 128;
        var rest: nat := val / 128;
        if rest > 0 {
          digit := digit + 128;
          assert buf + Encode(val) == buf + [digit] + Encode(rest);
        } else {
          assert buf + Encode(val) == buf + [digit];
        }
        buf := buf + [digit];
        val := rest;
        more := val > 0;
      }
    }
  }

  class BufferReader {
    const buf: bytes
    var pos: nat

    ghost predicate Valid()
      reads this
    {
      pos <= |buf|
    }

    /** The octets that have not been read. */
    ghost function Rest(): bytes
      reads this
      requires Valid()
    {
      buf[pos..]
    }

    constructor (data: bytes)
      ensures Valid() && Rest() == data && buf == data
    {
      buf := data;
      pos := 0;
    }

    method ReadUint8() returns (ok: bool, value: byte)
      requires Valid()
      modifies this
      ensures Valid()
      ensures ok == (old(Rest()) != [])
      ensures (value, Rest()) == TakeByte(old(Rest()))
    {
      if pos >= |buf| {
        return false, 0;
      }
      value := buf[pos];
      pos := pos + 1;
      ok := true;
    }

    method ReadUint16() returns (ok: bool, value: u16)
      requires Valid()
      modifies this
      ensures Valid()
      ensures ok == (|old(Rest())| >= 2)
      ensures (value, Rest()) == TakeWord(old(Rest()))
      ensures ok ==> value == old(Rest())[0] as int * 256 + old(Rest())[1]
    {
      if pos + 2 > |buf| {
        return false, 0;
      }
      value := Word(buf[pos], buf[pos + 1]);
      pos := pos + 2;
      ok := true;
    }

    method ReadString() returns (ok: bool, str: bytes)
      requires Valid()
      modifies this
      ensures Valid()
      ensures ok == (|old(Rest())| >= 2 && |old(Rest())| >= 2 + TakeWord(old(Rest())).0)
      ensures (str, Rest()) == TakeString(old(Rest()))
    {
      var got, len := ReadUint16();
      if !got {
        return false, [];
      }
      if len == 0 {
        return true, [];
      }
      if pos + len > |buf| {
        return false, [];
      }
      str := buf[pos..pos + len];
      assert str == old(Rest())[2..2 + len];
      pos := pos + len;
      ok := true;
    }

    method ReadBytes(len: nat) returns (ok: bool, data: bytes)
      requires Valid()
      modifies this
      ensures Valid()
      ensures ok == (|old(Rest())| >= len)
      ensures if ok then data + Rest() == old(Rest()) && |data| == len else data == [] && Rest() == old(Rest())
    {
      if pos + len > |buf| {
        return false, [];
      }
      data := buf[pos..pos + len];
      pos := pos + len;
      ok := true;
    }

    /**
     The accumulating decoder. Its 32-bit multiplier and each term it adds stay below 2^32, so
     the unbounded arithmetic here is the arithmetic of the machine.
     */
    method ReadRemainingLength() returns (ok: bool, value: nat)
      requires Valid()
      modifies this
      ensures Valid()
      ensures Rest() == AfterLength(old(Rest()))
      ensures ok == Decode(old(Rest()), 4).Done?
      ensures ok ==> value == Decode(old(Rest()), 4).value
      ensures value < U32
    {
      ghost var s := Rest();
      AccumulatedNone(s);
      assert s[0..] == s;
      hide Decode, Accumulated, Capacity;
      value := 0;
      var multiplier: nat := 1;
      var bytesRead := 0;
      var more := true;
      while more
        invariant Valid() && bytesRead <= |s| && Rest() == s[bytesRead..] && bytesRead <= 4
        invariant more ==> Accumulated(s, value, multiplier, bytesRead)
        invariant !more ==> Decode(s, 4) == Done(value, bytesRead)
        invariant value <= MAX_LENGTH
        decreases more, 5 - bytesRead
      {
        if bytesRead == |s| || bytesRead == 4 {
          AccumulatedStuck(s, value, multiplier, bytesRead);
        }
        var got, digit := ReadUint8();
        if !got {
          return false, value;
        }
        assert s[bytesRead..][1..] == s[bytesRead + 1..];
        bytesRead := bytesRead + 1;
        if bytesRead > 4 {
          return false, value;
        }
        AccumulateTurn(s, value, multiplier, bytesRead - 1);
        AccumulatorFits(multiplier, bytesRead - 1, digit);
        Capacities();
        CapacityMonotone(bytesRead, 4);
        value := value + digit % 128 * multiplier;
        multiplier := multiplier * 128;
        more := digit >= 128;
      }
      ok := true;
    }

    method IsEmpty() returns (empty: bool)
      requires Valid()
      ensures empty == (Rest() == [])
    {
      empty := pos >= |buf|;
    }

    method Remaining() returns (n: nat)
      requires Valid()
      ensures n == |Rest()|
    {
      n := |buf| - pos;
    }
  }
}
