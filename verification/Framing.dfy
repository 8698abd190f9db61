/**
 Cutting a byte stream into packets. A packet is a type octet, a remaining length of one to four
 digits and as many octets as that length says; it is handed over with its whole fixed header.
 */
module Framing {
  import opened Bytes
  import opened RemainingLength

  predicate ValidType(head: byte) {
    1 <= head / 16 <= 14
  }

  /** A complete packet, octet for octet. */
  predicate WellFormed(f: bytes) {
    && |f| >= 2
    && ValidType(f[0])
    && Decode(f[1..], 4).Done?
    && |f| == 1 + Decode(f[1..], 4).count + Decode(f[1..], 4).value
  }

  /** Why a reader stops: the stream ended inside a packet, or a header was rejected. */
  datatype Stop = Ended | InvalidType | LengthTooLong

  datatype Next = Got(packet: bytes, rest: bytes) | Stopped(stop: Stop)

  function NextFrame(s: bytes): (r: Next)
    ensures r.Got? ==> |r.rest| < |s| && r.packet + r.rest == s && WellFormed(r.packet)
  {
    if |s| < 2 then Stopped(Ended)
    else if !ValidType(s[0]) then Stopped(InvalidType)
    else match Decode(s[1..], 4)
      case Truncated => Stopped(Ended)
      case TooLong => Stopped(LengthTooLong)
      case Done(v, c) =>
        if |s| < 1 + c + v then Stopped(Ended)
        else
          FirstIsWellFormed(s);
          Got(s[..1 + c + v], s[1 + c + v..])
  }

  lemma FirstIsWellFormed(s: bytes)
    requires |s| >= 2 && ValidType(s[0]) && Decode(s[1..], 4).Done?
    requires |s| >= 1 + Decode(s[1..], 4).count + Decode(s[1..], 4).value
    ensures WellFormed(s[..1 + Decode(s[1..], 4).count + Decode(s[1..], 4).value])
  {
    var d := Decode(s[1..], 4);
    var f := s[..1 + d.count + d.value];
    DecodePrefix(s[1..], 4);
    assert f[1..] == s[1..][..d.count] + s[1 + d.count..1 + d.count + d.value];
    DecodeExtend(s[1..][..d.count], s[1 + d.count..1 + d.count + d.value], 4);
  }

  lemma NextOfWellFormed(f: bytes, rest: bytes)
    requires WellFormed(f)
    ensures NextFrame(f + rest) == Got(f, rest)
  {
    assert (f + rest)[1..] == f[1..] + rest;
    DecodeExtend(f[1..], rest, 4);
    assert (f + rest)[..|f|] == f && (f + rest)[|f|..] == rest;
  }

  /** The packets of a stream, the octets from the first one that cannot be had, and why. */
  datatype Deframed = Deframed(frames: seq<bytes>, rest: bytes, stop: Stop)

  function Deframe(s: bytes): Deframed
    decreases |s|
  {
    match NextFrame(s)
    case Stopped(stop) => Deframed([], s, stop)
    case Got(packet, rest) => Prepend([packet], Deframe(rest))
  }

  /** No octet is lost, duplicated or reordered, and only complete packets are handed over. */
  lemma {:induction false} DeframeConserves(s: bytes)
    ensures var d := Deframe(s);
      && Flatten(d.frames) + d.rest == s
      && (forall f <- d.frames :: WellFormed(f))
      && NextFrame(d.rest) == Stopped(d.stop)
    decreases |s|
  {
    match NextFrame(s)
    case Stopped(_) =>
    case Got(packet, rest) =>
      DeframeConserves(rest);
      var d := Deframe(rest);
      FlattenCons(packet, d.frames);
      Associate(packet, Flatten(d.frames), d.rest);
  }

  lemma DeframeStep(packet: bytes, rest: bytes)
    requires WellFormed(packet)
    ensures Deframe(packet + rest) == Prepend([packet], Deframe(rest))
  {
    NextOfWellFormed(packet, rest);
  }

  function Prepend(frames: seq<bytes>, d: Deframed): Deframed {
    d.(frames := frames + d.frames)
  }

  lemma PrependTwice(first: seq<bytes>, second: seq<bytes>, d: Deframed)
    ensures Prepend(first, Prepend(second, d)) == Prepend(first + second, d)
  {
    assert first + (second + d.frames) == first + second + d.frames;
  }

  lemma PrependNothing(d: Deframed)
    ensures Prepend([], d) == d
  {
    assert [] + d.frames == d.frames;
  }

  /** Deframing undoes concatenation, whatever follows the packets. */
  lemma {:induction false} DeframeInvertsConcatenation(frames: seq<bytes>, rest: bytes)
    requires forall i :: 0 <= i < |frames| ==> WellFormed(frames[i])
    ensures Deframe(Flatten(frames) + rest) == Prepend(frames, Deframe(rest))
  {
    if frames == [] {
      assert Flatten([]) + rest == rest;
      PrependNothing(Deframe(rest));
    } else {
      Associate(frames[0], Flatten(frames[1..]), rest);
      DeframeInvertsConcatenation(frames[1..], rest);
      DeframeStep(frames[0], Flatten(frames[1..]) + rest);
      PrependTwice([frames[0]], frames[1..], Deframe(rest));
      assert [frames[0]] + frames[1..] == frames;
    }
  }

  /** The parser re-reads the length field: it always announces exactly the octets that follow it. */
  lemma DeliveredLengthIsExact(s: bytes, i: nat)
    requires i < |Deframe(s).frames|
    ensures var f := Deframe(s).frames[i];
      && 2 <= |f| <= 5 + MAX_LENGTH
      && Decode(f[1..], 4).Done? && Decode(f[1..], 4).value == |f| - 1 - Decode(f[1..], 4).count
  {
    DeframeConserves(s);
    var f := Deframe(s).frames[i];
    assert f in Deframe(s).frames;
    DecodedValueFits(f[1..], 4);
  }

  /** What a read chain posts to the reader of the connection. */
  datatype Delivery = Packet(data: bytes) | Failed(stop: Stop)

  function Packets(frames: seq<bytes>): seq<Delivery> {
    seq(|frames|, i requires 0 <= i < |frames| => Packet(frames[i]))
  }

  lemma PacketsSnoc(frames: seq<bytes>, last: bytes)
    ensures Packets(frames + [last]) == Packets(frames) + [Packet(last)]
  {
  }

  function Deliveries(d: Deframed): seq<Delivery> {
    Packets(d.frames) + [Failed(d.stop)]
  }

  /** The outstanding read of a chain and the number of octets it waits for. */
  datatype Phase = Idle | AwaitHeader | AwaitLength | AwaitBody(length: nat)

  /**
   The reading half of the connection: one asynchronous read of an exact number of octets at a
   time, each completion starting the next one.
   */
  class FrameReader {
    var phase: Phase
    var readingDepth: nat
    var readHeader: bytes      // type octet and all length digits so far
    var bytesRead: nat         // length digits read
    var multiplier: nat
    var remainingLength: nat
    var posted: seq<Delivery>  // handler invocations, in order
    ghost var partial: bytes   // every octet this chain has read

    ghost predicate Valid()
      reads this
    {
      && readingDepth == (if phase.Idle? then 0 else 1)
      && (phase.AwaitHeader? ==> partial == [])
      && (phase.AwaitLength? || phase.AwaitBody? ==>
            && partial == readHeader
            && |readHeader| >= 2 && ValidType(readHeader[0]))
      && (phase.AwaitLength? ==>
            && bytesRead == |readHeader| - 1 <= 4
            && Gathered(readHeader[1..], remainingLength, multiplier))
      && (phase.AwaitBody? ==>
            && phase.length > 0
            && Decode(readHeader[1..], 4) == Done(phase.length, |readHeader| - 1))
    }

    /** The number of octets the outstanding read asked for. */
    function Wanted(): nat
      reads this
    {
      match phase
      case Idle => 0
      case AwaitHeader => 2
      case AwaitLength => 1
      case AwaitBody(n) => n
    }

    /** What the octets of a finished chain must be, given what it posted. */
    ghost predicate Justified(d: Delivery, octets: bytes) {
      match d
      case Packet(data) => data == octets && WellFormed(octets)
      case Failed(InvalidType) => |octets| == 2 && !ValidType(octets[0])
      case Failed(LengthTooLong) => |octets| == 6 && ValidType(octets[0]) && Decode(octets[1..], 4).TooLong?
      case Failed(Ended) => false
    }

    constructor ()
      ensures Valid() && phase.Idle? && posted == []
    {
      phase := Idle;
      readingDepth := 0;
      readHeader := [];
      bytesRead := 0;
      multiplier := 1;
      remainingLength := 0;
      posted := [];
      partial := [];
    }

    /** Starts a chain, unless one is under way: then the call is dropped. */
    method AsyncReadPacket()
      requires Valid()
      modifies this
      ensures Valid() && posted == old(posted) && !phase.Idle?
      ensures old(phase).Idle? ==> phase.AwaitHeader? && partial == []
      ensures !old(phase).Idle? ==> phase == old(phase) && partial == old(partial)
    {
      if readingDepth > 0 {
        return;
      }
      readingDepth := readingDepth + 1;
      phase := AwaitHeader;
      partial := [];
    }

    /** The outstanding read failed: the chain ends with the error. */
    method Abort()
      requires Valid() && !phase.Idle?
      modifies this
      ensures Valid() && phase.Idle? && readingDepth == 0 && partial == old(partial)
      ensures posted == old(posted) + [Failed(Ended)]
    {
      Finish(Failed(Ended));
    }

    method Finish(d: Delivery)
      requires readingDepth == 1
      modifies this
      ensures phase.Idle? && readingDepth == 0 && partial == old(partial)
      ensures posted == old(posted) + [d]
    {
      readingDepth := 0;
      phase := Idle;
      posted := posted + [d];
    }

    /**
     The outstanding read completed. The chain goes on without posting, or it posts once, resets
     the depth and has read exactly the octets that justify what it posted.
     */
    method Complete(data: bytes)
      requires Valid() && !phase.Idle? && |data| == Wanted()
      modifies this
      ensures Valid() && partial == old(partial) + data
      ensures !phase.Idle? ==> posted == old(posted) && !phase.AwaitHeader?
      ensures phase.Idle? ==>
        && readingDepth == 0
        && |posted| == |old(posted)| + 1 && posted[..|posted| - 1] == old(posted)
        && Justified(posted[|posted| - 1], partial)
    {
      partial := partial + data;
      match phase {
        case AwaitHeader =>
          OnFixedHeader(data[0], data[1]);
        case AwaitLength =>
          OnLengthDigit(data[0]);
        case AwaitBody(n) =>
          BodyCompletes(readHeader, data);
          Finish(Packet(readHeader + data));
      }
    }

    method OnFixedHeader(first: byte, second: byte)
      requires phase.AwaitHeader? && readingDepth == 1 && partial == [first, second]
      modifies this
      ensures Valid() && partial == old(partial)
      ensures !phase.Idle? ==> posted == old(posted) && !phase.AwaitHeader?
      ensures phase.Idle? ==>
        && |posted| == |old(posted)| + 1 && posted[..|posted| - 1] == old(posted)
        && Justified(posted[|posted| - 1], partial)
    {
      if !ValidType(first) {
        Finish(Failed(InvalidType));
        return;
      }
      readHeader := [first, second];
      assert readHeader[1..] == [] + [second];
      GatheredNone();
      GatheredTurn([], 0, 1, second, second % 128);
      bytesRead := 1;
      remainingLength := second % 128;
      multiplier := 128;
      if second >= 128 {
        phase := AwaitLength;
      } else {
        ReadPacketBody();
      }
    }

    method OnLengthDigit(b: byte)
      requires phase.AwaitLength? && readingDepth == 1 && partial == readHeader + [b]
      requires |readHeader| >= 2 && ValidType(readHeader[0]) && bytesRead == |readHeader| - 1 <= 4
      requires Gathered(readHeader[1..], remainingLength, multiplier)
      modifies this
      ensures Valid() && partial == old(partial)
      ensures !phase.Idle? ==> posted == old(posted) && !phase.AwaitHeader?
      ensures phase.Idle? ==>
        && |posted| == |old(posted)| + 1 && posted[..|posted| - 1] == old(posted)
        && Justified(posted[|posted| - 1], partial)
    {
      ghost var digits := readHeader[1..];
      assert (readHeader + [b])[1..] == digits + [b];
      if bytesRead == 4 {
        GatheredFull(digits, remainingLength, multiplier, b);
      } else {
        GatheredTurn(digits, remainingLength, multiplier, b, remainingLength + b % 128 * multiplier);
      }
      bytesRead := bytesRead + 1;
      remainingLength := remainingLength + b % 128 * multiplier;
      multiplier := multiplier * 128;
      if bytesRead > 4 {
        Finish(Failed(LengthTooLong));
        return;
      }
      readHeader := readHeader + [b];
      if b < 128 {
        ReadPacketBody();
      }
    }

    method ReadPacketBody()
      requires readingDepth == 1 && partial == readHeader && |readHeader| >= 2 && ValidType(readHeader[0])
      requires Decode(readHeader[1..], 4) == Done(remainingLength, |readHeader| - 1)
      modifies this
      ensures Valid() && partial == old(partial)
      ensures !phase.Idle? ==> posted == old(posted) && phase.AwaitBody?
      ensures phase.Idle? ==>
        && |posted| == |old(posted)| + 1 && posted[..|posted| - 1] == old(posted)
        && Justified(posted[|posted| - 1], partial)
    {
      if remainingLength == 0 {
        Finish(Packet(readHeader));
      } else {
        phase := AwaitBody(remainingLength);
      }
    }

    lemma BodyCompletes(header: bytes, body: bytes)
      requires |header| >= 2 && ValidType(header[0])
      requires Decode(header[1..], 4) == Done(|body|, |header| - 1)
      ensures WellFormed(header + body)
    {
      assert (header + body)[1..] == header[1..] + body;
      DecodeExtend(header[1..], body, 4);
    }

    /** A finished chain decides what the stream it was reading starts with. */
    lemma ChainDecides(d: Delivery, octets: bytes, unread: bytes)
      requires Justified(d, octets)
      ensures d.Packet? ==> NextFrame(octets + unread) == Got(d.data, unread)
      ensures d.Failed? ==> NextFrame(octets + unread) == Stopped(d.stop)
    {
      if d.Packet? {
        NextOfWellFormed(octets, unread);
      } else if d.stop == LengthTooLong {
        assert (octets + unread)[1..] == octets[1..] + unread;
        DecodeExtend(octets[1..], unread, 4);
      }
    }

    /** A chain that waits for more octets than there are has met the end of the stream. */
    lemma ShortReadEnds(unread: bytes)
      requires Valid() && !phase.Idle? && |unread| < Wanted()
      ensures NextFrame(partial + unread) == Stopped(Ended)
    {
      match phase
      case AwaitHeader =>
      case AwaitLength =>
        assert unread == [] && partial + unread == partial;
        GatheredOpen(partial[1..], remainingLength, multiplier);
      case AwaitBody(n) =>
        assert (partial + unread)[1..] == partial[1..] + unread;
        DecodeExtend(partial[1..], unread, 4);
    }

    /** What one chain against `stream` must have posted, and the octets it must have left. */
    ghost predicate ChainDone(before: seq<Delivery>, stream: bytes, unread: bytes)
      reads this
    {
      match NextFrame(stream)
      case Got(packet, rest) => posted == before + [Packet(packet)] && unread == rest
      case Stopped(stop) => posted == before + [Failed(stop)]
    }

    /** One chain against a stream. */
    method ReadOne(stream: bytes) returns (unread: bytes)
      requires Valid() && phase.Idle?
      modifies this
      ensures Valid() && phase.Idle? && partial + unread == stream
      ensures ChainDone(old(posted), stream, unread)
    {
      AsyncReadPacket();
      unread := stream;
      assert partial + unread == stream;
      while !phase.Idle?
        invariant Valid() && partial + unread == stream
        invariant if phase.Idle? then ChainDone(old(posted), stream, unread) else posted == old(posted)
        decreases !phase.Idle?, |unread|
      {
        var n := Wanted();
        if n <= |unread| {
          ghost var rest := unread[n..];
          Associate(partial, unread[..n], rest);
          assert unread[..n] + rest == unread;
          Complete(unread[..n]);
          unread := unread[n..];
          if phase.Idle? {
            ghost var d := posted[|posted| - 1];
            ChainDecides(d, partial, unread);
            assert posted == old(posted) + [d];
          }
        } else {
          ShortReadEnds(unread);
          Abort();
        }
      }
    }

    /**
     The read loop of the client: a delivered packet starts the next chain, an error ends the loop.
     The whole stream is accounted for.
     */
    method ReadLoop(stream: bytes) returns (unread: bytes)
      requires Valid() && phase.Idle?
      modifies this
      ensures Valid() && phase.Idle? && readingDepth == 0
      ensures posted == old(posted) + Deliveries(Deframe(stream))
      ensures Flatten(Deframe(stream).frames) + partial + unread == stream
    {
      unread := stream;
      ghost var frames: seq<bytes> := [];
      var more := true;
      PrependNothing(Deframe(stream));
      while more
        invariant Valid() && phase.Idle?
        invariant more ==> Deframe(stream) == Prepend(frames, Deframe(unread))
        invariant more ==> posted == old(posted) + Packets(frames)
        invariant !more ==> posted == old(posted) + Deliveries(Deframe(stream))
        invariant !more ==> Deframe(stream).rest == partial + unread
        decreases more, |unread|
      {
        ghost var before := unread;
        unread := ReadOne(unread);
        more := posted[|posted| - 1].Packet?;
        ghost var next := NextFrame(before);
        if next.Got? {
          PrependTwice(frames, [next.packet], Deframe(next.rest));
          PacketsSnoc(frames, next.packet);
          frames := frames + [next.packet];
        } else {
          assert Deframe(stream).frames == frames;
        }
      }
      DeframeConserves(stream);
      Associate(Flatten(Deframe(stream).frames), partial, unread);
    }
  }
}
