/** Publishes on their way from one end to the other: serialized, concatenated, deframed, parsed. */
module EndToEnd {
  import opened Bytes
  import opened RemainingLength
  import opened Buffers
  import opened Packets
  import opened Framing

  /** The stream a list of publishes becomes. */
  function Wire(ps: seq<PublishPacket>): bytes {
    if ps == [] then [] else PublishBytes(ps[0]) + Wire(ps[1..])
  }

  function ParseAll(frames: seq<bytes>): (ps: seq<PublishPacket>)
    ensures |ps| == |frames|
  {
    if frames == [] then [] else [PublishOf(frames[0])] + ParseAll(frames[1..])
  }

  /** What the far end makes of a stream. */
  function Received(stream: bytes): seq<PublishPacket> {
    ParseAll(Deframe(stream).frames)
  }

  /** A publish that a peer gets back whole: what each field can hold, and what a length can announce. */
  predicate Carried(p: PublishPacket) {
    PublishParsesBack(p) && |PublishBody(p)| <= MAX_LENGTH
  }

  lemma PublishIsWellFormed(p: PublishPacket)
    requires |PublishBody(p)| <= MAX_LENGTH
    ensures WellFormed(PublishBytes(p))
  {
    var body := PublishBody(p);
    assert |body| % U32 == |body|;
    assert PublishBytes(p)[1..] == Encode(|body|) + body;
    DecodeEncode(|body|, body, 4);
    EncodedSize(|body|, 4);
    Capacities();
    HeadReadsBack(p.qos, p.dup);
  }

  /** A publish too long for four digits ends the reading of the stream. */
  lemma OverlongIsRejected(p: PublishPacket, rest: bytes)
    requires MAX_LENGTH < |PublishBody(p)| < U32
    ensures NextFrame(PublishBytes(p) + rest) == Stopped(LengthTooLong)
  {
    var body := PublishBody(p);
    assert |body| % U32 == |body|;
    assert (PublishBytes(p) + rest)[1..] == Encode(|body|) + (body + rest);
    DecodeEncode(|body|, body + rest, 4);
    EncodedSize(|body|, 4);
    Capacities();
    HeadReadsBack(p.qos, p.dup);
  }

  lemma FrameBound(s: bytes)
    requires NextFrame(s).Got?
    ensures |NextFrame(s).packet| <= 5 + MAX_LENGTH
  {
    var f := NextFrame(s).packet;
    DecodedValueFits(f[1..], 4);
  }

  /** The first publish of a stream comes out first exactly when it is one that can be carried. */
  lemma FirstComesThrough(p: PublishPacket, rest: bytes)
    ensures var next := NextFrame(PublishBytes(p) + rest);
      Carried(p) <==> next.Got? && PublishOf(next.packet) == p
    ensures Carried(p) ==> NextFrame(PublishBytes(p) + rest) == Got(PublishBytes(p), rest)
  {
    var s := PublishBytes(p) + rest;
    if |PublishBody(p)| <= MAX_LENGTH {
      PublishIsWellFormed(p);
      NextOfWellFormed(PublishBytes(p), rest);
      PublishRoundTrip(p);
    } else if |PublishBody(p)| < U32 {
      OverlongIsRejected(p, rest);
    } else if NextFrame(s).Got? {
      FrameBound(s);
      assert |PublishBody(p)| <= 4 + |p.topic| + |p.payload|;
    }
  }

  predicate AllCarried(ps: seq<PublishPacket>) {
    forall i :: 0 <= i < |ps| ==> Carried(ps[i])
  }

  lemma AllCarriedSplit(ps: seq<PublishPacket>)
    requires ps != []
    ensures AllCarried(ps) <==> Carried(ps[0]) && AllCarried(ps[1..])
  {
    if Carried(ps[0]) && AllCarried(ps[1..]) {
      assert forall i :: 1 <= i < |ps| ==> ps[i] == ps[1..][i - 1];
    }
  }

  /**
   Serializing a list of publishes, concatenating, deframing and parsing gives the list back exactly
   when every publish of the list can be carried.
   */
  lemma {:induction false} EndToEndIdentity(ps: seq<PublishPacket>)
    ensures Received(Wire(ps)) == ps <==> AllCarried(ps)
  {
    if ps == [] {
      assert Received([]) == [];
    } else {
      var p, rest := ps[0], Wire(ps[1..]);
      AllCarriedSplit(ps);
      FirstComesThrough(p, rest);
      EndToEndIdentity(ps[1..]);
      ReceivedCases(Wire(ps));
      if Carried(p) {
        assert Received(Wire(ps))[1..] == Received(rest);
      }
    }
  }

  lemma ReceivedCases(s: bytes)
    ensures NextFrame(s).Stopped? ==> Received(s) == []
    ensures NextFrame(s).Got? ==> Received(s) == [PublishOf(NextFrame(s).packet)] + Received(NextFrame(s).rest)
  {
    if NextFrame(s).Got? {
      ReceivedFirst(s);
    }
  }

  lemma ReceivedFirst(s: bytes)
    requires NextFrame(s).Got?
    ensures Received(s) == [PublishOf(NextFrame(s).packet)] + Received(NextFrame(s).rest)
  {
    var next := NextFrame(s);
    var frames := Deframe(next.rest).frames;
    assert Deframe(s).frames == [next.packet] + frames;
    assert ([next.packet] + frames)[1..] == frames;
  }
}
