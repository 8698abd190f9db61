/**
 From the calls of the application to the packets a broker reads: what the client queues, the
 connection writes one frame at a time, and whoever deframes and parses the stream gets back.
 */
module Delivery {
  import opened Bytes
  import opened RemainingLength
  import opened Packets
  import opened Framing
  import opened EndToEnd
  import opened Session
  import opened Transmissions
  import W = WriteQueue

  /** The octets a frame is queued with. Of CONNECT only the type matters here. */
  predicate Encodes(f: Frame, b: bytes) {
    match f
    case PublishFrame(_, p) => b == PublishBytes(p)
    case PubrelFrame(_, id) => b == AckBytes(PUBREL * 16 + 2, id)
    case AckFrame(head, id) => b == AckBytes(head, id)
    case ConnectFrame => WellFormed(b) && b[0] / 16 == CONNECT
    case SubscribeFrame(id, topic, qos) => WellFormed(b) && b == SubscribeBytes(id, topic, qos)
  }

  /** What else a client writes: PINGREQ, UNSUBSCRIBE and DISCONNECT, or any packet but a PUBLISH. */
  predicate Foreign(b: bytes) {
    WellFormed(b) && b[0] / 16 != PUBLISH
  }

  /** The packets are these frames, in this order, with any others between them. */
  predicate Handed(frames: seq<Frame>, packets: seq<bytes>) {
    if packets == [] then frames == []
    else
      var n, m := |packets| - 1, |frames| - 1;
      || (m >= 0 && Encodes(frames[m], packets[n]) && Handed(frames[..m], packets[..n]))
      || (Foreign(packets[n]) && Handed(frames, packets[..n]))
  }

  /** A call whose topic fits its length field and whose packet fits the remaining length. */
  predicate Sendable(c: Call) {
    |c.topic| < 0x1_0000 && 2 + |c.topic| + (if c.qos > 0 then 2 else 0) + |c.payload| <= MAX_LENGTH
  }

  /** What a packet has to say about a call. */
  predicate Tells(c: Call, p: PublishPacket) {
    p.topic == c.topic && p.payload == c.payload && p.qos == c.qos <= 2 && (p.packetId == 0 <==> p.qos == 0)
  }

  /** The publishes among some frames, and among some packets. */
  function Sent(frames: seq<Frame>): seq<PublishPacket> {
    if frames == [] then []
    else
      var last := frames[|frames| - 1];
      Sent(frames[..|frames| - 1]) + if last.PublishFrame? then [last.packet] else []
  }

  function Seen(packets: seq<bytes>): seq<PublishPacket> {
    if packets == [] then []
    else
      var last := packets[|packets| - 1];
      Seen(packets[..|packets| - 1]) + if last != [] && last[0] / 16 == PUBLISH then [PublishOf(last)] else []
  }

  ghost predicate Telling(s: State, frames: seq<Frame>) {
    forall f <- frames :: f.PublishFrame? ==> f.handle < |s.calls| && Tells(s.calls[f.handle], f.packet)
  }

  // ------------------------------------------------------------ every frame tells its call

  lemma {:induction false} FrameIsListed(frames: seq<Frame>, i: nat)
    requires i < |frames| && frames[i].PublishFrame?
    ensures frames[i].packet in PublishesOf(frames, frames[i].handle)
    decreases |frames|
  {
    var n := |frames| - 1;
    if i < n {
      FrameIsListed(frames[..n], i);
    }
  }

  lemma CopiesTell(c: Call, id: u16, n: nat, p: PublishPacket)
    requires Numbered(c, id) && p in Copies(c, id, n)
    ensures Tells(c, p)
  {
  }

  /** Every PUBLISH frame that any run queues says what its call said. */
  lemma EveryFrameTellsItsCall(es: seq<Event>)
    ensures Telling(Reached(es), Reached(es).frames)
  {
    RunKeepsBudget(INITIAL, es);
    EveryFrameTells(Reached(es));
  }

  lemma EveryFrameTells(s: State)
    requires Budgeted(s)
    ensures Telling(s, s.frames)
  {
    assert WithinBudget(s);
    forall f | f in s.frames && f.PublishFrame?
      ensures f.handle < |s.calls| && Tells(s.calls[f.handle], f.packet)
    {
      var i :| 0 <= i < |s.frames| && s.frames[i] == f;
      FrameIsListed(s.frames, i);
      var ps := PublishesOf(s.frames, f.handle);
      assert Transmitted(s.calls, f.handle, ps);
      hide PublishesOf, Copies, Tells;
      CopiesTell(s.calls[f.handle], ps[0].packetId, |ps|, f.packet);
    }
  }

  // ------------------------------------------------------------ every frame comes through

  lemma AckIsWellFormed(head: byte, id: u16)
    requires ValidType(head)
    ensures WellFormed(AckBytes(head, id)) && AckBytes(head, id)[0] == head
  {
    var data := AckBytes(head, id);
    assert data[1..] == [2] + WordBytes(id);
    assert Decode(data[1..], 4) == Done(2, 1);
  }

  lemma ToldIsCarried(c: Call, p: PublishPacket)
    requires Tells(c, p) && Sendable(c)
    ensures Carried(p)
  {
  }

  /** One frame: it is a packet, and a PUBLISH exactly if it is queued as one, with the same content. */
  lemma FrameComesThrough(f: Frame, b: bytes)
    requires Encodes(f, b) && (f.PublishFrame? ==> Carried(f.packet))
    ensures WellFormed(b)
    ensures f.PublishFrame? <==> b[0] / 16 == PUBLISH
    ensures f.PublishFrame? ==> PublishOf(b) == f.packet
  {
    match f
    case PublishFrame(_, p) =>
      PublishIsWellFormed(p);
      PublishRoundTrip(p);
      HeadReadsBack(p.qos, p.dup);
    case PubrelFrame(_, id) => AckIsWellFormed(PUBREL * 16 + 2, id);
    case AckFrame(head, id) => AckIsWellFormed(head, id);
    case _ =>
  }

  ghost predicate AllCarriedIn(frames: seq<Frame>) {
    forall f <- frames :: f.PublishFrame? ==> Carried(f.packet)
  }

  lemma {:induction false} SeenIsSent(frames: seq<Frame>, packets: seq<bytes>)
    requires Handed(frames, packets) && AllCarriedIn(frames)
    ensures Seen(packets) == Sent(frames)
    ensures forall p <- packets :: WellFormed(p)
    decreases |packets|
  {
    if packets != [] {
      var n, m := |packets| - 1, |frames| - 1;
      if m >= 0 && Encodes(frames[m], packets[n]) && Handed(frames[..m], packets[..n]) {
        FrameComesThrough(frames[m], packets[n]);
        SeenIsSent(frames[..m], packets[..n]);
      } else {
        SeenIsSent(frames, packets[..n]);
      }
      hide Encodes, Carried, PublishOf, WellFormed, Handed, Foreign;
      assert packets == packets[..n] + [packets[n]];
    }
  }

  /** The packets up to any point are the frames up to some point. */
  lemma {:induction false} HandedSoFar(frames: seq<Frame>, packets: seq<bytes>, k: nat) returns (n: nat)
    requires Handed(frames, packets) && k <= |packets|
    ensures n <= |frames| && Handed(frames[..n], packets[..k])
    ensures k == |packets| ==> n == |frames|
    decreases |packets|
  {
    hide Encodes, Foreign;
    var last, m := |packets| - 1, |frames| - 1;
    if k == |packets| {
      n := |frames|;
      assert packets[..k] == packets && frames[..n] == frames;
    } else if m >= 0 && Encodes(frames[m], packets[last]) && Handed(frames[..m], packets[..last]) {
      n := HandedSoFar(frames[..m], packets[..last], k);
      assert packets[..last][..k] == packets[..k] && frames[..m][..n] == frames[..n];
    } else {
      n := HandedSoFar(frames, packets[..last], k);
      assert packets[..last][..k] == packets[..k];
    }
  }

  // ------------------------------------------------------------ the whole way

  /** What a peer that has received `octets` has read of the frames queued from `from` on: the first n. */
  ghost predicate Reads(s: State, from: nat, n: nat, octets: bytes) {
    && from + n <= |s.frames|
    && var sent := s.frames[from..from + n];
       Seen(Deframe(octets).frames) == Sent(sent) && Telling(s, sent) && InCallOrder(sent)
  }

  /**
   The delivery order of section 4.6 of MQTT 3.1.1, end to end. Take any run of the client, any point
   `from` at which a connection was established, and any run of that connection in which it was handed
   what the client queued since, with any other packets but PUBLISH between. Whoever deframes the octets
   of the writes begun so far reads exactly the publishes of a prefix of those frames, of all of them
   if all were begun: each says what its call said, retransmissions included, and those without DUP
   come in the order of the calls.
   */
  lemma BrokerReadsTheCallsInOrder(es: seq<Event>, from: nat, ws: seq<W.Event>)
    requires from <= |Reached(es).frames|
    requires Handed(Reached(es).frames[from..], W.Buffers(W.Run(W.EPOCH, ws).accepted))
    requires forall c <- Reached(es).calls :: Sendable(c)
    ensures var s, c := Reached(es), W.Run(W.EPOCH, ws);
      && (exists n :: Reads(s, from, n, Flatten(W.Buffers(c.started))))
      && (c.started == c.accepted ==> Reads(s, from, |s.frames| - from, Flatten(W.Buffers(c.started))))
  {
    var s, c := Reached(es), W.Run(W.EPOCH, ws);
    RunKeepsBudget(INITIAL, es);
    W.EpochStarts();
    W.RunSettles(W.EPOCH, ws);
    hide W.Run, Run, Handed, Reads, W.Settled;
    var n := StateIsRead(s, from, c);
    assert Reads(s, from, n, Flatten(W.Buffers(c.started)));
  }

  /** The same from what a run keeps, on both sides. */
  lemma StateIsRead(s: State, from: nat, c: W.Conn) returns (n: nat)
    requires Budgeted(s) && W.Settled(c) && from <= |s.frames|
    requires Handed(s.frames[from..], W.Buffers(c.accepted))
    requires forall c <- s.calls :: Sendable(c)
    ensures Reads(s, from, n, Flatten(W.Buffers(c.started)))
    ensures c.started == c.accepted ==> n == |s.frames| - from
  {
    hide Sent, Seen, Tells, Sendable, Carried, Handed, Deframe, Flatten, InCallOrder;
    EveryFrameTells(s);
    PartTells(s, s.frames, s.frames[from..]);
    AllCarriedThrough(s, s.frames[from..]);
    n := WriterDelivers(s.frames[from..], c);
    assert s.frames[from..][..n] == s.frames[from..from + n];
    PartTells(s, s.frames, s.frames[from..from + n]);
    PartInOrder(s.frames, from, from + n);
  }

  lemma PartInOrder(frames: seq<Frame>, from: nat, to: nat)
    requires InCallOrder(frames) && from <= to <= |frames|
    ensures InCallOrder(frames[from..to])
  {
  }

  lemma PartTells(s: State, frames: seq<Frame>, part: seq<Frame>)
    requires Telling(s, frames) && forall f <- part :: f in frames
    ensures Telling(s, part)
  {
  }

  /** The connection's part: what is read is what was handed over, up to the last write begun. */
  lemma WriterDelivers(frames: seq<Frame>, c: W.Conn) returns (n: nat)
    requires W.Settled(c) && Handed(frames, W.Buffers(c.accepted)) && AllCarriedIn(frames)
    ensures n <= |frames| && (c.started == c.accepted ==> n == |frames|)
    ensures Seen(Deframe(Flatten(W.Buffers(c.started))).frames) == Sent(frames[..n])
  {
    hide Seen, Sent, Handed, Carried, WellFormed, Deframe, Flatten;
    var all, started := W.Buffers(c.accepted), W.Buffers(c.started);
    BuffersOfPrefix(c.started, c.accepted);
    SeenIsSent(frames, all);
    n := HandedSoFar(frames, all, |started|);
    SeenIsSent(frames[..n], started);
    DeframeInvertsConcatenation(started, []);
    NothingMore(started);
  }

  lemma BuffersOfPrefix(some: seq<W.Item>, all: seq<W.Item>)
    requires some <= all
    ensures |some| <= |all| && W.Buffers(some) == W.Buffers(all)[..|some|]
  {
  }

  lemma NothingMore(packets: seq<bytes>)
    requires Deframe(Flatten(packets) + []) == Prepend(packets, Deframe([]))
    ensures Deframe(Flatten(packets)).frames == packets
  {
    assert Flatten(packets) + [] == Flatten(packets);
    assert packets + [] == packets;
  }

  lemma AllCarriedThrough(s: State, frames: seq<Frame>)
    requires Telling(s, frames) && forall c <- s.calls :: Sendable(c)
    ensures AllCarriedIn(frames)
  {
    forall f | f in frames && f.PublishFrame?
      ensures Carried(f.packet)
    {
      ToldIsCarried(s.calls[f.handle], f.packet);
    }
  }
}
