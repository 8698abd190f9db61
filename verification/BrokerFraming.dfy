/**
 The two deframers of the stress tools. Each keeps a buffer of unparsed octets, appends whatever
 chunk the socket delivers and takes the complete packets out of it. They differ in how many
 length digits they accept and in what they call nonsense.
 */
module BrokerFraming {
  import opened Bytes
  import opened RemainingLength
  import opened Framing

  /** Probe: the framing broker of the reconnect probe. Chaos: the broker of the stress test. */
  datatype Rule = Probe | Chaos

  const DISCONNECT := 14
  const PROBE_LIMIT := 16_777_216

  /** What a buffer starts with: a packet of some size, an unfinished packet, or nonsense. */
  datatype Cut = Wait | Nonsense | Take(size: nat)

  function CutOf(rule: Rule, buf: bytes): (r: Cut)
    ensures r.Take? ==> 2 <= r.size <= |buf|
  {
    if |buf| < 2 then Wait
    else match Decode(buf[1..], if rule.Probe? then 4 else 3)
      case Truncated => Wait
      case TooLong => if rule.Probe? then Wait else Nonsense
      case Done(v, c) =>
        if rule.Probe? && v > PROBE_LIMIT then Nonsense
        else if |buf| < 1 + c + v then Wait
        else Take(1 + c + v)
  }

  /** Only the chaos broker acts on a DISCONNECT: it closes the session and looks no further. */
  predicate Hangup(rule: Rule, packet: bytes) {
    rule.Chaos? && packet != [] && packet[0] / 16 == DISCONNECT
  }

  /** The outcome of parsing: packets handled, octets kept, how often nonsense was met, and whether no hangup was. */
  datatype Parsed = Parsed(packets: seq<bytes>, rest: bytes, errors: nat, open: bool)

  function After(packets: seq<bytes>, p: Parsed): Parsed {
    p.(packets := packets + p.packets)
  }

  function Parse(rule: Rule, buf: bytes): Parsed
    decreases |buf|
  {
    match CutOf(rule, buf)
    case Wait => Parsed([], buf, 0, true)
    case Nonsense => Parsed([], [], 1, true)
    case Take(n) =>
      if Hangup(rule, buf[..n]) then Parsed([buf[..n]], buf[n..], 0, false)
      else After([buf[..n]], Parse(rule, buf[n..]))
  }

  /** What `later` makes of a session in which `p` came first. */
  function Follow(p: Parsed, later: Parsed): Parsed {
    After(p.packets, later).(errors := p.errors + later.errors)
  }

  /** A session: every chunk is appended to what was kept and parsed; a closed session reads no more. */
  function Feed(rule: Rule, kept: bytes, chunks: seq<bytes>): Parsed
    decreases |chunks|
  {
    if chunks == [] then Parsed([], kept, 0, true)
    else
      var p := Parse(rule, kept + chunks[0]);
      if !p.open then p else Follow(p, Feed(rule, p.rest, chunks[1..]))
  }

  lemma AfterNothing(p: Parsed)
    ensures After([], p) == p
  {
    assert [] + p.packets == p.packets;
  }

  lemma AfterTwice(first: seq<bytes>, second: seq<bytes>, p: Parsed)
    ensures After(first, After(second, p)) == After(first + second, p)
  {
    assert first + (second + p.packets) == first + second + p.packets;
  }

  lemma CutIsStable(rule: Rule, a: bytes, b: bytes)
    requires CutOf(rule, a) != Wait
    ensures CutOf(rule, a + b) == CutOf(rule, a)
  {
    assert (a + b)[1..] == a[1..] + b;
    DecodeExtend(a[1..], b, if rule.Probe? then 4 else 3);
  }

  /** Parsing a buffer in two goes: what the first part settles stays settled. */
  lemma {:induction false} ParseInTwo(rule: Rule, a: bytes, b: bytes)
    ensures var p := Parse(rule, a);
      && p.errors <= 1
      && (p.errors == 0 && p.open ==> Parse(rule, a + b) == After(p.packets, Parse(rule, p.rest + b)))
      && (p.errors > 0 ==> p.open && p.rest == [] && Parse(rule, a + b) == p)
      && (!p.open ==> Parse(rule, a + b) == p.(rest := p.rest + b))
    decreases |a|
  {
    match CutOf(rule, a)
    case Wait =>
      AfterNothing(Parse(rule, a + b));
    case Nonsense =>
      CutIsStable(rule, a, b);
    case Take(n) =>
      CutIsStable(rule, a, b);
      assert (a + b)[..n] == a[..n] && (a + b)[n..] == a[n..] + b;
      if !Hangup(rule, a[..n]) {
        ParseInTwo(rule, a[n..], b);
        var p := Parse(rule, a[n..]);
        AfterTwice([a[..n]], p.packets, Parse(rule, p.rest + b));
      }
  }

  lemma {:induction false} RestWaits(rule: Rule, buf: bytes)
    requires Parse(rule, buf).open
    ensures CutOf(rule, Parse(rule, buf).rest) == Wait
    decreases |buf|
  {
    match CutOf(rule, buf)
    case Wait =>
    case Nonsense =>
    case Take(n) => RestWaits(rule, buf[n..]);
  }

  /** The same packets, errors and end of session; and while it is open, the same octets kept. */
  predicate Same(p: Parsed, q: Parsed) {
    p.packets == q.packets && p.errors == q.errors && p.open == q.open && (p.open ==> p.rest == q.rest)
  }

  /** No chunk boundary can come after nonsense: the octets up to any boundary parse without an error. */
  ghost predicate Clean(rule: Rule, stream: bytes) {
    forall k :: 0 <= k < |stream| ==> Parse(rule, stream[..k]).errors == 0
  }

  lemma CleanRest(rule: Rule, a: bytes, b: bytes)
    requires Clean(rule, a + b) && Parse(rule, a).errors == 0 && Parse(rule, a).open
    ensures Clean(rule, Parse(rule, a).rest + b)
  {
    var p := Parse(rule, a);
    RestWaits(rule, a);
    forall k | 0 <= k < |p.rest + b| ensures Parse(rule, (p.rest + b)[..k]).errors == 0 {
      if k < |p.rest| {
        WaitingPrefix(rule, p.rest, k);
        assert (p.rest + b)[..k] == p.rest[..k];
      } else {
        var c := b[..k - |p.rest|];
        assert (p.rest + b)[..k] == p.rest + c;
        assert (a + b)[..|a| + |c|] == a + c;
        ParseInTwo(rule, a, c);
      }
    }
  }

  lemma WaitingPrefix(rule: Rule, buf: bytes, k: nat)
    requires CutOf(rule, buf) == Wait && k <= |buf|
    ensures Parse(rule, buf[..k]).errors == 0
  {
    assert buf[..k] + buf[k..] == buf;
    if CutOf(rule, buf[..k]) != Wait {
      CutIsStable(rule, buf[..k], buf[k..]);
    }
  }

  lemma {:induction false} FeedNothing(rule: Rule, kept: bytes, chunks: seq<bytes>)
    requires CutOf(rule, kept) == Wait && Flatten(chunks) == []
    ensures Feed(rule, kept, chunks) == Parsed([], kept, 0, true)
    decreases |chunks|
  {
    if chunks != [] {
      assert kept + chunks[0] == kept;
      FeedNothing(rule, kept, chunks[1..]);
    }
  }

  /** The chunks of a clean stream, one after the other. */
  lemma {:induction false} CleanChunks(rule: Rule, kept: bytes, chunks: seq<bytes>)
    requires CutOf(rule, kept) == Wait
    requires Clean(rule, kept + Flatten(chunks))
    ensures Same(Feed(rule, kept, chunks), Parse(rule, kept + Flatten(chunks)))
    decreases |chunks|
  {
    if chunks == [] {
      assert kept + Flatten(chunks) == kept;
    } else {
      var first, later := kept + chunks[0], Flatten(chunks[1..]);
      var p := Parse(rule, first);
      Associate(kept, chunks[0], later);
      ParseInTwo(rule, first, later);
      if later == [] {
        assert first + later == first;
        if p.open {
          RestWaits(rule, first);
          FeedNothing(rule, p.rest, chunks[1..]);
          assert p.packets + [] == p.packets;
        }
      } else {
        assert (first + later)[..|first|] == first;
        if p.open {
          RestWaits(rule, first);
          CleanRest(rule, first, later);
          CleanChunks(rule, p.rest, chunks[1..]);
        }
      }
    }
  }

  /** However the network cuts the stream into chunks, the session is that of one pass over the whole of it. */
  ghost predicate ChunksDoNotMatter(rule: Rule, stream: bytes) {
    forall chunks: seq<bytes> :: Flatten(chunks) == stream ==> Same(Feed(rule, [], chunks), Parse(rule, stream))
  }

  /**
   Chunks do not matter for exactly the streams that no boundary can cut behind nonsense. Nonsense
   throws away the rest of its chunk only: whatever follows it is lost or parsed, depending on where
   the network cuts.
   */
  lemma ChunkIndependenceIff(rule: Rule, stream: bytes)
    ensures ChunksDoNotMatter(rule, stream) <==> Clean(rule, stream)
  {
    assert CutOf(rule, []) == Wait;
    hide Parse, Feed, Flatten, CutOf;
    if Clean(rule, stream) {
      forall chunks: seq<bytes> | Flatten(chunks) == stream
        ensures Same(Feed(rule, [], chunks), Parse(rule, stream))
      {
        assert [] + Flatten(chunks) == stream;
        CleanChunks(rule, [], chunks);
      }
    } else {
      var k :| 0 <= k < |stream| && Parse(rule, stream[..k]).errors != 0;
      CutBehindNonsense(rule, stream[..k], stream[k..]);
      assert stream[..k] + stream[k..] == stream;
    }
  }

  lemma FeedOne(rule: Rule, kept: bytes, chunk: bytes)
    ensures Feed(rule, kept, [chunk])
      == var p := Parse(rule, kept + chunk); if p.open then Follow(p, Parsed([], p.rest, 0, true)) else p
  {
    hide Parse;
    assert |[chunk][1..]| == 0;
  }

  lemma FeedTwo(rule: Rule, kept: bytes, a: bytes, b: bytes)
    requires Parse(rule, kept + a).open
    ensures Feed(rule, kept, [a, b]) == Follow(Parse(rule, kept + a), Feed(rule, Parse(rule, kept + a).rest, [b]))
  {
    hide Parse;
    assert [a, b][1..] == [b];
  }

  lemma FlattenTwo(a: bytes, b: bytes)
    ensures Flatten([a, b]) == a + b
  {
    FlattenCons(a, [b]);
    FlattenCons(b, []);
    assert [a] + [b] == [a, b] && [b] + [] == [b];
    assert b + [] == b;
  }

  lemma Unkept(rule: Rule, a: bytes)
    ensures Parse(rule, [] + a) == Parse(rule, a)
  {
    assert [] + a == a;
  }

  /** A session to which something happened. */
  predicate Something(p: Parsed) {
    p.packets != [] || p.errors > 0 || p.rest != []
  }

  lemma SomethingComesOfIt(rule: Rule, chunk: bytes)
    requires chunk != []
    ensures Something(Feed(rule, [], [chunk]))
  {
    Unkept(rule, chunk);
    FeedOne(rule, [], chunk);
    var p := Parse(rule, chunk);
    assert Something(p);
    assert p.packets + [] == p.packets;
    hide Parse, Feed;
  }

  lemma FollowDiffers(p: Parsed, later: Parsed)
    requires p.open && p.rest == [] && Something(later)
    ensures !Same(Follow(p, later), p)
  {
    assert |p.packets + later.packets| == |p.packets| + |later.packets|;
  }

  lemma CutDiffers(rule: Rule, a: bytes, b: bytes)
    requires Parse(rule, a).errors > 0 && b != []
    ensures !Same(Feed(rule, [], [a, b]), Parse(rule, a + b))
  {
    ParseInTwo(rule, a, b);
    Unkept(rule, a);
    hide Parse, Feed, Same, Follow, Something;
    FeedTwo(rule, [], a, b);
    SomethingComesOfIt(rule, b);
    FollowDiffers(Parse(rule, a), Feed(rule, [], [b]));
  }

  lemma CutBehindNonsense(rule: Rule, a: bytes, b: bytes)
    requires Parse(rule, a).errors > 0 && b != []
    ensures !ChunksDoNotMatter(rule, a + b)
  {
    CutDiffers(rule, a, b);
    FlattenTwo(a, b);
    hide Parse, Feed, Flatten, Same;
  }

  lemma ErrorFreeIsClean(rule: Rule, stream: bytes)
    requires Parse(rule, stream).errors == 0
    ensures Clean(rule, stream)
  {
    forall k | 0 <= k < |stream| ensures Parse(rule, stream[..k]).errors == 0 {
      ParseInTwo(rule, stream[..k], stream[k..]);
      assert stream[..k] + stream[k..] == stream;
    }
  }

  /**
   Where the chaos broker sees no nonsense and no DISCONNECT, the probe sees exactly what it sees.
   */
  lemma {:induction false} BrokersAgree(buf: bytes)
    requires Parse(Chaos, buf).errors == 0 && Parse(Chaos, buf).open
    ensures Parse(Probe, buf) == Parse(Chaos, buf)
    decreases |buf|
  {
    CutsAgree(buf);
    match CutOf(Chaos, buf)
    case Wait =>
    case Nonsense =>
    case Take(n) => BrokersAgree(buf[n..]);
  }

  lemma CutsAgree(buf: bytes)
    requires CutOf(Chaos, buf) != Nonsense
    ensures CutOf(Probe, buf) == CutOf(Chaos, buf)
  {
    if |buf| >= 2 {
      DecodeFewerDigits(buf[1..], 3, 4);
      if Decode(buf[1..], 3).Done? {
        DecodedValueFits(buf[1..], 3);
        CapacityMonotone(Decode(buf[1..], 3).count, 3);
        Capacities();
      }
    }
  }

  /** A packet of the connection that a broker takes as well. */
  predicate Takes(rule: Rule, f: bytes) {
    && WellFormed(f)
    && (rule.Probe? ==> Decode(f[1..], 4).value <= PROBE_LIMIT)
    && (rule.Chaos? ==> Decode(f[1..], 4).count <= 3 && f[0] / 16 != DISCONNECT)
  }

  lemma TakesFirst(rule: Rule, f: bytes, rest: bytes)
    requires Takes(rule, f)
    ensures CutOf(rule, f + rest) == Take(|f|) && (f + rest)[..|f|] == f && (f + rest)[|f|..] == rest
    ensures !Hangup(rule, f)
  {
    assert (f + rest)[1..] == f[1..] + rest;
    if rule.Chaos? {
      DecodeFewerDigits(f[1..], 3, 4);
      DecodeExtend(f[1..], rest, 3);
    } else {
      DecodeExtend(f[1..], rest, 4);
    }
  }

  /**
   A stream of packets that a broker takes, delivered in any chunks and with an unfinished packet at
   the end, yields exactly those packets and keeps exactly the unfinished one: what the connection
   deframes and what the broker deframes are the same.
   */
  lemma BrokerHandlesTheFrames(rule: Rule, frames: seq<bytes>, partial: bytes, chunks: seq<bytes>)
    requires forall i :: 0 <= i < |frames| ==> Takes(rule, frames[i])
    requires CutOf(rule, partial) == Wait
    requires Flatten(chunks) == Flatten(frames) + partial
    ensures Feed(rule, [], chunks) == Parsed(frames, partial, 0, true)
    ensures Deframe(Flatten(chunks)).frames == frames
  {
    ParseOfFrames(rule, frames, partial);
    assert [] + Flatten(chunks) == Flatten(chunks);
    ErrorFreeIsClean(rule, Flatten(chunks));
    CleanChunks(rule, [], chunks);
    DeframeInvertsConcatenation(frames, partial);
    UnfinishedIsNoFrame(rule, partial);
    assert frames + [] == frames;
  }

  /** What a broker waits for is no packet for the connection either. */
  lemma UnfinishedIsNoFrame(rule: Rule, partial: bytes)
    requires CutOf(rule, partial) == Wait
    ensures Deframe(partial).frames == []
  {
    if |partial| >= 2 && rule.Chaos? {
      DecodeFewerDigits(partial[1..], 3, 4);
    }
  }

  /** Four length digits without an end: the probe waits, whatever comes, and takes nothing any more. */
  lemma ProbeWaitsForEver(head: byte, digits: bytes, more: bytes)
    requires |digits| == 4 && forall i :: 0 <= i < 4 ==> digits[i] >= 128
    ensures CutOf(Probe, [head] + digits + more) == Wait
    ensures Parse(Probe, [head] + digits + more) == Parsed([], [head] + digits + more, 0, true)
  {
    var s := [head] + digits + more;
    assert s[1..] == digits + more;
    EndlessField(digits + more, 4);
  }

  lemma {:induction false} EndlessField(s: bytes, digits: nat)
    requires |s| >= digits && forall i :: 0 <= i < digits ==> s[i] >= 128
    ensures !Decode(s, digits).Done?
  {
    if digits > 0 {
      EndlessField(s[1..], digits - 1);
    }
  }

  lemma {:induction false} ParseOfFrames(rule: Rule, frames: seq<bytes>, partial: bytes)
    requires forall i :: 0 <= i < |frames| ==> Takes(rule, frames[i])
    requires CutOf(rule, partial) == Wait
    ensures Parse(rule, Flatten(frames) + partial) == Parsed(frames, partial, 0, true)
  {
    if frames == [] {
      assert Flatten(frames) + partial == partial;
    } else {
      var tail := Flatten(frames[1..]) + partial;
      Associate(frames[0], Flatten(frames[1..]), partial);
      TakesFirst(rule, frames[0], tail);
      ParseOfFrames(rule, frames[1..], partial);
      assert [frames[0]] + frames[1..] == frames;
    }
  }

  /** A scan that has `buf` before it takes, or ends at, the next packet. */
  lemma FrontTakes(rule: Rule, buf: bytes, size: nat, taken: seq<bytes>, whole: Parsed)
    requires whole == After(taken, Parse(rule, buf)) && CutOf(rule, buf) == Take(size)
    ensures 2 <= size <= |buf|
    ensures Hangup(rule, buf[..size]) <==> rule.Chaos? && buf[0] / 16 == DISCONNECT
    ensures !Hangup(rule, buf[..size]) ==> whole == After(taken + [buf[..size]], Parse(rule, buf[size..]))
    ensures Hangup(rule, buf[..size]) ==> whole == Parsed(taken + [buf[..size]], buf[size..], 0, false)
  {
    hide CutOf;
    AfterTwice(taken, [buf[..size]], Parse(rule, buf[size..]));
  }

  /** What a scan leaves behind, wherever it stops. */
  ghost predicate ScanResult(
    whole: Parsed, buf: bytes, pos: nat, before: seq<bytes>, handled: seq<bytes>, broken: bool)
  {
    && pos <= |buf|
    && handled == before + whole.packets
    && whole.rest == (if broken then [] else buf[pos..])
    && whole.errors == (if broken then 1 else 0)
  }

  /** A scan under way: what `whole` amounts to once `taken` was taken and `pos` reached. */
  ghost predicate Scanning(rule: Rule, buf: bytes, pos: nat, taken: seq<bytes>, whole: Parsed) {
    pos <= |buf| && whole == After(taken, Parse(rule, buf[pos..]))
  }

  lemma ProbeScanTakes(buf: bytes, pos: nat, size: nat, taken: seq<bytes>, whole: Parsed)
    requires Scanning(Probe, buf, pos, taken, whole)
    requires CutOf(Probe, buf[pos..]) == Take(size)
    ensures pos + size <= |buf|
    ensures Scanning(Probe, buf, pos + size, taken + [buf[pos..pos + size]], whole)
  {
    FrontTakes(Probe, buf[pos..], size, taken, whole);
    assert buf[pos..][..size] == buf[pos..pos + size] && buf[pos..][size..] == buf[pos + size..];
    hide Parse, CutOf;
  }

  lemma ScanEnds(rule: Rule, s: bytes, taken: seq<bytes>)
    ensures CutOf(rule, s) == Wait ==> After(taken, Parse(rule, s)) == Parsed(taken, s, 0, true)
    ensures CutOf(rule, s) == Nonsense ==> After(taken, Parse(rule, s)) == Parsed(taken, [], 1, true)
  {
    assert taken + [] == taken;
  }

  lemma ScanStarts(rule: Rule, buf: bytes)
    ensures Scanning(rule, buf, 0, [], Parse(rule, buf))
  {
    AfterNothing(Parse(rule, buf));
    assert buf[0..] == buf;
  }

  lemma ScanStops(rule: Rule, buf: bytes, pos: nat, before: seq<bytes>, taken: seq<bytes>, whole: Parsed)
    requires Scanning(rule, buf, pos, taken, whole)
    requires !CutOf(rule, buf[pos..]).Take?
    ensures ScanResult(whole, buf, pos, before, before + taken, CutOf(rule, buf[pos..]).Nonsense?)
  {
    ScanEnds(rule, buf[pos..], taken);
  }

  lemma Turn(s: bytes, value: nat, weight: nat, count: nat, b: byte, value': nat)
    requires Accumulated(s, value, weight, count) && count < |s| && count < 4 && b == s[count]
    requires value' == value + b % 128 * weight
    ensures weight * 128 == Capacity(count + 1)
    ensures b >= 128 ==> Accumulated(s, value', Capacity(count + 1), count + 1)
    ensures b < 128 ==> Decode(s, 4) == Done(value', count + 1)
  {
    AccumulateTurn(s, value, weight, count);
  }

  lemma FourthDigit(multiplier: nat, count: nat)
    requires multiplier == Capacity(count) && count <= 4
    ensures multiplier > 2_097_152 <==> count == 4
  {
    Capacities();
    CapacityMonotone(count, if count <= 3 then 3 else 4);
  }

  /** A field with a fourth digit is too long for three. */
  lemma SurplusDigit(s: bytes, value: nat, multiplier: nat)
    requires |s| >= 4 && (Accumulated(s, value, multiplier, 4) || Decode(s, 4) == Done(value, 4))
    ensures Decode(s, 3).TooLong?
  {
    if Accumulated(s, value, multiplier, 4) {
      AccumulatedStuck(s, value, multiplier, 4);
    }
    DecodeFewerDigits(s, 3, 4);
  }

  /** The framing broker of the probe: one scan with a cursor, then the consumed prefix is erased. */
  class FramingBroker {
    var buf: bytes
    var handled: seq<bytes>
    var errors: nat

    constructor ()
      ensures buf == [] && handled == [] && errors == 0
    {
      buf, handled, errors := [], [], 0;
    }

    method ParseBuffer()
      modifies this
      ensures var p := Parse(Probe, old(buf));
        && handled == old(handled) + p.packets
        && buf == p.rest
        && errors == old(errors) + p.errors
    {
      var pos, broken := TakePackets();
      if broken {
        errors := errors + 1;
        buf := [];
        return;
      }
      if pos > 0 {
        buf := buf[pos..];
      }
    }

    /** The scan: hands over the complete packets and says where it stopped. */
    method TakePackets() returns (pos: nat, broken: bool)
      modifies this`handled
      ensures pos <= |buf|
      ensures ScanResult(Parse(Probe, buf), buf, pos, old(handled), handled, broken)
    {
      hide Parse, CutOf, Scanning, ScanResult;
      pos := 0;
      broken := false;
      ghost var taken: seq<bytes> := [];
      ghost var whole := Parse(Probe, buf);
      ScanStarts(Probe, buf);
      var more := true;
      while more
        invariant pos <= |buf|
        invariant more ==> handled == old(handled) + taken && Scanning(Probe, buf, pos, taken, whole)
        invariant !more ==> ScanResult(whole, buf, pos, old(handled), handled, broken)
        decreases more, |buf| - pos
      {
        var cut := Inspect(pos);
        if cut.Take? {
          ProbeScanTakes(buf, pos, cut.size, taken, whole);
          var packet := buf[pos..pos + cut.size];
          taken := taken + [packet];
          handled := handled + [packet];
          pos := pos + cut.size;
        } else {
          ScanStops(Probe, buf, pos, old(handled), taken, whole);
          broken := cut.Nonsense?;
          more := false;
        }
      }
    }

    /** Whether a packet starts at `pos`, and how many octets it has. */
    method Inspect(pos: nat) returns (cut: Cut)
      requires pos <= |buf|
      ensures cut == CutOf(Probe, buf[pos..])
    {
      if |buf| - pos < 2 {
        return Wait;
      }
      var i, len, done := ReadLength(pos);
      if !done {
        return Wait;
      }
      if len > PROBE_LIMIT {
        return Nonsense;
      }
      if |buf| - i < len {
        return Wait;
      }
      cut := Take(i - pos + len);
    }

    /** The length field behind the octet at `pos`: the index after it, its value, or not done. */
    method ReadLength(pos: nat) returns (i: nat, len: nat, done: bool)
      requires pos + 2 <= |buf|
      ensures pos < i <= |buf|
      ensures done == Decode(buf[pos..][1..], 4).Done?
      ensures done ==> Decode(buf[pos..][1..], 4) == Done(len, i - pos - 1)
    {
      ghost var s := buf[pos..][1..];
      assert s == buf[pos + 1..];
      hide Decode, Accumulated, Capacity;
      AccumulatedNone(s);
      len := 0;
      var shift := 0;
      i := pos + 1;
      done := false;
      while i < |buf| && shift <= 21 && !done
        invariant pos < i <= |buf| && shift % 7 == 0
        invariant !done ==> shift / 7 == i - pos - 1 <= 4
        invariant !done ==> Accumulated(s, len, Capacity(i - pos - 1), i - pos - 1)
        invariant done ==> Decode(s, 4) == Done(len, i - pos - 1)
        decreases |buf| - i
      {
        var b := buf[i];
        var weight := Capacity(shift / 7);
        var grown := len + b % 128 * weight;
        Turn(s, len, weight, i - pos - 1, b, grown);
        len := grown;
        i := i + 1;
        if b < 128 {
          done := true;
        } else {
          shift := shift + 7;
        }
      }
      if !done {
        AccumulatedStuck(s, len, Capacity(i - pos - 1), i - pos - 1);
      }
    }
  }

  /** The chaos broker: the buffer loses one packet at a time. */
  class ChaosBroker {
    var buf: bytes
    var handled: seq<bytes>
    var framingErrors: nat
    var open: bool

    constructor ()
      ensures buf == [] && handled == [] && framingErrors == 0 && open
    {
      buf, handled, framingErrors, open := [], [], 0, true;
    }

    method Process()
      requires open
      modifies this
      ensures var p := Parse(Chaos, old(buf));
        && handled == old(handled) + p.packets
        && buf == p.rest && open == p.open
        && framingErrors == old(framingErrors) + p.errors
    {
      ghost var taken: seq<bytes> := [];
      ghost var whole := Parse(Chaos, buf);
      AfterNothing(whole);
      hide Parse, CutOf;
      while true
        invariant open && framingErrors == old(framingErrors)
        invariant whole == After(taken, Parse(Chaos, buf))
        invariant handled == old(handled) + taken
        decreases |buf|
      {
        var cut := Inspect();
        match cut {
          case Wait =>
            ScanEnds(Chaos, buf, taken);
            return;
          case Nonsense =>
            ScanEnds(Chaos, buf, taken);
            framingErrors := framingErrors + 1;
            buf := [];
            return;
          case Take(size) =>
            FrontTakes(Chaos, buf, size, taken, whole);
            var packet := buf[..size];
            taken := taken + [packet];
            buf := buf[size..];
            handled := handled + [packet];
            if packet[0] / 16 == DISCONNECT {
              open := false;
              return;
            }
        }
      }
    }

    /** What the buffer starts with. */
    method Inspect() returns (cut: Cut)
      ensures cut == CutOf(Chaos, buf)
    {
      if |buf| < 2 {
        return Wait;
      }
      var i, remaining, complete, nonsense := ReadLength();
      if nonsense {
        return Nonsense;
      }
      if !complete {
        return Wait;
      }
      if |buf| < i + remaining {
        return Wait;
      }
      cut := Take(i + remaining);
    }

    method ReadLength() returns (i: nat, remaining: nat, complete: bool, nonsense: bool)
      requires |buf| >= 2
      ensures 1 <= i <= |buf|
      ensures nonsense == Decode(buf[1..], 3).TooLong?
      ensures complete == Decode(buf[1..], 3).Done?
      ensures complete ==> Decode(buf[1..], 3) == Done(remaining, i - 1)
    {
      ghost var s := buf[1..];
      hide Decode, Accumulated, Capacity;
      AccumulatedNone(s);
      remaining := 0;
      var multiplier: nat := 1;
      i := 1;
      complete, nonsense := false, false;
      while i < |buf| && !complete
        invariant 1 <= i <= |buf| && i <= 4
        invariant !complete ==> Accumulated(s, remaining, multiplier, i - 1)
        invariant complete ==> Decode(s, 4) == Done(remaining, i - 1)
        decreases |buf| - i
      {
        var b := buf[i];
        var grown := remaining + b % 128 * multiplier;
        Turn(s, remaining, multiplier, i - 1, b, grown);
        i := i + 1;
        remaining := grown;
        multiplier := multiplier * 128;
        FourthDigit(multiplier, i - 1);
        if multiplier > 2_097_152 {
          nonsense := true;
          SurplusDigit(s, remaining, multiplier);
          return;
        }
        if b < 128 {
          complete := true;
        }
      }
      if !complete {
        AccumulatedStuck(s, remaining, multiplier, i - 1);
      }
      DecodeFewerDigits(s, 3, 4);
    }
  }
}
