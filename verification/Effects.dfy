/**
 What each event does, said once more from the octets and the state alone: the frames it sends, the
 callbacks it runs, what it tells the application, how the link, the waits and the tables move. Over
 runs: every acknowledgement answers a packet in order, every connect of the transport sends CONNECT,
 and a PUBCOMP ends the exchange for good.
 */
module Effects {
  import opened Bytes
  import opened Packets
  import opened PacketIds
  import opened Session
  import opened Accounting
  import opened Endings
  import Octets
  import P = Pubrels
  import T = Transmissions

  // ------------------------------------------------------------ the octets of a packet

  /** A packet of a type, 1 to 14, by the high half of its first octet. */
  predicate Kind(data: bytes, kind: nat) {
    data != [] && data[0] / 16 == kind
  }

  /** A CONNACK, type 2, whose return code is 0 or missing; and one with any other. */
  predicate Accepts(data: bytes) {
    Kind(data, 2) && (|BodyOf(data)| < 2 || BodyOf(data)[1] == 0)
  }

  predicate Declines(data: bytes) {
    Kind(data, 2) && !Accepts(data)
  }

  /** The CONNACK that is looked at is this one. */
  lemma AcceptsIff(data: bytes)
    requires data != []
    ensures Refuses(data) <==> Declines(data)
    ensures Accepts(data) <==> data[0] / 16 == CONNACK && ConnackOf(data).returnCode == 0
  {
    ConnackCodeIff(data);
    hide ConnackOf, BodyOf;
  }

  // ------------------------------------------------------------ the frames

  /** A call of publish that is taken: the session is up, and the window and the ids have room for it. */
  predicate TakesCall(s: State, c: Call)
    requires Sound(s)
  {
    && c.qos <= 2 && !s.closed && s.link == Connected
    && (c.qos == 0 || (|s.pubs| < 1000 && FirstFree(s.cursor, Used(s)) != 0))
  }

  /** A call of subscribe that is taken: the session is not closed, the QoS exists, an id is left. */
  predicate Subscribes(s: State, e: Event)
    requires Sound(s)
  {
    e.Subscribe? && !s.closed && e.qos <= 2 && FirstFree(s.cursor, Used(s)) != 0
  }

  /** A PUBREC with this packet id finds a publish under it. */
  predicate Reopens(s: State, e: Event, id: u16) {
    e.Packet? && Kind(e.data, 5) && AckOf(e.data) == id && id in s.pubs
  }

  /** PUBLISH is answered with PUBACK (64) or PUBREC (80), by its QoS, and PUBREL with PUBCOMP (112). */
  function Acks(data: bytes): seq<Frame> {
    if Kind(data, 3) then
      if PublishOf(data).qos == 1 then [AckFrame(64, PublishOf(data).packetId)]
      else if PublishOf(data).qos == 2 then [AckFrame(80, PublishOf(data).packetId)]
      else []
    else if Kind(data, 6) then [AckFrame(112, AckOf(data))]
    else []
  }

  /** What an event sends. */
  function Sends(s: State, e: Event): seq<Frame>
    requires Sound(s)
  {
    match e
    case TcpResult(ok) => if ok && !s.closed then [ConnectFrame] else []
    case Publish(c) => if TakesCall(s, c) then [FirstSent(c, |s.calls|, FirstFree(s.cursor, Used(s)))] else []
    case PublishExpiry(id, _) => if id in s.pubs && s.pubs[id].attempts < 3 then [SentAgain(s.pubs[id], id)] else []
    case PubrecExpiry(id, _) =>
      if id in s.recs && s.recs[id].attempts < 3 then [PubrelFrame(s.recs[id].serial, id)] else []
    case Subscribe(topic, qos, _) =>
      if Subscribes(s, e) then [SubscribeFrame(FirstFree(s.cursor, Used(s)), topic, qos)] else []
    case Packet(data) =>
      if Reopens(s, e, AckOf(data)) then [PubrelFrame(|s.accepted|, AckOf(data))] else Acks(data)
    case _ => []
  }

  function FirstSent(c: Call, handle: nat, id: u16): Frame {
    PublishFrame(handle, PublishPacket(if c.qos == 0 then 0 else id, c.qos, false, c.topic, c.payload))
  }

  function SentAgain(p: Pub, id: u16): Frame {
    PublishFrame(p.handle, PublishPacket(id, p.qos, p.attempts > 0, p.topic, p.payload))
  }

  lemma PacketSends(s: State, data: bytes)
    requires Sound(s)
    ensures HandlePacket(s, data).frames == s.frames + Sends(s, Event.Packet(data))
  {
    hide AckOf, SubackOf, PublishOf, ConnackOf, Drain;
    assert s.frames + [] == s.frames;
  }

  lemma PublishSends(s: State, c: Call)
    requires Sound(s)
    ensures AsyncPublish(s, c).frames == s.frames + Sends(s, Publish(c))
  {
    hide FirstFree, Used, Drain;
    assert s.frames + [] == s.frames;
  }

  lemma PublishTimerSends(s: State, id: u16, current: bool)
    requires Sound(s)
    ensures PublishTimer(s, id, current).frames == s.frames + Sends(s, PublishExpiry(id, current))
  {
    hide Drain;
    assert s.frames + [] == s.frames;
  }

  lemma PubrecTimerSends(s: State, id: u16, current: bool)
    requires Sound(s)
    ensures PubrecTimer(s, id, current).frames == s.frames + Sends(s, PubrecExpiry(id, current))
  {
    hide Drain;
    assert s.frames + [] == s.frames;
  }

  lemma OthersSend(s: State, e: Event)
    requires Sound(s) && !e.Publish? && !e.PublishExpiry? && !e.PubrecExpiry? && !e.Packet?
    ensures Step(s, e).frames == s.frames + Sends(s, e)
  {
    hide FirstFree, Used, Drain;
    assert s.frames + [] == s.frames;
  }

  /** Every step sends exactly that. */
  lemma StepSends(s: State, e: Event)
    requires Sound(s)
    ensures Step(s, e).frames == s.frames + Sends(s, e)
  {
    hide AsyncPublish, PublishTimer, PubrecTimer, HandlePacket, Sends, Sound;
    match e
    case Publish(c) => PublishSends(s, c);
    case PublishExpiry(id, current) => PublishTimerSends(s, id, current);
    case PubrecExpiry(id, current) => PubrecTimerSends(s, id, current);
    case Packet(data) => PacketSends(s, data);
    case _ => OthersSend(s, e);
  }

  /** What the events of a run send, in order. */
  function AllSent(s: State, es: seq<Event>): seq<Frame>
    requires Sound(s)
    decreases |es|
  {
    if es == [] then []
    else
      StepIsSound(s, es[0]);
      Sends(s, es[0]) + AllSent(Step(s, es[0]), es[1..])
  }

  lemma Regroup(a: seq<Frame>, b: seq<Frame>, c: seq<Frame>)
    ensures a + b + c == a + (b + c)
  {
  }

  lemma {:induction false} RunSends(s: State, es: seq<Event>)
    requires Sound(s)
    ensures Run(s, es).frames == s.frames + AllSent(s, es)
    decreases |es|
  {
    if es == [] {
      assert s.frames + [] == s.frames;
    } else {
      StepSends(s, es[0]);
      StepIsSound(s, es[0]);
      hide Step, Sound, Sends;
      var t := Step(s, es[0]);
      RunSends(t, es[1..]);
      Regroup(s.frames, Sends(s, es[0]), AllSent(t, es[1..]));
    }
  }

  /**
   Everything the client sends, over every run, in order: CONNECT for each transport connect that finds
   the session open, a first PUBLISH or a SUBSCRIBE with the arguments of the call for each call taken,
   the repetitions, and PUBACK, PUBREC, PUBREL and PUBCOMP in the order of what came in (section 4.6 of
   MQTT 3.1.1).
   */
  lemma FramesFollowTheEvents(es: seq<Event>)
    ensures Reached(es).frames == AllSent(INITIAL, es)
  {
    RunSends(INITIAL, es);
  }

  /** How many CONNECT frames there are; and how many transport connects found the session open. */
  function ConnectsIn(frames: seq<Frame>): nat {
    if frames == [] then 0
    else ConnectsIn(frames[..|frames| - 1]) + if frames[|frames| - 1].ConnectFrame? then 1 else 0
  }

  lemma ConnectsSnoc(frames: seq<Frame>, f: Frame)
    ensures ConnectsIn(frames + [f]) == ConnectsIn(frames) + if f.ConnectFrame? then 1 else 0
  {
    assert (frames + [f])[..|frames|] == frames;
  }

  function Dials(s: State, es: seq<Event>): nat
    requires Sound(s)
    decreases |es|
  {
    if es == [] then 0
    else
      StepIsSound(s, es[0]);
      (if es[0] == TcpResult(true) && !s.closed then 1 else 0) + Dials(Step(s, es[0]), es[1..])
  }

  lemma SendsConnect(s: State, e: Event)
    requires Sound(s)
    ensures |Sends(s, e)| <= 1
    ensures Sends(s, e) != [] ==> (Sends(s, e)[0].ConnectFrame? <==> e == TcpResult(true) && !s.closed)
    ensures e == TcpResult(true) && !s.closed ==> Sends(s, e) == [ConnectFrame]
  {
    hide FirstFree, Used, AckOf, PublishOf;
  }

  lemma StepConnects(s: State, e: Event)
    requires Sound(s)
    ensures ConnectsIn(Step(s, e).frames) == ConnectsIn(s.frames) + if e == TcpResult(true) && !s.closed then 1 else 0
  {
    hide Step, Sound, ConnectsIn, Sends;
    StepSends(s, e);
    SendsConnect(s, e);
    if Sends(s, e) == [] {
      assert s.frames + [] == s.frames;
    } else {
      assert Sends(s, e) == [Sends(s, e)[0]];
      ConnectsSnoc(s.frames, Sends(s, e)[0]);
    }
  }

  lemma {:induction false} RunConnects(s: State, es: seq<Event>)
    requires Sound(s)
    ensures ConnectsIn(Run(s, es).frames) == ConnectsIn(s.frames) + Dials(s, es)
    decreases |es|
  {
    if es != [] {
      StepConnects(s, es[0]);
      StepIsSound(s, es[0]);
      hide Step, Sound, ConnectsIn;
      RunConnects(Step(s, es[0]), es[1..]);
    }
  }

  /** One CONNECT is sent for each transport connect that finds the session open, and no other, in every run. */
  lemma ConnectPerDial(es: seq<Event>)
    ensures ConnectsIn(Reached(es).frames) == Dials(INITIAL, es)
  {
    RunConnects(INITIAL, es);
  }

  // ------------------------------------------------------------ what the application hears, and the link

  /** on_close for a drain, on_connect for a CONNACK and for the failures of a connect that is still wanted. */
  function Said(s: State, e: Event): seq<Signal>
    requires Sound(s)
  {
    if Drains(s, e) then [OnClose]
    else match e
      case Packet(data) =>
        if Accepts(data) then [OnConnect(true)] else if Declines(data) then [OnConnect(false)] else []
      case TcpResult(ok) => if !ok && !s.closed then [OnConnect(false)] else []
      case ResolveFailure => if !s.closed then [OnConnect(false)] else []
      case ConnectExpiry => if !s.closed then [OnConnect(false)] else []
      case _ => []
  }

  /** Where the link is after an event. */
  function LinkAfter(s: State, e: Event): Link
    requires Sound(s)
  {
    if Drains(s, e) then Disconnected
    else match e
      case Connect => Connecting
      case TcpResult(ok) => if ok then Handshaking else Disconnected
      case LinkLost => Disconnected
      case ConnectExpiry => if s.closed then s.link else Disconnected
      case Packet(data) => if Accepts(data) then Connected else if Declines(data) then Disconnected else s.link
      case _ => s.link
  }

  ghost predicate Turns(s: State, t: State, said: seq<Signal>, link: Link) {
    t.signals == s.signals + said && t.link == link
  }

  lemma ConnackTurns(s: State, data: bytes)
    requires Kind(data, 2)
    ensures Turns(s, HandlePacket(s, data), [OnConnect(Accepts(data))],
                  if Accepts(data) then Connected else Disconnected)
    ensures !BreaksProtocol(s, data) && (Accepts(data) || Declines(data))
  {
    AcceptsIff(data);
    hide ConnackOf, BodyOf;
  }

  lemma OtherPacketTurns(s: State, data: bytes)
    requires !Kind(data, 2)
    ensures var drains := !s.closed && BreaksProtocol(s, data);
      Turns(s, HandlePacket(s, data), if drains then [OnClose] else [], if drains then Disconnected else s.link)
    ensures !Accepts(data) && !Declines(data)
  {
    QosFits(data);
    hide AckOf, SubackOf, PublishOf, Drain;
    assert s.signals + [] == s.signals;
  }

  lemma PacketTurns(s: State, data: bytes)
    requires Sound(s)
    ensures Turns(s, HandlePacket(s, data), Said(s, Event.Packet(data)), LinkAfter(s, Event.Packet(data)))
  {
    hide HandlePacket, Turns, BreaksProtocol, Accepts, Declines, Kind;
    if Kind(data, 2) {
      ConnackTurns(s, data);
    } else {
      OtherPacketTurns(s, data);
    }
  }

  lemma PublishTurns(s: State, c: Call)
    requires Sound(s)
    ensures Turns(s, AsyncPublish(s, c), Said(s, Publish(c)), LinkAfter(s, Publish(c)))
  {
    hide FirstFree, Used, Drain;
    assert s.signals + [] == s.signals;
  }

  lemma PublishTimerTurns(s: State, id: u16, current: bool)
    requires Sound(s)
    ensures var e := PublishExpiry(id, current); Turns(s, PublishTimer(s, id, current), Said(s, e), LinkAfter(s, e))
  {
    hide Drain, FirstFree, Used;
    assert s.signals + [] == s.signals;
  }

  lemma PubrecTimerTurns(s: State, id: u16, current: bool)
    requires Sound(s)
    ensures var e := PubrecExpiry(id, current); Turns(s, PubrecTimer(s, id, current), Said(s, e), LinkAfter(s, e))
  {
    hide Drain, FirstFree, Used;
    assert s.signals + [] == s.signals;
  }

  lemma OthersTurn(s: State, e: Event)
    requires Sound(s) && !e.Publish? && !e.PublishExpiry? && !e.PubrecExpiry? && !e.Packet?
    ensures Turns(s, Step(s, e), Said(s, e), LinkAfter(s, e))
  {
    hide Drain, FirstFree, Used;
    assert s.signals + [] == s.signals;
  }

  /** Every step says exactly that, and leaves the link exactly there. */
  lemma StepTurns(s: State, e: Event)
    requires Sound(s)
    ensures Turns(s, Step(s, e), Said(s, e), LinkAfter(s, e))
  {
    hide AsyncPublish, PublishTimer, PubrecTimer, HandlePacket, Turns, Sound, Said, LinkAfter;
    match e
    case Publish(c) => PublishTurns(s, c);
    case PublishExpiry(id, current) => PublishTimerTurns(s, id, current);
    case PubrecExpiry(id, current) => PubrecTimerTurns(s, id, current);
    case Packet(data) => PacketTurns(s, data);
    case _ => OthersTurn(s, e);
  }

  /** Nothing has been published, and nothing can be. */
  predicate Unpublished(s: State) {
    s.link != Connected && s.pubs == map[] && s.qos0 == {} && forall f <- s.frames :: !f.PublishFrame?
  }

  lemma UnpublishedStays(s: State, e: Event)
    requires Sound(s) && Unpublished(s) && !(e.Packet? && Accepts(e.data))
    ensures Unpublished(Step(s, e))
  {
    StepTurns(s, e);
    hide Sound, Turns, Accepts, Declines, AckOf, SubackOf, PublishOf, ConnackOf, FirstFree, Used, Drain;
    if e.Publish? {
      assert Step(s, e) == Reject(s, e.call);
    } else if e.PublishExpiry? {
      assert Step(s, e) == s;
    } else {
      UnpublishedElse(s, e);
    }
    assert LinkAfter(s, e) != Connected;
    hide Step, LinkAfter;
    assert Step(s, e).link == LinkAfter(s, e) by {
      LinkOfTurn(s, Step(s, e), Said(s, e), LinkAfter(s, e));
    }
  }

  lemma LinkOfTurn(s: State, t: State, said: seq<Signal>, link: Link)
    requires Turns(s, t, said, link)
    ensures t.link == link && t.signals == s.signals + said
  {
  }

  lemma UnpublishedElse(s: State, e: Event)
    requires Sound(s) && Unpublished(s) && !e.Publish? && !e.PublishExpiry?
    ensures var t := Step(s, e); t.pubs == map[] && t.qos0 == {} && forall f <- t.frames :: !f.PublishFrame?
  {
    T.StepIsQuiet(s, e);
    hide Step, FirstFree, Used;
    if e.Qos0Write? {
      Qos0WriteKeeps(s, e.handle, e.ok);
    } else if e.Subscribe? {
      SubscribeKeepsQos0(s, e);
    } else {
      HandlerKeeps(s, e);
    }
  }

  lemma Qos0WriteKeeps(s: State, handle: nat, ok: bool)
    requires Sound(s)
    ensures Step(s, Qos0Write(handle, ok)).qos0 == s.qos0
  {
  }

  lemma SubscribeKeepsQos0(s: State, e: Event)
    requires Sound(s) && e.Subscribe?
    ensures Step(s, e).qos0 == s.qos0
  {
    hide FirstFree, Used;
  }

  lemma {:induction false} UnpublishedRuns(s: State, es: seq<Event>)
    requires Sound(s) && Unpublished(s)
    requires forall e <- es :: !(e.Packet? && Accepts(e.data))
    ensures Unpublished(Run(s, es))
    decreases |es|
  {
    if es != [] {
      UnpublishedStays(s, es[0]);
      StepIsSound(s, es[0]);
      hide Step, Sound, Unpublished, Accepts;
      UnpublishedRuns(Step(s, es[0]), es[1..]);
    }
  }

  /** No PUBLISH is sent, at any QoS, before a CONNACK has accepted the session. */
  lemma NoPublishBeforeConnack(es: seq<Event>)
    requires forall e <- es :: !(e.Packet? && Accepts(e.data))
    ensures (forall f <- Reached(es).frames :: !f.PublishFrame?) && Reached(es).pubs == map[]
  {
    UnpublishedRuns(INITIAL, es);
  }

  // ------------------------------------------------------------ PUBCOMP ends the exchange

  /** No PUBREL exchange for the id, no PUBREL more for it, and its timer does nothing. */
  ghost predicate Ended(s: State, t: State, id: u16) {
    id !in t.recs && P.RelsFor(t.frames, id) == P.RelsFor(s.frames, id)
  }

  lemma PubrecElsewhere(s: State, data: bytes, id: u16)
    requires Kind(data, 5) && id !in s.recs && !Reopens(s, Event.Packet(data), id)
    ensures Ended(s, HandlePacket(s, data), id)
  {
    hide AckOf, P.RelsFor, P.RelsOf;
    if AckOf(data) in s.pubs {
      P.Snocs(s.frames, PubrelFrame(|s.accepted|, AckOf(data)), 0, id);
    }
  }

  lemma ExpiryElsewhere(s: State, j: u16, current: bool, id: u16)
    requires id !in s.recs
    ensures Ended(s, PubrecTimer(s, j, current), id)
  {
    hide P.RelsFor, P.RelsOf, Drain;
    if j in s.recs {
      P.Snocs(s.frames, PubrelFrame(s.recs[j].serial, j), 0, id);
    }
  }

  lemma EndedStays(s: State, e: Event, id: u16)
    requires Sound(s) && id !in s.recs && !Reopens(s, e, id)
    ensures Ended(s, Step(s, e), id)
  {
    hide P.RelsFor, P.RelsOf, HandlePacket, PubrecTimer, AckOf, Sound;
    if e.Packet? && Kind(e.data, 5) {
      PubrecElsewhere(s, e.data, id);
    } else if e.PubrecExpiry? {
      ExpiryElsewhere(s, e.id, e.current, id);
    } else {
      P.StepIsQuiet(s, e);
      P.NoPubrelSame(s.frames, Step(s, e).frames, 0, id);
      hide Step;
    }
  }

  /** No step of the run takes a PUBREC for the id. */
  predicate NoneReopens(s: State, es: seq<Event>, id: u16)
    requires Sound(s)
    decreases |es|
  {
    es == [] || (!Reopens(s, es[0], id) && (StepIsSound(s, es[0]); NoneReopens(Step(s, es[0]), es[1..], id)))
  }

  lemma {:induction false} EndedRuns(s: State, es: seq<Event>, id: u16)
    requires Sound(s) && id !in s.recs && NoneReopens(s, es, id)
    ensures Ended(s, Run(s, es), id)
    decreases |es|
  {
    if es != [] {
      EndedStays(s, es[0], id);
      StepIsSound(s, es[0]);
      hide Step, Sound, P.RelsFor, Reopens;
      EndedRuns(Step(s, es[0]), es[1..], id);
    }
  }

  lemma PubcompEnds(s: State, a: byte, b: byte)
    ensures var id: u16 := a as int * 256 + b; Ended(s, HandlePacket(s, [112, 2, a, b]), id)
  {
    Octets.AckRead(112, a, b);
    hide AckOf, P.RelsFor;
  }

  /**
   The end of a QoS 2 delivery: once the octets of a PUBCOMP have been handled, no run sends another
   PUBREL for its packet id, and an expiry of the exchange's timer changes nothing, in particular closes
   no session, until a PUBREC for the id finds a publish again.
   */
  lemma PubcompEndsTheExchange(es: seq<Event>, a: byte, b: byte, later: seq<Event>, current: bool)
    requires NoneReopens(HandlePacket(Reached(es), [112, 2, a, b]), later, a as int * 256 + b)
    ensures var id: u16 := a as int * 256 + b;
      var s := HandlePacket(Reached(es), [112, 2, a, b]);
      var t := Run(s, later);
      && P.RelsFor(t.frames, id) == P.RelsFor(Reached(es).frames, id)
      && Step(t, PubrecExpiry(id, current)) == t
  {
    var s := Reached(es);
    PubcompEnds(s, a, b);
    StepIsSound(s, Event.Packet([112, 2, a, b]));
    AfterTheEnd(s, HandlePacket(s, [112, 2, a, b]), later, a as int * 256 + b, current);
    hide HandlePacket, P.RelsFor, NoneReopens, Run, Step;
  }

  lemma AfterTheEnd(s: State, u: State, later: seq<Event>, id: u16, current: bool)
    requires Sound(u) && Ended(s, u, id) && NoneReopens(u, later, id)
    ensures P.RelsFor(Run(u, later).frames, id) == P.RelsFor(s.frames, id)
    ensures Step(Run(u, later), PubrecExpiry(id, current)) == Run(u, later)
  {
    EndedRuns(u, later, id);
    ExpiryOfNothing(Run(u, later), id, current);
    hide P.RelsFor, NoneReopens, Run, Step, Sound;
  }

  lemma ExpiryOfNothing(s: State, id: u16, current: bool)
    requires Sound(s)
    ensures id !in s.recs ==> Step(s, PubrecExpiry(id, current)) == s
  {
  }

  // ------------------------------------------------------------ the waits

  /** The timer of a publish that stays: set by its write and its retry, cancelled by a PUBREC, kept otherwise. */
  predicate PubWaits(s: State, e: Event, id: u16)
    requires id in s.pubs
  {
    || e == PublishWrite(id, true)
    || (e.PublishExpiry? && e.id == id)
    || (s.pubs[id].armed && !Reopens(s, e, id))
  }

  /** The timer of a PUBREL exchange that stays: set by its write and its repetition, spent by the last expiry. */
  predicate RecWaits(s: State, e: Event, id: u16)
    requires id in s.recs
  {
    || e == PubrelWrite(id, true)
    || (e.PubrecExpiry? && e.id == id && s.recs[id].attempts < 3)
    || (s.recs[id].armed && !(e.PubrecExpiry? && e.id == id))
  }

  /** A PUBREL exchange ends with PUBCOMP, a failed write, or a drain. */
  predicate RecEnds(s: State, e: Event, id: u16)
    requires Sound(s)
  {
    (e.Packet? && Kind(e.data, 7) && AckOf(e.data) == id) || e == PubrelWrite(id, false) || Drains(s, e)
  }

  ghost predicate PubTimer(s: State, t: State, id: u16, waits: bool)
    requires id in s.pubs
  {
    id in t.pubs && t.pubs[id].handle == s.pubs[id].handle ==> (t.pubs[id].armed <==> waits)
  }

  ghost predicate RecTimer(s: State, t: State, id: u16, ends: bool, waits: bool)
    requires id in s.recs
  {
    && (ends <==> id !in t.recs)
    && (id in t.recs && t.recs[id].serial == s.recs[id].serial ==> (t.recs[id].armed <==> waits))
  }

  lemma PubTimerOfPacket(s: State, data: bytes, id: u16)
    requires Sound(s) && id in s.pubs
    ensures PubTimer(s, HandlePacket(s, data), id, PubWaits(s, Event.Packet(data), id))
  {
    hide PubTimer, HandlePacket, PubWaits, AckOf;
    if Kind(data, 5) {
      PubTimerOfPubrec(s, data, id);
    } else {
      PubTimerOfOtherPacket(s, data, id);
    }
  }

  lemma PubTimerOfPubrec(s: State, data: bytes, id: u16)
    requires id in s.pubs && Kind(data, 5)
    ensures PubTimer(s, HandlePacket(s, data), id, PubWaits(s, Event.Packet(data), id))
  {
    hide AckOf;
  }

  lemma PubTimerOfOtherPacket(s: State, data: bytes, id: u16)
    requires id in s.pubs && !Kind(data, 5)
    ensures PubTimer(s, HandlePacket(s, data), id, PubWaits(s, Event.Packet(data), id))
  {
    hide AckOf, SubackOf, PublishOf, ConnackOf, Drain;
  }

  lemma PubTimerOfCall(s: State, c: Call, id: u16)
    requires Sound(s) && id in s.pubs && s.pubs[id].handle < |s.calls|
    ensures PubTimer(s, AsyncPublish(s, c), id, s.pubs[id].armed)
  {
    hide FirstFree, Used, Drain;
  }

  lemma PubTimerOfExpiry(s: State, j: u16, current: bool, id: u16)
    requires id in s.pubs
    ensures PubTimer(s, PublishTimer(s, j, current), id, s.pubs[id].armed || j == id)
  {
    hide Drain;
  }

  lemma PubTimerOfOthers(s: State, e: Event, id: u16)
    requires Sound(s) && id in s.pubs && !e.Publish? && !e.PublishExpiry? && !e.Packet?
    ensures PubTimer(s, Step(s, e), id, PubWaits(s, e, id))
  {
    hide FirstFree, Used, Drain;
  }

  /** Exactly when the retry wait of a publish is outstanding after an event. */
  lemma PubWaitIff(s: State, e: Event, id: u16)
    requires Sound(s) && id in s.pubs && s.pubs[id].handle < |s.calls|
    ensures PubTimer(s, Step(s, e), id, PubWaits(s, e, id))
  {
    hide AsyncPublish, PublishTimer, HandlePacket, Sound, AckOf;
    match e
    case Publish(c) => PubTimerOfCall(s, c, id);
    case PublishExpiry(j, current) => PubTimerOfExpiry(s, j, current, id);
    case Packet(data) => PubTimerOfPacket(s, data, id);
    case _ => PubTimerOfOthers(s, e, id);
  }

  lemma RecTimerOfPacket(s: State, data: bytes, id: u16)
    requires Sound(s) && id in s.recs && s.recs[id].serial < |s.accepted|
    ensures var e := Event.Packet(data); RecTimer(s, HandlePacket(s, data), id, RecEnds(s, e, id), RecWaits(s, e, id))
  {
    QosFits(data);
    hide AckOf, SubackOf, PublishOf, ConnackOf, Drain, FirstFree, Used;
  }

  lemma RecTimerOfCall(s: State, c: Call, id: u16)
    requires Sound(s) && id in s.recs
    ensures RecTimer(s, AsyncPublish(s, c), id, Drains(s, Publish(c)), s.recs[id].armed)
  {
    hide FirstFree, Used, Drain;
  }

  lemma RecTimerOfPublish(s: State, j: u16, current: bool, id: u16)
    requires Sound(s) && id in s.recs
    ensures RecTimer(s, PublishTimer(s, j, current), id, Drains(s, PublishExpiry(j, current)), s.recs[id].armed)
  {
    hide Drain, FirstFree, Used;
  }

  lemma RecTimerOfExpiry(s: State, j: u16, current: bool, id: u16)
    requires Sound(s) && id in s.recs
    ensures var e := PubrecExpiry(j, current);
      RecTimer(s, PubrecTimer(s, j, current), id, Drains(s, e),
               if j == id && s.recs[id].attempts >= 3 then false else s.recs[id].armed || j == id)
  {
    hide Drain, FirstFree, Used;
  }

  lemma RecTimerOfOthers(s: State, e: Event, id: u16)
    requires Sound(s) && id in s.recs && !e.Publish? && !e.PublishExpiry? && !e.PubrecExpiry? && !e.Packet?
    ensures RecTimer(s, Step(s, e), id, RecEnds(s, e, id), RecWaits(s, e, id))
  {
    hide FirstFree, Used, Drain;
  }

  /** Exactly when a PUBREL exchange ends, and when its wait is outstanding after an event. */
  lemma RecWaitIff(s: State, e: Event, id: u16)
    requires Sound(s) && id in s.recs && s.recs[id].serial < |s.accepted|
    ensures RecTimer(s, Step(s, e), id, RecEnds(s, e, id), RecWaits(s, e, id))
  {
    hide AsyncPublish, PublishTimer, PubrecTimer, HandlePacket, Sound, AckOf, Drains;
    match e
    case Publish(c) => RecTimerOfCall(s, c, id);
    case PublishExpiry(j, current) => RecTimerOfPublish(s, j, current, id);
    case PubrecExpiry(j, current) => RecTimerOfExpiry(s, j, current, id);
    case Packet(data) => RecTimerOfPacket(s, data, id);
    case _ => RecTimerOfOthers(s, e, id);
  }

  /** An exchange begins under an id without one exactly if a PUBREC finds a publish there. */
  lemma RecStartsIff(s: State, e: Event, id: u16)
    requires Sound(s) && id !in s.recs
    ensures id in Step(s, e).recs <==> Reopens(s, e, id)
  {
    hide PubrecTimer, AckOf, Sound;
    if Reopens(s, e, id) {
      assert id in HandlePubrec(s, id).recs;
    } else {
      EndedStays(s, e, id);
      hide Step, P.RelsFor;
    }
  }

  /** A PUBREC that finds a publish starts its exchange afresh, whatever was there; no other step takes one. */
  predicate Starts(s: State, t: State, id: u16) {
    t.accepted == s.accepted + [id] && id in t.recs && t.recs[id] == Rec(|s.accepted|, 0, true)
  }

  lemma StepAccepts(s: State, e: Event)
    requires Sound(s)
    ensures if e.Packet? && Reopens(s, e, AckOf(e.data)) then Starts(s, Step(s, e), AckOf(e.data))
            else Step(s, e).accepted == s.accepted
  {
    hide AckOf, Sound, PubrecTimer;
    if e.Packet? && Kind(e.data, 5) {
      PubrecAccepts(s, e.data);
      hide HandlePacket, Kind;
    } else if e.PubrecExpiry? {
      ExpiryAccepts(s, e.id, e.current);
    } else {
      P.StepIsQuiet(s, e);
      hide Step;
    }
  }

  lemma PubrecAccepts(s: State, data: bytes)
    requires Kind(data, 5)
    ensures var t := HandlePacket(s, data);
      if AckOf(data) in s.pubs then Starts(s, t, AckOf(data)) else t.accepted == s.accepted
  {
    hide AckOf;
  }

  lemma ExpiryAccepts(s: State, id: u16, current: bool)
    ensures PubrecTimer(s, id, current).accepted == s.accepted
  {
    hide Drain;
  }

  // ------------------------------------------------------------ subscribes

  /** A subscribe ends with its SUBACK, type 9, with a failed write, or with a drain. */
  predicate SubEnds(s: State, e: Event, id: u16)
    requires Sound(s)
  {
    (e.Packet? && Kind(e.data, 9) && SubackOf(e.data).packetId == id) || e == SubscribeWrite(id, false) || Drains(s, e)
  }

  /** What the table holds after an event: what it held and did not end, and a call that was taken. */
  ghost predicate SubsAre(s: State, e: Event, t: State)
    requires Sound(s)
  {
    var next := FirstFree(s.cursor, Used(s));
    && (forall id :: id in t.subs <==> (id in s.subs && !SubEnds(s, e, id)) || (Subscribes(s, e) && id == next))
    && (forall id :: id in t.subs && !(Subscribes(s, e) && id == next) ==> t.subs[id] == s.subs[id])
    && (Subscribes(s, e) ==> t.subs[next] == Sub(e.topic, e.qos, e.hasCallback))
  }

  lemma PublishSubs(s: State, c: Call)
    requires Sound(s)
    ensures SubsAre(s, Publish(c), AsyncPublish(s, c))
  {
    hide FirstFree, Used, Drain;
  }

  lemma PacketSubs(s: State, data: bytes)
    requires Sound(s)
    ensures SubsAre(s, Event.Packet(data), HandlePacket(s, data))
  {
    hide HandlePacket, SubsAre;
    if Kind(data, 9) {
      SubackSubs(s, data);
    } else {
      OtherPacketSubs(s, data);
      SubsStay(s, Event.Packet(data), HandlePacket(s, data));
    }
  }

  lemma OtherPacketSubs(s: State, data: bytes)
    requires Sound(s) && !Kind(data, 9)
    ensures HandlePacket(s, data).subs == if Drains(s, Event.Packet(data)) then map[] else s.subs
  {
    QosFits(data);
    hide AckOf, SubackOf, PublishOf, ConnackOf, FirstFree, Used, Drain;
  }

  lemma SubackSubs(s: State, data: bytes)
    requires Sound(s) && Kind(data, 9)
    ensures SubsAre(s, Event.Packet(data), HandlePacket(s, data))
  {
    hide SubackOf, PublishOf, FirstFree, Used, Drain;
  }

  lemma SubsStay(s: State, e: Event, t: State)
    requires Sound(s) && !(e.Packet? && Kind(e.data, 9)) && !e.SubscribeWrite? && !e.Subscribe?
    requires t.subs == if Drains(s, e) then map[] else s.subs
    ensures SubsAre(s, e, t)
  {
    hide FirstFree, Used, Drains, SubackOf;
  }

  lemma PublishTimerSubs(s: State, id: u16, current: bool)
    requires Sound(s)
    ensures SubsAre(s, PublishExpiry(id, current), PublishTimer(s, id, current))
  {
    hide FirstFree, Used, Drain, SubsAre;
    SubsStay(s, PublishExpiry(id, current), PublishTimer(s, id, current));
  }

  lemma PubrecTimerSubs(s: State, id: u16, current: bool)
    requires Sound(s)
    ensures SubsAre(s, PubrecExpiry(id, current), PubrecTimer(s, id, current))
  {
    hide FirstFree, Used, Drain, SubsAre;
    SubsStay(s, PubrecExpiry(id, current), PubrecTimer(s, id, current));
  }

  lemma SubscribeSubs(s: State, e: Event)
    requires Sound(s) && (e.Subscribe? || e.SubscribeWrite?)
    ensures SubsAre(s, e, Step(s, e))
  {
    hide FirstFree, Used, Drain;
  }

  lemma OtherSubs(s: State, e: Event)
    requires Sound(s) && !e.Publish? && !e.PublishExpiry? && !e.PubrecExpiry? && !e.Packet?
    ensures SubsAre(s, e, Step(s, e))
  {
    if e.Subscribe? || e.SubscribeWrite? {
      SubscribeSubs(s, e);
    } else {
      hide FirstFree, Used, Drain, SubsAre;
      SubsStay(s, e, Step(s, e));
    }
  }

  /** Which subscribes wait for an answer after an event, and with what topic, QoS and callback. */
  lemma StepSubs(s: State, e: Event)
    requires Sound(s)
    ensures SubsAre(s, e, Step(s, e))
  {
    hide AsyncPublish, PublishTimer, PubrecTimer, HandlePacket, SubsAre, Sound;
    match e
    case Publish(c) => PublishSubs(s, c);
    case PublishExpiry(id, current) => PublishTimerSubs(s, id, current);
    case PubrecExpiry(id, current) => PubrecTimerSubs(s, id, current);
    case Packet(data) => PacketSubs(s, data);
    case _ => OtherSubs(s, e);
  }

  // ------------------------------------------------------------ the id cursor and the window

  /** A publish of QoS 1 or 2 for which an id is left; the full window looks after the id was taken. */
  predicate Names(s: State, e: Event)
    requires Sound(s)
  {
    && e.Publish? && e.call.qos in {1, 2} && !s.closed && s.link == Connected
    && FirstFree(s.cursor, Used(s)) != 0
  }

  /** The entry and the first PUBLISH of a call, under an id. */
  predicate Enters(s: State, c: Call, id: u16, t: State) {
    && t.pubs == s.pubs[id := Pub(|s.calls|, c.topic, c.qos, c.payload, 1, true)]
    && t.frames == s.frames + [PublishFrame(|s.calls|, PublishPacket(id, c.qos, false, c.topic, c.payload))]
  }

  lemma UpdateTwice(m: map<u16, Pub>, id: u16, p: Pub, q: Pub)
    ensures m[id := p][id := q] == m[id := q]
  {
  }

  lemma EnteringEnters(s: State, c: Call, id: u16)
    ensures Enters(s, c, id, SendPublishEntry(Accept(s, c, id), id))
  {
    UpdateTwice(s.pubs, id, Pub(|s.calls|, c.topic, c.qos, c.payload, 1, false),
                Pub(|s.calls|, c.topic, c.qos, c.payload, 1, true));
  }

  lemma PublishCursor(s: State, c: Call)
    requires Sound(s)
    ensures var t, next := AsyncPublish(s, c), FirstFree(s.cursor, Used(s));
      && t.cursor == (if Names(s, Publish(c)) then next else s.cursor)
      && (Names(s, Publish(c)) && |s.pubs| < 1000 ==> Enters(s, c, next, t))
  {
    EnteringEnters(s, c, FirstFree(s.cursor, Used(s)));
    hide FirstFree, Used, Drain, Enters;
  }

  /**
   The cursor moves to the first free id exactly for a publish or subscribe for which there is one, a
   publish that the full window then turns away included; and a publish enters the window under that id.
   */
  lemma StepCursor(s: State, e: Event)
    requires Sound(s)
    ensures var t, next := Step(s, e), FirstFree(s.cursor, Used(s));
      && t.cursor == (if Names(s, e) || Subscribes(s, e) then next else s.cursor)
      && (Names(s, e) && |s.pubs| < 1000 ==> Enters(s, e.call, next, t))
    ensures Names(s, e) || Subscribes(s, e) ==> IsFirstFree(s.cursor, Used(s), 1, FirstFree(s.cursor, Used(s)))
  {
    FirstFreeIsFirst(s.cursor, Used(s));
    hide FirstFree, Used, Drain, IsFirstFree, AsyncPublish, Enters;
    if e.Publish? {
      PublishCursor(s, e.call);
    } else if !e.Subscribe? && !e.Qos0Write? {
      HandlerKeeps(s, e);
      hide Step;
    }
  }

  // ------------------------------------------------------------ what the callbacks are told

  function Told(pubs: map<u16, Pub>, id: u16, ok: bool): seq<Report> {
    if id in pubs then [Report(pubs[id].handle, ok, pubs[id].topic, pubs[id].qos, id)] else []
  }

  /** The publish whose write failed, or that was sent often enough, comes first; then the rest of the window. */
  function Failing(s: State, id: u16): seq<Report> {
    Told(s.pubs, id, false) + if s.closed then [] else Drain(s.pubs - {id}, 0)
  }

  /** The callbacks that an event runs, in their order. */
  function Heard(s: State, e: Event): seq<Report>
    requires Sound(s)
  {
    match e
    case Publish(c) =>
      (if Drains(s, e) then Drain(s.pubs, 0) else [])
      + if TakesCall(s, c) then [] else [Report(|s.calls|, false, c.topic, c.qos, 0)]
    case Packet(data) =>
      if Kind(data, 4) || Kind(data, 7) then Told(s.pubs, AckOf(data), true)
      else if Drains(s, e) then Drain(s.pubs, 0) else []
    case PublishWrite(id, ok) => if ok then [] else Failing(s, id)
    case PublishExpiry(id, _) => if id in s.pubs && s.pubs[id].attempts >= 3 then Failing(s, id) else []
    case Qos0Write(handle, ok) => if handle in s.qos0 then [Report(handle, ok, s.calls[handle].topic, 0, 0)] else []
    case _ => if Drains(s, e) then Drain(s.pubs, 0) else []
  }

  ghost predicate Hears(s: State, t: State, heard: seq<Report>) {
    t.reports == s.reports + heard
  }

  lemma PublishHears(s: State, c: Call)
    requires Sound(s)
    ensures Hears(s, AsyncPublish(s, c), Heard(s, Publish(c)))
  {
    hide FirstFree, Used, Drain;
    var t := AsyncPublish(s, c);
    assert [] + Heard(s, Publish(c)) == Heard(s, Publish(c));
    assert s.reports + [] == s.reports;
    if Drains(s, Publish(c)) {
      assert t.reports == s.reports + Drain(s.pubs, 0) + [Report(|s.calls|, false, c.topic, c.qos, 0)];
    }
  }

  lemma PacketHears(s: State, data: bytes)
    requires Sound(s)
    ensures Hears(s, HandlePacket(s, data), Heard(s, Event.Packet(data)))
  {
    QosFits(data);
    hide AckOf, SubackOf, PublishOf, ConnackOf, FirstFree, Used, Drain;
    assert s.reports + [] == s.reports;
  }

  lemma FailureHears(s: State, a: State, id: u16)
    requires a.reports == s.reports && a.closed == s.closed && a.pubs.Keys == s.pubs.Keys
    requires id in s.pubs ==> a.pubs == s.pubs[id := s.pubs[id].(armed := a.pubs[id].armed)]
    requires id !in s.pubs ==> a.pubs == s.pubs
    ensures Hears(s, FinishPublishFailure(a, id), Failing(s, id))
  {
    hide Drain;
    assert a.pubs - {id} == s.pubs - {id};
    assert id !in s.pubs ==> s.pubs - {id} == s.pubs;
    assert s.reports + [] == s.reports;
    if id in s.pubs && !s.closed {
      assert FinishPublishFailure(a, id).reports == s.reports + Told(s.pubs, id, false) + Drain(s.pubs - {id}, 0);
    }
  }

  lemma PublishTimerIs(s: State, id: u16, current: bool, a: State)
    requires id in s.pubs && a == if current then Arm(s, id, false) else s
    ensures a.reports == s.reports && a.closed == s.closed
    ensures a.pubs == s.pubs[id := s.pubs[id].(armed := a.pubs[id].armed)]
    ensures PublishTimer(s, id, current)
         == if s.pubs[id].attempts >= 3 then FinishPublishFailure(a, id) else SendPublishEntry(Bump(a, id), id)
  {
    hide FinishPublishFailure, SendPublishEntry, Bump;
  }

  lemma PublishTimerHears(s: State, id: u16, current: bool)
    requires Sound(s)
    ensures Hears(s, PublishTimer(s, id, current), Heard(s, PublishExpiry(id, current)))
  {
    hide FinishPublishFailure, Failing, Hears, SendPublishEntry, Bump, Sound;
    var a := if current then Arm(s, id, false) else s;
    if id in s.pubs {
      PublishTimerIs(s, id, current, a);
      hide PublishTimer, Arm;
      if s.pubs[id].attempts >= 3 {
        FailureHears(s, a, id);
      } else {
        RetryHears(s, a, id);
      }
    } else {
      RetryHears(s, s, id);
    }
  }

  lemma RetryHears(s: State, a: State, id: u16)
    requires a.reports == s.reports && a.pubs.Keys == s.pubs.Keys
    ensures Hears(s, s, []) && (id in s.pubs ==> Hears(s, SendPublishEntry(Bump(a, id), id), []))
  {
    assert s.reports + [] == s.reports;
  }

  lemma PubrecTimerHears(s: State, id: u16, current: bool)
    requires Sound(s)
    ensures Hears(s, PubrecTimer(s, id, current), Heard(s, PubrecExpiry(id, current)))
  {
    hide Drain, FirstFree, Used;
    assert s.reports + [] == s.reports;
  }

  lemma WriteHears(s: State, id: u16, ok: bool)
    requires Sound(s)
    ensures Hears(s, Step(s, PublishWrite(id, ok)), Heard(s, PublishWrite(id, ok)))
  {
    hide FinishPublishFailure, Failing;
    if ok {
      assert s.reports + [] == s.reports;
    } else {
      FailureHears(s, s, id);
      hide Hears;
    }
  }

  lemma Qos0Hears(s: State, handle: nat, ok: bool)
    requires Sound(s)
    ensures Hears(s, Step(s, Qos0Write(handle, ok)), Heard(s, Qos0Write(handle, ok)))
  {
    assert s.reports + [] == s.reports;
  }

  lemma SubscribeHears(s: State, e: Event)
    requires Sound(s) && e.Subscribe?
    ensures Hears(s, Step(s, e), Heard(s, e))
  {
    hide Drain, FirstFree, Used;
    assert s.reports + [] == s.reports;
  }

  lemma OthersHear(s: State, e: Event)
    requires Sound(s) && !e.Publish? && !e.PublishExpiry? && !e.PubrecExpiry? && !e.Packet?
    requires !e.PublishWrite? && !e.Qos0Write? && !e.Subscribe?
    ensures Hears(s, Step(s, e), Heard(s, e))
  {
    hide Drain;
    assert s.reports + [] == s.reports;
  }

  /** Every step runs exactly these callbacks, with these values, in this order. */
  lemma StepHears(s: State, e: Event)
    requires Sound(s)
    ensures Hears(s, Step(s, e), Heard(s, e))
  {
    hide AsyncPublish, PublishTimer, PubrecTimer, HandlePacket, Hears, Sound, Heard;
    match e
    case Publish(c) => PublishHears(s, c);
    case PublishExpiry(id, current) => PublishTimerHears(s, id, current);
    case PubrecExpiry(id, current) => PubrecTimerHears(s, id, current);
    case Packet(data) => PacketHears(s, data);
    case PublishWrite(id, ok) => WriteHears(s, id, ok);
    case Qos0Write(handle, ok) => Qos0Hears(s, handle, ok);
    case Subscribe(_, _, _) => SubscribeHears(s, e);
    case _ => OthersHear(s, e);
  }

  /** Only a connect, or a CONNACK that accepts, opens a session that is marked closed. */
  lemma ReopensIff(s: State, e: Event)
    requires Sound(s) && s.closed
    ensures !Step(s, e).closed <==> e.Connect? || (e.Packet? && Accepts(e.data))
  {
    hide FirstFree, Used, Drain, AckOf, SubackOf, PublishOf, ConnackOf;
    if e.Packet? && e.data != [] {
      AcceptsIff(e.data);
    }
  }
}
