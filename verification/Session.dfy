/**
 The in-flight window of the client: the three maps keyed by packet id, what every handler of the io
 thread does to them, and the single routine that drains them. A state also carries the history the
 delivery contract is about: the publish calls, the callbacks, the frames queued for writing, the
 PUBRECs taken, and the connect and close notifications.

 Each handler is one atomic step. Write completions, timer expiries and packets may arrive for any id
 at any time, also for exchanges that are long over.
 */
module Session {
  import opened Bytes
  import opened Packets
  import opened PacketIds

  const MAX_ATTEMPTS := 3
  const MAX_PENDING := 1000

  datatype Link = Disconnected | Connecting | Handshaking | Connected

  /** A call of async_publish; its position in the list of calls is its handle. */
  datatype Call = Call(topic: bytes, payload: bytes, qos: byte)

  /** `armed`: a wait of the entry's retry timer is outstanding. */
  datatype Pub = Pub(handle: nat, topic: bytes, qos: byte, payload: bytes, attempts: nat, armed: bool)
  datatype Rec = Rec(serial: nat, attempts: nat, armed: bool)
  datatype Sub = Sub(topic: bytes, qos: byte, hasCallback: bool)

  /** One invocation of a publish callback. */
  datatype Report = Report(handle: nat, ok: bool, topic: bytes, qos: byte, packetId: u16)

  /** The first octet of an acknowledgement that the client sends. */
  type AckHead = b: byte | b in {PUBACK * 16, PUBREC * 16, PUBCOMP * 16} witness PUBACK * 16

  /** A frame handed to the connection. `serial` numbers the PUBRECs that were accepted. */
  datatype Frame =
    | ConnectFrame
    | PublishFrame(handle: nat, packet: PublishPacket)
    | PubrelFrame(serial: nat, packetId: u16)
    | SubscribeFrame(packetId: u16, topic: bytes, qos: byte)
    | AckFrame(head: AckHead, packetId: u16)

  datatype Signal = OnConnect(ok: bool) | OnClose

  datatype State = State(
    closed: bool,
    link: Link,
    cursor: u16,
    pubs: map<u16, Pub>,
    recs: map<u16, Rec>,
    subs: map<u16, Sub>,
    qos0: set<nat>,           // handles of QoS 0 publishes whose frame was handed to the connection
    written: multiset<nat>,   // the write handlers of those frames that have run
    calls: seq<Call>,
    reports: seq<Report>,
    frames: seq<Frame>,
    accepted: seq<u16>,       // packet ids of the PUBRECs accepted, by serial
    signals: seq<Signal>)

  const INITIAL := State(false, Disconnected, 1, map[], map[], map[], {}, multiset{}, [], [], [], [], [])

  function Used(s: State): set<u16> {
    s.pubs.Keys + s.subs.Keys + s.recs.Keys
  }

  function Queue(s: State, f: Frame): State {
    s.(frames := s.frames + [f])
  }

  function Signalled(s: State, g: Signal): State {
    s.(signals := s.signals + [g])
  }

  /** A session that becomes closed says so, by a close or by a failed connect; none is announced twice. */
  predicate Announced(s: State, t: State) {
    || (t.signals == s.signals && (t.closed ==> s.closed))
    || t.signals == s.signals + [OnClose]
    || t.signals == s.signals + [OnConnect(false)]
    || (t.signals == s.signals + [OnConnect(true)] && !t.closed)
  }

  /**
   What no handler of the io thread does: it makes no call, moves no cursor and gives no id to a
   publish or a subscribe. Only a publish hands its id on, to the PUBREL exchange that continues it.
   */
  predicate Keeps(s: State, t: State) {
    && t.cursor == s.cursor && t.qos0 == s.qos0 && t.written == s.written && t.calls == s.calls
    && t.pubs.Keys <= s.pubs.Keys && t.subs.Keys <= s.subs.Keys && t.recs.Keys <= s.recs.Keys + s.pubs.Keys
    && Announced(s, t)
  }

  // ------------------------------------------------------------ reporting

  /** The publish entry of `id` leaves the window and its callback runs. */
  function Retire(s: State, id: u16, ok: bool): State
    requires id in s.pubs
  {
    var p := s.pubs[id];
    s.(pubs := s.pubs - {id}, reports := s.reports + [Report(p.handle, ok, p.topic, p.qos, id)])
  }

  /** A call that never enters the window. */
  function Reject(s: State, c: Call): State {
    s.(calls := s.calls + [c], reports := s.reports + [Report(|s.calls|, false, c.topic, c.qos, 0)])
  }

  /** The callbacks of a drain, in ascending order of packet id. */
  function Drain(pubs: map<u16, Pub>, from: nat): seq<Report>
    decreases 0x1_0000 - from
  {
    if from >= 0x1_0000 then []
    else
      (if from in pubs then [Report(pubs[from].handle, false, pubs[from].topic, pubs[from].qos, from)] else [])
      + Drain(pubs, from + 1)
  }

  function NotifyClosedOnce(s: State): (t: State)
    ensures Keeps(s, t)
  {
    if s.closed then s
    else
      s.(closed := true, link := Disconnected, pubs := map[], recs := map[], subs := map[],
         reports := s.reports + Drain(s.pubs, 0), signals := s.signals + [OnClose])
  }

  function FinishPublishFailure(s: State, id: u16): (t: State)
    ensures Keeps(s, t)
  {
    NotifyClosedOnce(if id in s.pubs then Retire(s, id, false) else s)
  }

  // ------------------------------------------------------------ publishing

  function Arm(s: State, id: u16, on: bool): State {
    if id in s.pubs then s.(pubs := s.pubs[id := s.pubs[id].(armed := on)]) else s
  }

  function ArmRec(s: State, id: u16, on: bool): State {
    if id in s.recs then s.(recs := s.recs[id := s.recs[id].(armed := on)]) else s
  }

  function Bump(s: State, id: u16): State
    requires id in s.pubs
  {
    s.(pubs := s.pubs[id := s.pubs[id].(attempts := s.pubs[id].attempts + 1)])
  }

  function BumpRec(s: State, id: u16): State
    requires id in s.recs
  {
    s.(recs := s.recs[id := s.recs[id].(attempts := s.recs[id].attempts + 1)])
  }

  function EntryPacket(p: Pub, id: u16): PublishPacket {
    PublishPacket(id, p.qos, p.attempts > 1, p.topic, p.payload)
  }

  function SendPublishEntry(s: State, id: u16): (t: State)
    ensures Keeps(s, t)
  {
    if id !in s.pubs then s
    else Queue(Arm(s, id, true), PublishFrame(s.pubs[id].handle, EntryPacket(s.pubs[id], id)))
  }

  function Accept(s: State, c: Call, id: u16): State {
    s.(cursor := id, calls := s.calls + [c],
       pubs := s.pubs[id := Pub(|s.calls|, c.topic, c.qos, c.payload, 1, false)])
  }

  function AcceptQos0(s: State, c: Call): State {
    Queue(s.(calls := s.calls + [c], qos0 := s.qos0 + {|s.calls|}),
          PublishFrame(|s.calls|, PublishPacket(0, 0, false, c.topic, c.payload)))
  }

  /** A QoS 1 or 2 publish on an established session. The cursor moves even if the window is full. */
  function EnterWindow(s: State, c: Call): State
    requires s.cursor > 0
  {
    var id := FirstFree(s.cursor, Used(s));
    if id == 0 then Reject(NotifyClosedOnce(s), c)
    else if |s.pubs| >= MAX_PENDING then Reject(s.(cursor := id), c)
    else SendPublishEntry(Accept(s, c, id), id)
  }

  function AsyncPublish(s: State, c: Call): State
    requires s.cursor > 0
  {
    if c.qos > 2 then Reject(s, c)
    else if s.closed then Reject(s, c)
    else if s.link != Connected then Reject(s, c)
    else if c.qos == 0 then AcceptQos0(s, c)
    else EnterWindow(s, c)
  }

  /**
   The write handler of a QoS 0 frame runs: each time it does, it reports. Only a frame that was
   handed over has one.
   */
  function Qos0Written(s: State, handle: nat, ok: bool): State
    requires handle in s.qos0 ==> handle < |s.calls|
  {
    if handle !in s.qos0 then s
    else
      s.(written := s.written + multiset{handle},
         reports := s.reports + [Report(handle, ok, s.calls[handle].topic, 0, 0)])
  }

  function PublishWritten(s: State, id: u16, ok: bool): (t: State)
    ensures Keeps(s, t)
  {
    if !ok then FinishPublishFailure(s, id) else Arm(s, id, true)
  }

  /**
   A wait of the publish timer completed without an error. `current` says that it is the
   outstanding wait; a wait that was re-armed after it had expired completes all the same.
   */
  function PublishTimer(s: State, id: u16, current: bool): (t: State)
    ensures Keeps(s, t)
  {
    if id !in s.pubs then s
    else
      var t := if current then Arm(s, id, false) else s;
      if t.pubs[id].attempts >= MAX_ATTEMPTS then FinishPublishFailure(t, id)
      else SendPublishEntry(Bump(t, id), id)
  }

  // ------------------------------------------------------------ acknowledgements

  function HandlePuback(s: State, id: u16): State {
    if id in s.pubs then Retire(s, id, true) else s
  }

  function SendPubrel(s: State, id: u16): State
    requires id in s.recs
  {
    Queue(ArmRec(s, id, true), PubrelFrame(s.recs[id].serial, id))
  }

  /** A PUBREC for a publish in the window; the entry stays there until PUBCOMP. */
  function TakePubrec(s: State, id: u16): State {
    Arm(s, id, false).(recs := s.recs[id := Rec(|s.accepted|, 0, false)], accepted := s.accepted + [id])
  }

  function HandlePubrec(s: State, id: u16): (t: State)
    ensures Keeps(s, t)
  {
    if id in s.pubs then SendPubrel(TakePubrec(s, id), id) else s
  }

  function HandlePubcomp(s: State, id: u16): (t: State)
    ensures Keeps(s, t)
  {
    var t := s.(recs := s.recs - {id});
    if id in t.pubs then Retire(t, id, true) else t
  }

  function PubrelWritten(s: State, id: u16, ok: bool): (t: State)
    ensures Keeps(s, t)
  {
    if !ok then s.(recs := s.recs - {id}) else ArmRec(s, id, true)
  }

  function PubrecTimer(s: State, id: u16, current: bool): (t: State)
    ensures Keeps(s, t)
  {
    if id !in s.recs then s
    else
      var t := if current then ArmRec(s, id, false) else s;
      if t.recs[id].attempts >= MAX_ATTEMPTS then NotifyClosedOnce(ArmRec(t, id, false))
      else SendPubrel(BumpRec(t, id), id)
  }

  // ------------------------------------------------------------ subscribing

  function AsyncSubscribe(s: State, topic: bytes, qos: byte, hasCallback: bool): State
    requires s.cursor > 0
  {
    if s.closed || qos > 2 then s
    else
      var id := FirstFree(s.cursor, Used(s));
      if id == 0 then NotifyClosedOnce(s)
      else Queue(s.(cursor := id, subs := s.subs[id := Sub(topic, qos, hasCallback)]), SubscribeFrame(id, topic, qos))
  }

  function SubscribeWritten(s: State, id: u16, ok: bool): (t: State)
    ensures Keeps(s, t)
  {
    if id in s.subs && !ok then s.(subs := s.subs - {id}) else s
  }

  /** A SUBACK with too few return codes ends the session, if anybody listens. */
  function HandleSuback(s: State, p: SubackPacket): (t: State)
    ensures Keeps(s, t)
  {
    if p.packetId !in s.subs then s
    else
      var sub := s.subs[p.packetId];
      var t := s.(subs := s.subs - {p.packetId});
      if sub.hasCallback && p.returnCodes == [] then NotifyClosedOnce(t) else t
  }

  // ------------------------------------------------------------ incoming packets

  function HandlePublish(s: State, p: PublishPacket): (t: State)
    ensures Keeps(s, t)
  {
    if p.qos > 2 then NotifyClosedOnce(s)
    else if p.qos == 1 then Queue(s, AckFrame(PUBACK * 16, p.packetId))
    else if p.qos == 2 then Queue(s, AckFrame(PUBREC * 16, p.packetId))
    else s
  }

  /** An unsolicited or repeated CONNACK is acted on like the first one. */
  function HandleConnack(s: State, p: ConnackPacket): State {
    if p.returnCode == 0 then Signalled(s.(link := Connected, closed := false), OnConnect(true))
    else Signalled(s.(link := Disconnected, closed := true), OnConnect(false))
  }

  function HandlePacket(s: State, data: bytes): (t: State)
    ensures Keeps(s, t)
  {
    if data == [] then s
    else
      var kind := data[0] / 16;
      if kind == CONNACK then HandleConnack(s, ConnackOf(data))
      else if kind == PUBLISH then HandlePublish(s, PublishOf(data))
      else if kind == SUBACK then HandleSuback(s, SubackOf(data))
      else if kind == PUBACK then HandlePuback(s, AckOf(data))
      else if kind == PUBREC then HandlePubrec(s, AckOf(data))
      else if kind == PUBREL then Queue(s, AckFrame(PUBCOMP * 16, AckOf(data)))
      else if kind == PUBCOMP then HandlePubcomp(s, AckOf(data))
      else s
  }

  // ------------------------------------------------------------ connecting

  function AsyncConnect(s: State): State {
    s.(closed := false, link := Connecting)
  }

  /** The TCP connect completed. The connection notes it before the client looks whether it still cares. */
  function TcpDone(s: State, ok: bool): State {
    var t := s.(link := if ok then Handshaking else Disconnected);
    if t.closed then t
    else if !ok then Signalled(t, OnConnect(false))
    else Queue(t, ConnectFrame)
  }

  function ResolveFailed(s: State): State {
    if s.closed then s else Signalled(s, OnConnect(false))
  }

  function ConnectTimeout(s: State): State {
    if s.closed then s
    else Signalled(s.(closed := true, link := Disconnected), OnConnect(false))
  }

  // ------------------------------------------------------------ runs

  datatype Event =
    | Publish(call: Call)
    | Subscribe(topic: bytes, qos: byte, hasCallback: bool)
    | PublishWrite(id: u16, ok: bool)
    | PubrelWrite(id: u16, ok: bool)
    | SubscribeWrite(id: u16, ok: bool)
    | Qos0Write(handle: nat, ok: bool)
    | PublishExpiry(id: u16, current: bool)
    | PubrecExpiry(id: u16, current: bool)
    | Packet(data: bytes)
    | SessionFailure      // a failed read, a failed PUBACK, PUBREC, PUBCOMP, CONNECT or ping write, a missed ping
    | Connect
    | TcpResult(ok: bool)
    | ResolveFailure
    | ConnectExpiry
    | LinkLost            // the connection gave up its socket: a failed write, close(), a completed DISCONNECT

  /** A QoS 0 write can only complete for a call that was made. */
  predicate Sound(s: State) {
    s.cursor > 0 && forall h :: h in s.qos0 ==> h < |s.calls|
  }

  function Step(s: State, e: Event): State
    requires Sound(s)
  {
    match e
    case Publish(c) => AsyncPublish(s, c)
    case Subscribe(topic, qos, hasCallback) => AsyncSubscribe(s, topic, qos, hasCallback)
    case PublishWrite(id, ok) => PublishWritten(s, id, ok)
    case PubrelWrite(id, ok) => PubrelWritten(s, id, ok)
    case SubscribeWrite(id, ok) => SubscribeWritten(s, id, ok)
    case Qos0Write(h, ok) => Qos0Written(s, h, ok)
    case PublishExpiry(id, current) => PublishTimer(s, id, current)
    case PubrecExpiry(id, current) => PubrecTimer(s, id, current)
    case Packet(data) => HandlePacket(s, data)
    case SessionFailure => NotifyClosedOnce(s)
    case Connect => AsyncConnect(s)
    case TcpResult(ok) => TcpDone(s, ok)
    case ResolveFailure => ResolveFailed(s)
    case ConnectExpiry => ConnectTimeout(s)
    case LinkLost => s.(link := Disconnected)
  }

  lemma StepIsSound(s: State, e: Event)
    requires Sound(s)
    ensures Sound(Step(s, e))
  {
    match e
    case Publish(c) => PublishIsSound(s, c);
    case Subscribe(topic, qos, hasCallback) => FirstFreeIsFirst(s.cursor, Used(s));
    case Qos0Write(handle, ok) =>
    case _ =>
      HandlerKeeps(s, e);
      hide Step;
  }

  /** Only a call or the completion of a QoS 0 write does more than a handler may. */
  lemma HandlerKeeps(s: State, e: Event)
    requires Sound(s) && !e.Publish? && !e.Subscribe? && !e.Qos0Write?
    ensures Keeps(s, Step(s, e))
  {
    hide PublishWritten, PubrelWritten, SubscribeWritten, PublishTimer, PubrecTimer, HandlePacket, NotifyClosedOnce;
  }

  lemma PublishIsSound(s: State, c: Call)
    requires Sound(s)
    ensures Sound(AsyncPublish(s, c))
  {
    EnteringIsSound(s, c);
    hide EnterWindow;
  }

  lemma EnteringIsSound(s: State, c: Call)
    requires Sound(s)
    ensures Sound(EnterWindow(s, c))
  {
  }

  function Run(s: State, es: seq<Event>): (t: State)
    requires Sound(s)
    ensures Sound(t)
    decreases |es|
  {
    if es == [] then s
    else
      StepIsSound(s, es[0]);
      Run(Step(s, es[0]), es[1..])
  }

  lemma {:induction false} RunSnoc(s: State, es: seq<Event>, e: Event)
    requires Sound(s)
    ensures Run(s, es + [e]) == Step(Run(s, es), e)
    decreases |es|
  {
    StepIsSound(s, if es == [] then e else es[0]);
    hide Step, Sound;
    if es == [] {
      assert (es + [e])[1..] == [];
    } else {
      assert (es + [e])[1..] == es[1..] + [e];
      RunSnoc(Step(s, es[0]), es[1..], e);
    }
  }

  /** The states of the client are those that some run leads to. */
  function Reached(es: seq<Event>): State {
    Run(INITIAL, es)
  }
}
