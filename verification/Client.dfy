/**
 The client object itself: the handlers of the io thread, each updating the fields in place, proved
 to do what the corresponding step of the session does.
 */
module Client {
  import opened Bytes
  import opened Packets
  import opened PacketIds
  import opened Session
  import opened Accounting

  class MqttClient {
    var closed: bool
    var link: Link
    var nextPacketId: u16
    var pendingPublishes: map<u16, Pub>
    var pendingPubrecs: map<u16, Rec>
    var pendingSubscribes: map<u16, Sub>
    // what the client has asked of its surroundings
    var qos0: set<nat>
    var written: multiset<nat>
    var calls: seq<Call>
    var reports: seq<Report>
    var frames: seq<Frame>
    var accepted: seq<u16>
    var signals: seq<Signal>

    function Abs(): State
      reads this
    {
      State(closed, link, nextPacketId, pendingPublishes, pendingPubrecs, pendingSubscribes,
            qos0, written, calls, reports, frames, accepted, signals)
    }

    constructor ()
      ensures Abs() == INITIAL
    {
      closed, link, nextPacketId := false, Disconnected, 1;
      pendingPublishes, pendingPubrecs, pendingSubscribes := map[], map[], map[];
      qos0, written, calls, reports, frames, accepted, signals := {}, multiset{}, [], [], [], [], [];
    }

    // ---------------------------------------------------------- closing

    method NotifyClosedOnce()
      modifies this
      ensures Abs() == Session.NotifyClosedOnce(old(Abs()))
    {
      hide Drain;
      if closed {
        return;
      }
      closed := true;
      FailPublishes();
      ForgetExchanges();
    }

    /** Clears the maps, closes the connection and says so. */
    method ForgetExchanges()
      modifies this
      ensures Abs() == old(Abs()).(link := Disconnected, pubs := map[], recs := map[], subs := map[],
                                   signals := old(signals) + [OnClose])
    {
      pendingPublishes := map[];
      pendingPubrecs := map[];
      pendingSubscribes := map[];
      link := Disconnected;
      signals := signals + [OnClose];
    }

    /** Runs the callback of every publish in the window, in the order of the map. */
    method FailPublishes()
      modifies this`reports
      ensures reports == old(reports) + Drain(pendingPublishes, 0)
    {
      hide Drain;
      for id := 0 to 0x1_0000
        invariant reports + Drain(pendingPublishes, id) == old(reports) + Drain(pendingPublishes, 0)
      {
        DrainStep(pendingPublishes, id, reports);
        if id in pendingPublishes {
          var p := pendingPublishes[id];
          reports := reports + [Report(p.handle, false, p.topic, p.qos, id)];
        }
      }
      DrainEnd(pendingPublishes, reports, 0x1_0000);
    }

    lemma DrainStep(pubs: map<u16, Pub>, id: nat, done: seq<Report>)
      requires id < 0x1_0000
      ensures done + Drain(pubs, id)
           == (if id in pubs then done + [Report(pubs[id].handle, false, pubs[id].topic, pubs[id].qos, id)] else done)
              + Drain(pubs, id + 1)
    {
    }

    lemma DrainEnd(pubs: map<u16, Pub>, done: seq<Report>, id: nat)
      requires id >= 0x1_0000
      ensures done + Drain(pubs, id) == done
    {
    }

    method FinishPublishFailure(id: u16)
      modifies this
      ensures Abs() == Session.FinishPublishFailure(old(Abs()), id)
    {
      if id in pendingPublishes {
        RetirePublish(id, false);
      }
      NotifyClosedOnce();
    }

    /** Erases a publish and runs its callback. */
    method RetirePublish(id: u16, ok: bool)
      requires id in pendingPublishes
      modifies this
      ensures Abs() == Retire(old(Abs()), id, ok)
    {
      var p := pendingPublishes[id];
      pendingPublishes := pendingPublishes - {id};
      reports := reports + [Report(p.handle, ok, p.topic, p.qos, id)];
    }

    // ---------------------------------------------------------- packet ids

    /** The next free id; without one the session is closed, and the answer is 0. */
    method AcquirePacketId() returns (id: u16)
      requires nextPacketId > 0
      modifies this
      ensures id == FirstFree(old(nextPacketId), Used(old(Abs())))
      ensures Abs() == if id == 0 then Session.NotifyClosedOnce(old(Abs())) else old(Abs()).(cursor := id)
    {
      hide FirstFree;
      id := MoveCursor();
      if id == 0 {
        NotifyClosedOnce();
      }
    }

    /** Advances the cursor until its id is free or it is back where it started. */
    method MoveCursor() returns (id: u16)
      requires nextPacketId > 0
      modifies this`nextPacketId
      ensures id == FirstFree(old(nextPacketId), Used(old(Abs())))
      ensures nextPacketId == if id == 0 then old(nextPacketId) else id
    {
      hide Search, Gap;
      var start := nextPacketId;
      ghost var used := Used(Abs());
      SearchTurn(start, used, start);
      while true
        invariant nextPacketId > 0 && Advance(nextPacketId) > 0
        invariant FirstFree(start, used) == Search(start, used, Advance(nextPacketId))
        decreases Gap(start, Advance(nextPacketId))
      {
        SearchTurn(start, used, Advance(nextPacketId));
        nextPacketId := (nextPacketId + 1) % 0x1_0000;
        if nextPacketId == 0 {
          nextPacketId := nextPacketId + 1;
        }
        if nextPacketId == start {
          return 0;
        }
        if nextPacketId !in pendingPublishes && nextPacketId !in pendingSubscribes && nextPacketId !in pendingPubrecs {
          return nextPacketId;
        }
      }
    }

    // ---------------------------------------------------------- publishing

    method WriteFrame(f: Frame)
      modifies this`frames
      ensures Abs() == Queue(old(Abs()), f)
    {
      frames := frames + [f];
    }

    method ReportRejected(c: Call)
      modifies this
      ensures Abs() == Reject(old(Abs()), c)
    {
      reports := reports + [Report(|calls|, false, c.topic, c.qos, 0)];
      calls := calls + [c];
    }

    method AsyncPublish(c: Call)
      requires nextPacketId > 0
      modifies this
      ensures Abs() == Session.AsyncPublish(old(Abs()), c)
    {
      if c.qos > 2 {
        ReportRejected(c);
        return;
      }
      if closed {
        ReportRejected(c);
        return;
      }
      if link != Connected {
        ReportRejected(c);
        return;
      }
      if c.qos == 0 {
        var handle := |calls|;
        calls := calls + [c];
        qos0 := qos0 + {handle};
        WriteFrame(PublishFrame(handle, PublishPacket(0, 0, false, c.topic, c.payload)));
        return;
      }
      EnterWindow(c);
    }

    method EnterWindow(c: Call)
      requires nextPacketId > 0
      modifies this
      ensures Abs() == Session.EnterWindow(old(Abs()), c)
    {
      hide FirstFree;
      var id := AcquirePacketId();
      if id == 0 {
        ReportRejected(c);
        return;
      }
      if |pendingPublishes| >= MAX_PENDING {
        ReportRejected(c);
        return;
      }
      pendingPublishes := pendingPublishes[id := Pub(|calls|, c.topic, c.qos, c.payload, 1, false)];
      calls := calls + [c];
      assert Abs() == Accept(old(Abs()), c, id);
      SendPublishEntry(id);
    }

    method ArmPublishRetryTimer(id: u16)
      modifies this`pendingPublishes
      ensures Abs() == Arm(old(Abs()), id, true)
    {
      if id in pendingPublishes {
        pendingPublishes := pendingPublishes[id := pendingPublishes[id].(armed := true)];
      }
    }

    method CancelPublishRetryTimer(id: u16)
      modifies this`pendingPublishes
      ensures Abs() == Arm(old(Abs()), id, false)
    {
      if id in pendingPublishes {
        pendingPublishes := pendingPublishes[id := pendingPublishes[id].(armed := false)];
      }
    }

    method SendPublishEntry(id: u16)
      modifies this
      ensures Abs() == Session.SendPublishEntry(old(Abs()), id)
    {
      if id !in pendingPublishes {
        return;
      }
      var p := pendingPublishes[id];
      ArmPublishRetryTimer(id);
      WriteFrame(PublishFrame(p.handle, PublishPacket(id, p.qos, p.attempts > 1, p.topic, p.payload)));
    }

    method OnPublishWritten(id: u16, ok: bool)
      modifies this
      ensures Abs() == PublishWritten(old(Abs()), id, ok)
    {
      if !ok {
        FinishPublishFailure(id);
        return;
      }
      ArmPublishRetryTimer(id);
    }

    /** The handler that the frame of a QoS 0 publish was queued with. */
    method OnQos0Written(handle: nat, ok: bool)
      requires Sound(Abs()) && handle in qos0
      modifies this
      ensures Abs() == Qos0Written(old(Abs()), handle, ok)
    {
      written := written + multiset{handle};
      reports := reports + [Report(handle, ok, calls[handle].topic, 0, 0)];
    }

    method OnPublishTimer(id: u16, current: bool)
      modifies this
      ensures Abs() == PublishTimer(old(Abs()), id, current)
    {
      if id !in pendingPublishes {
        return;
      }
      if current {
        CancelPublishRetryTimer(id);
      }
      if pendingPublishes[id].attempts >= MAX_ATTEMPTS {
        FinishPublishFailure(id);
        return;
      }
      pendingPublishes := pendingPublishes[id := pendingPublishes[id].(attempts := pendingPublishes[id].attempts + 1)];
      SendPublishEntry(id);
    }

    // ---------------------------------------------------------- the PUBREL exchange

    method ArmPubrecRetryTimer(id: u16, on: bool)
      modifies this`pendingPubrecs
      ensures Abs() == ArmRec(old(Abs()), id, on)
    {
      if id in pendingPubrecs {
        pendingPubrecs := pendingPubrecs[id := pendingPubrecs[id].(armed := on)];
      }
    }

    method SendPubrel(id: u16)
      requires id in pendingPubrecs
      modifies this
      ensures Abs() == Session.SendPubrel(old(Abs()), id)
    {
      var serial := pendingPubrecs[id].serial;
      ArmPubrecRetryTimer(id, true);
      WriteFrame(PubrelFrame(serial, id));
    }

    method HandlePubrec(id: u16)
      modifies this
      ensures Abs() == Session.HandlePubrec(old(Abs()), id)
    {
      if id in pendingPublishes {
        CancelPublishRetryTimer(id);
        pendingPubrecs := pendingPubrecs[id := Rec(|accepted|, 0, false)];
        accepted := accepted + [id];
        assert Abs() == TakePubrec(old(Abs()), id);
        SendPubrel(id);
      }
    }

    method OnPubrelWritten(id: u16, ok: bool)
      modifies this
      ensures Abs() == PubrelWritten(old(Abs()), id, ok)
    {
      if !ok {
        pendingPubrecs := pendingPubrecs - {id};
        return;
      }
      ArmPubrecRetryTimer(id, true);
    }

    method OnPubrecTimer(id: u16, current: bool)
      modifies this
      ensures Abs() == PubrecTimer(old(Abs()), id, current)
    {
      if id !in pendingPubrecs {
        return;
      }
      if current {
        ArmPubrecRetryTimer(id, false);
      }
      if pendingPubrecs[id].attempts >= MAX_ATTEMPTS {
        ArmPubrecRetryTimer(id, false);
        NotifyClosedOnce();
        return;
      }
      pendingPubrecs := pendingPubrecs[id := pendingPubrecs[id].(attempts := pendingPubrecs[id].attempts + 1)];
      SendPubrel(id);
    }

    method HandlePubcomp(id: u16)
      modifies this
      ensures Abs() == Session.HandlePubcomp(old(Abs()), id)
    {
      pendingPubrecs := pendingPubrecs - {id};
      if id in pendingPublishes {
        RetirePublish(id, true);
      }
    }

    method HandlePuback(id: u16)
      modifies this
      ensures Abs() == Session.HandlePuback(old(Abs()), id)
    {
      if id in pendingPublishes {
        RetirePublish(id, true);
      }
    }

    // ---------------------------------------------------------- subscribing

    method AsyncSubscribe(topic: bytes, qos: byte, hasCallback: bool)
      requires nextPacketId > 0
      modifies this
      ensures Abs() == Session.AsyncSubscribe(old(Abs()), topic, qos, hasCallback)
    {
      hide FirstFree;
      if closed {
        return;
      }
      if qos > 2 {
        return;
      }
      var id := AcquirePacketId();
      if id == 0 {
        return;
      }
      pendingSubscribes := pendingSubscribes[id := Sub(topic, qos, hasCallback)];
      WriteFrame(SubscribeFrame(id, topic, qos));
    }

    method OnSubscribeWritten(id: u16, ok: bool)
      modifies this
      ensures Abs() == SubscribeWritten(old(Abs()), id, ok)
    {
      if id !in pendingSubscribes {
        return;
      }
      if !ok {
        pendingSubscribes := pendingSubscribes - {id};
      }
    }

    method HandleSuback(p: SubackPacket)
      modifies this
      ensures Abs() == Session.HandleSuback(old(Abs()), p)
    {
      if p.packetId !in pendingSubscribes {
        return;
      }
      var sub := pendingSubscribes[p.packetId];
      pendingSubscribes := pendingSubscribes - {p.packetId};
      if !sub.hasCallback {
        return;
      }
      if |p.returnCodes| < 1 {
        NotifyClosedOnce();
      }
    }

    // ---------------------------------------------------------- incoming packets

    method HandlePublish(p: PublishPacket)
      modifies this
      ensures Abs() == Session.HandlePublish(old(Abs()), p)
    {
      if p.qos > 2 {
        NotifyClosedOnce();
        return;
      }
      if p.qos == 1 {
        WriteFrame(AckFrame(PUBACK * 16, p.packetId));
      } else if p.qos == 2 {
        WriteFrame(AckFrame(PUBREC * 16, p.packetId));
      }
    }

    method HandleConnack(p: ConnackPacket)
      modifies this
      ensures Abs() == Session.HandleConnack(old(Abs()), p)
    {
      if p.returnCode == 0 {
        link := Connected;
        closed := false;
      } else {
        closed := true;
        link := Disconnected;
      }
      signals := signals + [OnConnect(p.returnCode == 0)];
    }

    method HandlePacket(data: bytes)
      modifies this
      ensures Abs() == Session.HandlePacket(old(Abs()), data)
    {
      if data == [] {
        return;
      }
      var kind := data[0] / 16;
      if kind == CONNACK {
        var p := ParseConnack(data);
        HandleConnack(p);
      } else if kind == PUBLISH {
        var p := ParsePublish(data);
        HandlePublish(p);
      } else if kind == SUBACK {
        var p := ParseSuback(data);
        HandleSuback(p);
      } else if kind == PUBACK || kind == PUBREC || kind == PUBREL || kind == PUBCOMP {
        HandleAck(kind, data);
      }
    }

    method HandleAck(kind: byte, data: bytes)
      requires data != [] && data[0] / 16 == kind && kind in {PUBACK, PUBREC, PUBREL, PUBCOMP}
      modifies this
      ensures Abs() == Session.HandlePacket(old(Abs()), data)
    {
      hide AckOf;
      var id := ParseAck(data);
      if kind == PUBACK {
        HandlePuback(id);
      } else if kind == PUBREC {
        HandlePubrec(id);
      } else if kind == PUBREL {
        WriteFrame(AckFrame(PUBCOMP * 16, id));
      } else {
        HandlePubcomp(id);
      }
    }

    // ---------------------------------------------------------- connecting

    method AsyncConnect()
      modifies this
      ensures Abs() == Session.AsyncConnect(old(Abs()))
    {
      closed := false;
      link := Connecting;
    }

    method OnTcpDone(ok: bool)
      modifies this
      ensures Abs() == TcpDone(old(Abs()), ok)
    {
      link := if ok then Handshaking else Disconnected;
      if closed {
        return;
      }
      if !ok {
        signals := signals + [OnConnect(false)];
        return;
      }
      WriteFrame(ConnectFrame);
    }

    method OnResolveFailed()
      modifies this
      ensures Abs() == ResolveFailed(old(Abs()))
    {
      if closed {
        return;
      }
      signals := signals + [OnConnect(false)];
    }

    method HandleConnectTimeout()
      modifies this
      ensures Abs() == ConnectTimeout(old(Abs()))
    {
      if closed {
        return;
      }
      closed := true;
      link := Disconnected;
      signals := signals + [OnConnect(false)];
    }

    // ---------------------------------------------------------- the io thread

    /** One turn of the io thread. The write handler of a QoS 0 frame exists only for a frame handed over. */
    method Handle(e: Event)
      requires Sound(Abs())
      modifies this
      ensures Abs() == Step(old(Abs()), e)
    {
      hide Sound, Session.AsyncPublish, Session.AsyncSubscribe, PublishWritten, PubrelWritten, SubscribeWritten;
      hide PublishTimer, PubrecTimer, Session.HandlePacket, Session.NotifyClosedOnce, TcpDone, ConnectTimeout;
      CursorIsSet(Abs());
      match e {
        case Publish(c) => AsyncPublish(c);
        case Subscribe(topic, qos, hasCallback) => AsyncSubscribe(topic, qos, hasCallback);
        case PublishWrite(id, ok) => OnPublishWritten(id, ok);
        case PubrelWrite(id, ok) => OnPubrelWritten(id, ok);
        case SubscribeWrite(id, ok) => OnSubscribeWritten(id, ok);
        case Qos0Write(handle, ok) =>
          if handle in qos0 {
            OnQos0Written(handle, ok);
          }
        case PublishExpiry(id, current) => OnPublishTimer(id, current);
        case PubrecExpiry(id, current) => OnPubrecTimer(id, current);
        case Packet(data) => HandlePacket(data);
        case SessionFailure => NotifyClosedOnce();
        case Connect => AsyncConnect();
        case TcpResult(ok) => OnTcpDone(ok);
        case ResolveFailure => OnResolveFailed();
        case ConnectExpiry => HandleConnectTimeout();
        case LinkLost => link := Disconnected;
      }
    }
  }

  lemma CursorIsSet(s: State)
    requires Sound(s)
    ensures s.cursor > 0
  {
  }

  /** The contract in one state: a call of QoS 1 or 2 is in the window, or was reported exactly once. */
  ghost predicate Contracted(reports: seq<Report>, calls: seq<Call>, pubs: map<u16, Pub>) {
    forall h: nat :: h < |calls| && calls[h].qos > 0 ==> (Times(reports, h) == if InWindow(pubs, h) then 0 else 1)
  }

  /**
   The life of a client: whatever arrives, in whatever order, the object ends in the state the run
   leads to, and its callbacks have run as the delivery contract says.
   */
  method Serve(es: seq<Event>) returns (client: MqttClient)
    ensures fresh(client) && client.Abs() == Reached(es)
    ensures forall h: nat :: h < |client.calls| ==> Times(client.reports, h) == Due(client.Abs(), h)
    ensures Contracted(client.reports, client.calls, client.pendingPublishes)
  {
    hide Step, Times, Due, InWindow;
    client := new MqttClient();
    assert es[..0] == [];
    for i := 0 to |es|
      invariant fresh(client) && client.Abs() == Reached(es[..i])
    {
      RunSnoc(INITIAL, es[..i], es[i]);
      assert es[..i] + [es[i]] == es[..i + 1];
      client.Handle(es[i]);
    }
    assert es[..|es|] == es;
    ServedContract(es);
  }

  lemma ServedContract(es: seq<Event>)
    ensures var s := Reached(es);
      && (forall h: nat :: h < |s.calls| ==> Times(s.reports, h) == Due(s, h))
      && Contracted(s.reports, s.calls, s.pubs)
  {
    var s := Reached(es);
    RunKeepsAccounts(INITIAL, es);
    forall h: nat | h < |s.calls|
      ensures Times(s.reports, h) == Due(s, h)
      ensures s.calls[h].qos > 0 ==> Due(s, h) == if InWindow(s.pubs, h) then 0 else 1
    {
      DueIsWaiting(s, h);
    }
  }
}
