/**
 The control packets the protocol code exchanges. For each packet: the octets it is written as,
 the packet a byte string is taken for (also a malformed one: the parsers ignore every failed
 read), the two routines that work through the buffers, and when one undoes the other.
 */
module Packets {
  import opened Bytes
  import opened RemainingLength
  import opened Buffers

  const CONNECT := 1
  const CONNACK := 2
  const PUBLISH := 3
  const PUBACK := 4
  const PUBREC := 5
  const PUBREL := 6
  const PUBCOMP := 7
  const SUBSCRIBE := 8
  const SUBACK := 9

  /** "MQTT" */
  const PROTOCOL_NAME: bytes := [77, 81, 84, 84]
  const PROTOCOL_LEVEL: byte := 4

  datatype PublishPacket = PublishPacket(packetId: u16, qos: byte, dup: bool, topic: bytes, payload: bytes)
  datatype ConnectPacket =
    ConnectPacket(clientId: bytes, keepAlive: u16, cleanSession: bool, username: bytes, password: bytes)
  datatype ConnackPacket = ConnackPacket(sessionPresent: byte, returnCode: byte)
  datatype SubackPacket = SubackPacket(packetId: u16, returnCodes: bytes)

  /** The fixed header with its length field, then the body: how every longer packet is put together. */
  function Framed(head: byte, body: bytes): bytes {
    [head] + LengthField(|body|) + body
  }

  /** What a parser reads after the fixed header. */
  function BodyOf(data: bytes): (r: bytes)
    ensures |r| <= |data|
  {
    AfterLength(TakeByte(data).1)
  }

  lemma BodyBack(head: byte, body: bytes)
    ensures TakeByte(Framed(head, body)).0 == head
    ensures BodyOf(Framed(head, body)) == body
  {
    assert Framed(head, body)[1..] == LengthField(|body|) + body;
    AfterLengthBack(|body|, body);
  }

  method WriteFrame(head: byte, body: bytes) returns (data: bytes)
    ensures data == Framed(head, body)
  {
    var writer := new BufferWriter();
    writer.WriteUint8(head);
    writer.WriteRemainingLength(|body|);
    writer.WriteBytes(body);
    data := writer.buf;
  }

  /** Reads and discards the fixed header of a packet. */
  method OpenFrame(data: bytes) returns (reader: BufferReader, head: byte)
    ensures fresh(reader) && reader.Valid()
    ensures head == TakeByte(data).0 && reader.Rest() == BodyOf(data)
  {
    reader := new BufferReader(data);
    var _, first := reader.ReadUint8();
    var _, _ := reader.ReadRemainingLength();
    head := first;
  }

  // ---------------------------------------------------------------- PUBLISH

  function PublishHead(qos: byte, dup: bool): byte {
    PUBLISH * 16 + qos % 4 * 2 + if dup then 8 else 0
  }

  function PublishBody(p: PublishPacket): bytes {
    StringField(p.topic) + (if p.qos > 0 then WordBytes(p.packetId) else []) + p.payload
  }

  function PublishBytes(p: PublishPacket): bytes {
    Framed(PublishHead(p.qos, p.dup), PublishBody(p))
  }

  function PublishFields(head: byte, body: bytes): (p: PublishPacket)
    ensures p.qos < 4 && |p.topic| < 0x1_0000
    ensures p.qos == 0 ==> p.packetId == 0
    ensures |p.topic| + |p.payload| <= |body|
  {
    var qos := head / 2 % 4;
    var (topic, afterTopic) := TakeString(body);
    var (packetId, payload) := if qos > 0 then TakeWord(afterTopic) else (0, afterTopic);
    PublishPacket(packetId, qos, head / 8 % 2 != 0, topic, payload)
  }

  function PublishOf(data: bytes): PublishPacket {
    PublishFields(TakeByte(data).0, BodyOf(data))
  }

  method SerializePublish(p: PublishPacket) returns (data: bytes)
    ensures data == PublishBytes(p)
  {
    var variableHeader := new BufferWriter();
    variableHeader.WriteString(p.topic);
    if p.qos > 0 {
      variableHeader.WriteUint16(p.packetId);
    }
    variableHeader.WriteBytes(p.payload);
    assert variableHeader.buf == PublishBody(p);

    var flags := p.qos % 4 * 2;
    if p.dup {
      flags := flags + 8;
    }
    data := WriteFrame(PUBLISH * 16 + flags, variableHeader.buf);
  }

  method ParsePublish(data: bytes) returns (p: PublishPacket)
    ensures p == PublishOf(data)
  {
    var reader, head := OpenFrame(data);
    var qos := head / 2 % 4;
    var _, topic := reader.ReadString();
    var packetId: u16 := 0;
    if qos > 0 {
      var _, read := reader.ReadUint16();
      packetId := read;
    }
    var payloadLen := reader.Remaining();
    var payload: bytes := [];
    if payloadLen > 0 {
      ghost var rest := reader.Rest();
      var _, read := reader.ReadBytes(payloadLen);
      payload := read;
      assert reader.Rest() == [];
      assert payload == rest;
    }
    p := PublishPacket(packetId, qos, head / 8 % 2 != 0, topic, payload);
  }

  /**
   Parsing undoes serializing for exactly the packets with a QoS that fits its two bits, no packet
   id on QoS 0, and a topic whose length fits the 16 bits it is written in. The payload does not
   matter: the parser takes what is left, whatever the length field says.
   */
  predicate PublishParsesBack(p: PublishPacket) {
    p.qos < 4 && (p.qos == 0 ==> p.packetId == 0) && |p.topic| < 0x1_0000
  }

  lemma PublishRoundTrip(p: PublishPacket)
    ensures PublishOf(PublishBytes(p)) == p <==> PublishParsesBack(p)
  {
    BodyBack(PublishHead(p.qos, p.dup), PublishBody(p));
    if PublishParsesBack(p) {
      HeadReadsBack(p.qos, p.dup);
      PublishFieldsBack(p, PublishHead(p.qos, p.dup));
    }
  }

  lemma PublishFieldsBack(p: PublishPacket, head: byte)
    requires PublishParsesBack(p)
    requires head / 2 % 4 == p.qos && (head / 8 % 2 != 0 <==> p.dup)
    ensures PublishFields(head, PublishBody(p)) == p
  {
    if p.qos > 0 {
      var afterTopic := WordBytes(p.packetId) + p.payload;
      assert PublishBody(p) == StringField(p.topic) + afterTopic;
      TakeStringBack(p.topic, afterTopic);
      TakeWordBack(p.packetId, p.payload);
    } else {
      assert PublishBody(p) == StringField(p.topic) + p.payload;
      TakeStringBack(p.topic, p.payload);
    }
  }

  lemma HeadReadsBack(qos: byte, dup: bool)
    ensures PublishHead(qos, dup) / 2 % 4 == qos % 4
    ensures PublishHead(qos, dup) / 8 % 2 != 0 <==> dup
    ensures PublishHead(qos, dup) / 16 == PUBLISH
  {
  }

  /** A retransmission differs from the first transmission in bit 3 of the first octet only. */
  lemma DupIsOneBit(p: PublishPacket)
    requires !p.dup
    ensures var again := PublishBytes(p.(dup := true));
      && |again| == |PublishBytes(p)|
      && again[0] == PublishBytes(p)[0] + 8 && PublishBytes(p)[0] / 8 % 2 == 0
      && again[1..] == PublishBytes(p)[1..]
  {
    var again := p.(dup := true);
    var body := PublishBody(p);
    assert PublishBody(again) == body;
    HeadReadsBack(p.qos, false);
    assert PublishBytes(p)[1..] == LengthField(|body|) + body == PublishBytes(again)[1..];
  }

  // ---------------------------------------------------------------- CONNECT

  function ConnectFlags(p: ConnectPacket): byte {
    (if p.cleanSession then 2 else 0) + (if p.username != [] then 128 else 0) + (if p.password != [] then 64 else 0)
  }

  function OptionalField(str: bytes): bytes {
    if str != [] then StringField(str) else []
  }

  function ConnectBody(p: ConnectPacket): bytes {
    StringField(PROTOCOL_NAME) + [PROTOCOL_LEVEL, ConnectFlags(p)] + WordBytes(p.keepAlive)
    + StringField(p.clientId) + OptionalField(p.username) + OptionalField(p.password)
  }

  function ConnectBytes(p: ConnectPacket): bytes {
    Framed(CONNECT * 16, ConnectBody(p))
  }

  function ConnectFields(body: bytes): (p: ConnectPacket)
    ensures |p.clientId| < 0x1_0000 && |p.username| < 0x1_0000 && |p.password| < 0x1_0000
  {
    var (_, afterName) := TakeString(body);
    var (_, afterLevel) := TakeByte(afterName);
    var (flags, afterFlags) := TakeByte(afterLevel);
    var (keepAlive, afterKeepAlive) := TakeWord(afterFlags);
    var (clientId, afterId) := TakeString(afterKeepAlive);
    var (username, afterUser) := if flags / 128 % 2 != 0 then TakeString(afterId) else ([], afterId);
    var (password, _) := if flags / 64 % 2 != 0 then TakeString(afterUser) else ([], afterUser);
    ConnectPacket(clientId, keepAlive, flags / 2 % 2 != 0, username, password)
  }

  function ConnectOf(data: bytes): ConnectPacket {
    ConnectFields(BodyOf(data))
  }

  method SerializeConnect(p: ConnectPacket) returns (data: bytes)
    ensures data == ConnectBytes(p)
  {
    var variableHeader := new BufferWriter();
    variableHeader.WriteString(PROTOCOL_NAME);
    variableHeader.WriteUint8(PROTOCOL_LEVEL);
    var flags: byte := 0;
    if p.cleanSession {
      flags := flags + 2;
    }
    if p.username != [] {
      flags := flags + 128;
    }
    if p.password != [] {
      flags := flags + 64;
    }
    variableHeader.WriteUint8(flags);
    variableHeader.WriteUint16(p.keepAlive);
    variableHeader.WriteString(p.clientId);
    if p.username != [] {
      variableHeader.WriteString(p.username);
    }
    if p.password != [] {
      variableHeader.WriteString(p.password);
    }
    ConnectPieces(p, variableHeader.buf);
    data := WriteFrame(CONNECT * 16, variableHeader.buf);
  }

  lemma ConnectPieces(p: ConnectPacket, written: bytes)
    requires var start := [] + StringField(PROTOCOL_NAME) + [PROTOCOL_LEVEL] + [ConnectFlags(p)]
                          + WordBytes(p.keepAlive) + StringField(p.clientId);
      var named := if p.username != [] then start + StringField(p.username) else start;
      written == if p.password != [] then named + StringField(p.password) else named
    ensures written == ConnectBody(p)
  {
    var name := StringField(PROTOCOL_NAME);
    assert [] + name + [PROTOCOL_LEVEL] + [ConnectFlags(p)] == name + [PROTOCOL_LEVEL, ConnectFlags(p)];
  }

  method ParseConnect(data: bytes) returns (p: ConnectPacket)
    ensures p == ConnectOf(data)
  {
    var reader, _ := OpenFrame(data);
    var _, _ := reader.ReadString();
    var _, _ := reader.ReadUint8();
    var _, flags := reader.ReadUint8();
    var _, keepAlive := reader.ReadUint16();
    var _, clientId := reader.ReadString();
    var username: bytes := [];
    var password: bytes := [];
    if flags / 128 % 2 != 0 {
      var _, read := reader.ReadString();
      username := read;
    }
    if flags / 64 % 2 != 0 {
      var _, read := reader.ReadString();
      password := read;
    }
    p := ConnectPacket(clientId, keepAlive, flags / 2 % 2 != 0, username, password);
  }

  /** CONNECT survives the round trip exactly when its three strings fit their length fields. */
  lemma ConnectRoundTrip(p: ConnectPacket)
    ensures ConnectOf(ConnectBytes(p)) == p
       <==> |p.clientId| < 0x1_0000 && |p.username| < 0x1_0000 && |p.password| < 0x1_0000
  {
    BodyBack(CONNECT * 16, ConnectBody(p));
    if |p.clientId| < 0x1_0000 && |p.username| < 0x1_0000 && |p.password| < 0x1_0000 {
      ConnectFieldsBack(p);
    }
  }

  /** The last three fields of a CONNECT: the identity and the optional credentials. */
  function ConnectTail(p: ConnectPacket): bytes {
    StringField(p.clientId) + (OptionalField(p.username) + OptionalField(p.password))
  }

  lemma ConnectFieldsBack(p: ConnectPacket)
    requires |p.clientId| < 0x1_0000 && |p.username| < 0x1_0000 && |p.password| < 0x1_0000
    ensures ConnectFields(ConnectBody(p)) == p
  {
    var flags := ConnectFlags(p);
    var afterFlags := WordBytes(p.keepAlive) + ConnectTail(p);
    var afterName := [PROTOCOL_LEVEL, flags] + afterFlags;
    ConnectBodyParts(p);
    TakeStringBack(PROTOCOL_NAME, afterName);
    assert TakeByte(afterName).1 == [flags] + afterFlags;
    assert TakeByte([flags] + afterFlags) == (flags, afterFlags);
    TakeWordBack(p.keepAlive, ConnectTail(p));
    TakeStringBack(p.clientId, OptionalField(p.username) + OptionalField(p.password));
    OptionalFieldBack(p.username, OptionalField(p.password));
    OptionalFieldBack(p.password, []);
    assert OptionalField(p.password) + [] == OptionalField(p.password);
    FlagsReadBack(p);
  }

  lemma ConnectBodyParts(p: ConnectPacket)
    ensures ConnectBody(p) == StringField(PROTOCOL_NAME)
      + ([PROTOCOL_LEVEL, ConnectFlags(p)] + (WordBytes(p.keepAlive) + ConnectTail(p)))
  {
    var name := StringField(PROTOCOL_NAME);
    var level := [PROTOCOL_LEVEL, ConnectFlags(p)];
    var word := WordBytes(p.keepAlive);
    var id := StringField(p.clientId);
    var user := OptionalField(p.username);
    var password := OptionalField(p.password);
    assert name + level + word + id + user + password == name + (level + (word + (id + (user + password))));
  }

  lemma FlagsReadBack(p: ConnectPacket)
    ensures var flags := ConnectFlags(p);
      && (flags / 2 % 2 != 0 <==> p.cleanSession)
      && (flags / 128 % 2 != 0 <==> p.username != [])
      && (flags / 64 % 2 != 0 <==> p.password != [])
  {
  }

  lemma OptionalFieldBack(str: bytes, rest: bytes)
    requires |str| < 0x1_0000
    ensures str != [] ==> TakeString(OptionalField(str) + rest) == (str, rest)
    ensures str == [] ==> OptionalField(str) + rest == rest
  {
    if str != [] {
      TakeStringBack(str, rest);
    }
  }

  // ---------------------------------------------------------------- SUBSCRIBE, with one topic filter

  function SubscribeBody(packetId: u16, topic: bytes, qos: byte): bytes {
    WordBytes(packetId) + StringField(topic) + [qos]
  }

  function SubscribeBytes(packetId: u16, topic: bytes, qos: byte): bytes {
    Framed(SUBSCRIBE * 16 + 2, SubscribeBody(packetId, topic, qos))
  }

  method SerializeSubscribe(packetId: u16, topic: bytes, qos: byte) returns (data: bytes)
    ensures data == SubscribeBytes(packetId, topic, qos)
  {
    var variableHeader := new BufferWriter();
    variableHeader.WriteUint16(packetId);
    variableHeader.WriteString(topic);
    variableHeader.WriteUint8(qos);
    assert variableHeader.buf == SubscribeBody(packetId, topic, qos);
    data := WriteFrame(SUBSCRIBE * 16 + 2, variableHeader.buf);
  }

  // ---------------------------------------------------------------- SUBACK

  function SubackBody(p: SubackPacket): bytes {
    WordBytes(p.packetId) + p.returnCodes
  }

  function SubackBytes(p: SubackPacket): bytes {
    Framed(SUBACK * 16, SubackBody(p))
  }

  function SubackOf(data: bytes): SubackPacket {
    var (packetId, codes) := TakeWord(BodyOf(data));
    SubackPacket(packetId, codes)
  }

  method SerializeSuback(p: SubackPacket) returns (data: bytes)
    ensures data == SubackBytes(p)
  {
    var payload := new BufferWriter();
    payload.WriteUint16(p.packetId);
    for i := 0 to |p.returnCodes|
      invariant fresh(payload) && payload.buf == WordBytes(p.packetId) + p.returnCodes[..i]
    {
      payload.WriteUint8(p.returnCodes[i]);
      assert p.returnCodes[..i + 1] == p.returnCodes[..i] + [p.returnCodes[i]];
    }
    assert p.returnCodes[..|p.returnCodes|] == p.returnCodes;
    data := WriteFrame(SUBACK * 16, payload.buf);
  }

  method ParseSuback(data: bytes) returns (p: SubackPacket)
    ensures p == SubackOf(data)
  {
    var reader, _ := OpenFrame(data);
    var _, packetId := reader.ReadUint16();
    var codes := ReadCodes(reader);
    p := SubackPacket(packetId, codes);
  }

  method ReadCodes(reader: BufferReader) returns (codes: bytes)
    requires reader.Valid()
    modifies reader
    ensures reader.Valid() && codes == old(reader.Rest())
  {
    hide TakeByte;
    codes := [];
    var empty := reader.IsEmpty();
    while !empty
      invariant reader.Valid()
      invariant empty == (reader.Rest() == [])
      invariant codes + reader.Rest() == old(reader.Rest())
      decreases |reader.Rest()|
    {
      ghost var before := reader.Rest();
      var _, rc := reader.ReadUint8();
      OneMoreCode(codes, before, rc, reader.Rest());
      codes := codes + [rc];
      empty := reader.IsEmpty();
    }
  }

  lemma OneMoreCode(codes: bytes, before: bytes, rc: byte, after: bytes)
    requires before != [] && (rc, after) == TakeByte(before)
    ensures codes + before == codes + [rc] + after && |after| < |before|
  {
    assert before == [rc] + after;
  }

  /** SUBACK survives the round trip with any list of return codes. */
  lemma SubackRoundTrip(p: SubackPacket)
    ensures SubackOf(SubackBytes(p)) == p
  {
    BodyBack(SUBACK * 16, SubackBody(p));
    TakeWordBack(p.packetId, p.returnCodes);
  }

  // ------------------------------------- CONNACK, and the packets that carry a packet id only

  function ConnackBytes(p: ConnackPacket): bytes {
    [CONNACK * 16, 2, p.sessionPresent % 2, p.returnCode]
  }

  /** A CONNACK that is too short is taken for one with return code 0. */
  function ConnackOf(data: bytes): ConnackPacket {
    var (present, rest) := TakeByte(BodyOf(data));
    ConnackPacket(present, TakeByte(rest).0)
  }

  method ParseConnack(data: bytes) returns (p: ConnackPacket)
    ensures p == ConnackOf(data)
  {
    var reader, _ := OpenFrame(data);
    var _, present := reader.ReadUint8();
    var _, code := reader.ReadUint8();
    p := ConnackPacket(present, code);
  }

  /** The return code is taken for 0 exactly if it is 0 or is missing. */
  lemma ConnackCodeIff(data: bytes)
    ensures ConnackOf(data).returnCode == 0 <==> |BodyOf(data)| < 2 || BodyOf(data)[1] == 0
  {
    hide BodyOf;
  }

  lemma ConnackRoundTrip(p: ConnackPacket)
    ensures ConnackOf(ConnackBytes(p)) == p <==> p.sessionPresent < 2
  {
    var data := ConnackBytes(p);
    assert data[1..] == [2] + data[2..];
    assert Decode(data[1..], 4) == Done(2, 1);
    assert data[1..][1..] == data[2..];
  }

  /** PUBACK, PUBREC, PUBREL and PUBCOMP: `head` is the whole first octet. */
  function AckBytes(head: byte, packetId: u16): bytes {
    [head, 2] + WordBytes(packetId)
  }

  function AckOf(data: bytes): u16 {
    TakeWord(BodyOf(data)).0
  }

  method SerializeAck(head: byte, packetId: u16) returns (data: bytes)
    ensures data == AckBytes(head, packetId)
  {
    var writer := new BufferWriter();
    writer.WriteUint8(head);
    writer.WriteUint8(2);
    writer.WriteUint16(packetId);
    data := writer.buf;
  }

  method ParseAck(data: bytes) returns (packetId: u16)
    ensures packetId == AckOf(data)
  {
    var reader, _ := OpenFrame(data);
    var _, read := reader.ReadUint16();
    packetId := read;
  }

  lemma AckRoundTrip(head: byte, packetId: u16)
    ensures AckOf(AckBytes(head, packetId)) == packetId
  {
    var data := AckBytes(head, packetId);
    assert data[1..] == [2] + WordBytes(packetId);
    assert Decode(data[1..], 4) == Done(2, 1);
    assert data[1..][1..] == WordBytes(packetId) + [];
    TakeWordBack(packetId, []);
  }
}
