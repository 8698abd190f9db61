/**
 The octets on the wire, in plain numbers: where each field of each packet stands, which octet of a
 word comes first, and which bits say what (sections 1.5, 2.2 and 3 of MQTT 3.1.1). Reading and writing
 undo each other for any consistent choice; here is the choice.
 */
module Octets {
  import opened Bytes
  import opened RemainingLength
  import opened Buffers
  import opened Packets

  // ------------------------------------------------------------ the remaining length

  /** The value of base-128 digits by their place: the i-th weighs 128 to the i. */
  function Weighed(digits: bytes): nat {
    if digits == [] then 0
    else
      var n := |digits| - 1;
      Weighed(digits[..n]) + digits[n] % 128 * Capacity(n)
  }

  lemma {:induction false} WeighedFront(digits: bytes)
    requires digits != []
    ensures Weighed(digits) == digits[0] % 128 + 128 * Weighed(digits[1..])
    decreases |digits|
  {
    var n := |digits| - 1;
    if n == 0 {
      assert digits[..0] == [] && digits[1..] == [];
      assert digits[0] % 128 * Capacity(0) == digits[0] % 128;
    } else {
      WeighedFront(digits[..n]);
      assert digits[..n][1..] == digits[1..][..n - 1];
      assert 128 * (digits[n] % 128 * Capacity(n - 1)) == digits[n] % 128 * Capacity(n);
    }
  }

  /** A digit of 128 or more has a successor. */
  predicate Continued(digits: bytes) {
    digits != [] && digits[|digits| - 1] < 128 && forall i :: 0 <= i < |digits| - 1 ==> digits[i] >= 128
  }

  /** What a decoder reads is the weighed digits up to the first one without the high bit. */
  lemma {:induction false} DecodeIsPositional(s: bytes, digits: nat)
    requires Decode(s, digits).Done?
    ensures var r := Decode(s, digits); Continued(s[..r.count]) && r.value == Weighed(s[..r.count])
  {
    var r := Decode(s, digits);
    var field := s[..r.count];
    WeighedFront(field);
    if s[0] < 128 {
      assert field[1..] == [];
    } else {
      DecodeIsPositional(s[1..], digits - 1);
      assert field[1..] == s[1..][..r.count - 1];
    }
  }

  /** And what the encoder writes are such digits. */
  lemma EncodeIsPositional(n: nat)
    ensures Continued(Encode(n)) && Weighed(Encode(n)) == n
  {
    var k := |Encode(n)|;
    DecodeEncode(n, [], k);
    assert Encode(n) + [] == Encode(n);
    DecodeIsPositional(Encode(n), k);
    assert Encode(n)[..k] == Encode(n);
  }

  /** A length field of k digits, at the front. */
  predicate FieldAtFront(s: bytes, k: nat) {
    k <= |s| && Continued(s[..k])
  }

  lemma {:induction false} FieldDecodes(s: bytes, k: nat, digits: nat)
    requires FieldAtFront(s, k) && k <= digits
    ensures Decode(s, digits) == Done(Weighed(s[..k]), k)
    decreases k
  {
    WeighedFront(s[..k]);
    if k == 1 {
      assert s[..1][1..] == [];
    } else {
      assert s[..k][0] == s[0] && s[..k][1..] == s[1..][..k - 1];
      FieldDecodes(s[1..], k - 1, digits - 1);
    }
  }

  // ------------------------------------------------------------ the fixed header

  /** The type octet, a length field that says how long the body is, and the body. */
  predicate Headed(data: bytes, head: byte, body: bytes) {
    && |data| > |body| && data[0] == head
    && data[|data| - |body|..] == body
    && Continued(data[1..|data| - |body|]) && Weighed(data[1..|data| - |body|]) == |body|
  }

  lemma FramedIsHeaded(head: byte, body: bytes)
    requires |body| < 0x1_0000_0000
    ensures Headed(Framed(head, body), head, body)
  {
    EncodeIsPositional(|body|);
    var data := Framed(head, body);
    assert |body| % U32 == |body|;
    assert data[1..|data| - |body|] == Encode(|body|);
  }

  /** A word at a place: the high octet first. */
  predicate WordAt(s: bytes, i: nat, v: nat) {
    i + 2 <= |s| && s[i] as int * 256 + s[i + 1] == v
  }

  /** A string at a place: its length as a word, then its octets. */
  predicate StringAt(s: bytes, i: nat, str: bytes) {
    WordAt(s, i, |str|) && i + 2 + |str| <= |s| && s[i + 2..i + 2 + |str|] == str
  }

  /** A string is written whole behind its length, of which 16 bits are kept. */
  lemma FieldOctets(str: bytes)
    ensures var field := StringField(str); WordAt(field, 0, |str| % 0x1_0000) && field[2..] == str
  {
  }

  // ------------------------------------------------------------ what is written

  /** The body of PUBLISH: topic, packet id from QoS 1 on, payload. */
  lemma PublishBodyOctets(p: PublishPacket)
    requires |p.topic| < 0x1_0000
    ensures var body := PublishBody(p);
      && StringAt(body, 0, p.topic)
      && (p.qos == 0 ==> body[2 + |p.topic|..] == p.payload)
      && (p.qos > 0 ==> WordAt(body, 2 + |p.topic|, p.packetId) && body[4 + |p.topic|..] == p.payload)
  {
    var word := if p.qos > 0 then WordBytes(p.packetId) else [];
    var topic := StringField(p.topic);
    FieldAt([], p.topic, word + p.payload);
    assert PublishBody(p) == [] + (topic + (word + p.payload));
    assert PublishBody(p)[|topic|..] == word + p.payload;
    hide StringAt, PublishBody, StringField;
  }

  lemma PublishBodyIsShort(p: PublishPacket)
    requires |p.topic| < 0x1_0000 && |p.payload| < 0xFFFE_0000
    ensures |PublishBody(p)| < 0x1_0000_0000
  {
  }

  /** 48, plus 2 times the QoS, plus 8 for DUP; the body. */
  lemma PublishOctets(p: PublishPacket)
    requires p.qos <= 2 && |p.topic| < 0x1_0000 && |p.payload| < 0xFFFE_0000
    ensures var body := PublishBody(p);
      && Headed(PublishBytes(p), 48 + 2 * p.qos + (if p.dup then 8 else 0), body)
      && StringAt(body, 0, p.topic)
      && (p.qos == 0 ==> body[2 + |p.topic|..] == p.payload)
      && (p.qos > 0 ==> WordAt(body, 2 + |p.topic|, p.packetId) && body[4 + |p.topic|..] == p.payload)
  {
    PublishBodyOctets(p);
    PublishBodyIsShort(p);
    hide Headed, Framed, StringAt, WordAt, PublishBody;
    FramedIsHeaded(PublishHead(p.qos, p.dup), PublishBody(p));
  }

  /** The four octets of PUBACK (64), PUBREC (80), PUBREL (98) and PUBCOMP (112). */
  lemma AckOctets(head: byte, packetId: u16)
    ensures var data := AckBytes(head, packetId);
      |data| == 4 && data[0] == head && data[1] == 2 && WordAt(data, 2, packetId)
  {
  }

  /** 130; packet id; topic; QoS. */
  lemma SubscribeOctets(packetId: u16, topic: bytes, qos: byte)
    requires |topic| < 0x1_0000
    ensures var body := SubscribeBody(packetId, topic, qos);
      && Headed(SubscribeBytes(packetId, topic, qos), 130, body)
      && WordAt(body, 0, packetId) && StringAt(body, 2, topic) && body[4 + |topic|..] == [qos]
  {
    FramedIsHeaded(130, SubscribeBody(packetId, topic, qos));
  }

  /** 144; packet id; the return codes. */
  lemma SubackOctets(p: SubackPacket)
    requires |p.returnCodes| < 0xFFFF_0000
    ensures var body := SubackBody(p);
      Headed(SubackBytes(p), 144, body) && WordAt(body, 0, p.packetId) && body[2..] == p.returnCodes
  {
    FramedIsHeaded(144, SubackBody(p));
  }

  /** The bits of the CONNECT flags: 2 clean session, 64 password, 128 user name. */
  function FlagBits(p: ConnectPacket): nat {
    (if p.cleanSession then 2 else 0) + (if p.password != [] then 64 else 0) + (if p.username != [] then 128 else 0)
  }

  /** From a place to the end: the client id, and the credentials that are not empty, user name first. */
  predicate IdentityAt(s: bytes, at: nat, p: ConnectPacket) {
    var user := at + 2 + |p.clientId|;
    var password := if p.username == [] then user else user + 2 + |p.username|;
    && StringAt(s, at, p.clientId)
    && (p.username != [] ==> StringAt(s, user, p.username))
    && (p.password != [] ==> StringAt(s, password, p.password))
    && |s| == if p.password == [] then password else password + 2 + |p.password|
  }

  /** 16; "MQTT", level 4, the flags, keepalive, and the identity. */
  lemma ConnectOctets(p: ConnectPacket)
    requires |p.clientId| < 0x1_0000 && |p.username| < 0x1_0000 && |p.password| < 0x1_0000
    ensures var body := ConnectBody(p);
      && Headed(ConnectBytes(p), 16, body)
      && |body| >= 10 && body[..8] == [0, 4, 77, 81, 84, 84, 4, FlagBits(p)] && WordAt(body, 8, p.keepAlive)
      && IdentityAt(body, 10, p)
  {
    ConnectStart(p);
    TailOctets(p);
    IdentityShifts(ConnectBody(p), ConnectTail(p), 10, p);
    hide ConnectTail, Headed, IdentityAt, WordAt, Framed;
    ConnectIsShort(p);
    FramedIsHeaded(16, ConnectBody(p));
  }

  lemma ConnectIsShort(p: ConnectPacket)
    requires |p.clientId| < 0x1_0000 && |p.username| < 0x1_0000 && |p.password| < 0x1_0000
    ensures |ConnectBody(p)| < 0x1_0000_0000
  {
  }

  /** The fixed part of the body. */
  lemma ConnectStart(p: ConnectPacket)
    ensures var body := ConnectBody(p);
      && |body| >= 10 && body[10..] == ConnectTail(p)
      && body[..8] == [0, 4, 77, 81, 84, 84, 4, FlagBits(p)] && WordAt(body, 8, p.keepAlive)
  {
    ConnectBodyParts(p);
    hide ConnectBody, ConnectTail, OptionalField;
    var start := StringField(PROTOCOL_NAME) + [PROTOCOL_LEVEL, ConnectFlags(p)] + WordBytes(p.keepAlive);
    assert ConnectBody(p) == start + ConnectTail(p);
    assert start[..8] == [0, 4, 77, 81, 84, 84, 4, FlagBits(p)];
  }

  lemma IdentityShifts(body: bytes, tail: bytes, n: nat, p: ConnectPacket)
    requires n <= |body| && tail == body[n..] && IdentityAt(tail, 0, p)
    ensures IdentityAt(body, n, p)
  {
    hide StringAt;
    var user := 2 + |p.clientId|;
    Shifted(body, tail, n, 0, p.clientId);
    Shifted(body, tail, n, user, p.username);
    Shifted(body, tail, n, if p.username == [] then user else user + 2 + |p.username|, p.password);
  }

  lemma Shifted(body: bytes, tail: bytes, n: nat, i: nat, str: bytes)
    requires n <= |body| && tail == body[n..]
    ensures StringAt(tail, i, str) ==> StringAt(body, n + i, str)
  {
    if StringAt(tail, i, str) {
      assert body[n + i] == tail[i] && body[n + i + 1] == tail[i + 1];
      assert body[n + i + 2..n + i + 2 + |str|] == tail[i + 2..i + 2 + |str|];
    }
  }

  lemma FieldAt(before: bytes, str: bytes, after: bytes)
    requires |str| < 0x1_0000
    ensures StringAt(before + (StringField(str) + after), |before|, str)
  {
    var s, n := before + (StringField(str) + after), |before|;
    assert s[n] == StringField(str)[0] && s[n + 1] == StringField(str)[1];
    assert s[n + 2..n + 2 + |str|] == str;
  }

  lemma UserAt(p: ConnectPacket)
    requires |p.clientId| < 0x1_0000 && 0 < |p.username| < 0x1_0000
    ensures StringAt(ConnectTail(p), 2 + |p.clientId|, p.username)
  {
    FieldAt(StringField(p.clientId), p.username, OptionalField(p.password));
    hide StringAt;
  }

  lemma PasswordAt(p: ConnectPacket, start: bytes)
    requires start == StringField(p.clientId) + OptionalField(p.username) && 0 < |p.password| < 0x1_0000
    ensures StringAt(ConnectTail(p), |start|, p.password)
  {
    var password := StringField(p.password);
    FieldAt(start, p.password, []);
    hide StringAt, StringField;
    assert password + [] == password;
    assert ConnectTail(p) == start + password;
  }

  lemma ClientIdAt(p: ConnectPacket)
    requires |p.clientId| < 0x1_0000
    ensures StringAt(ConnectTail(p), 0, p.clientId)
  {
    FieldAt([], p.clientId, OptionalField(p.username) + OptionalField(p.password));
    hide StringAt, StringField, OptionalField;
    assert [] + ConnectTail(p) == ConnectTail(p);
  }

  /** Where the credentials stand, and where they end. */
  lemma CredentialsFit(p: ConnectPacket, start: bytes)
    requires start == StringField(p.clientId) + OptionalField(p.username)
    ensures |start| == 2 + |p.clientId| + if p.username == [] then 0 else 2 + |p.username|
    ensures |ConnectTail(p)| == |start| + if p.password == [] then 0 else 2 + |p.password|
  {
  }

  lemma TailOctets(p: ConnectPacket)
    requires |p.clientId| < 0x1_0000 && |p.username| < 0x1_0000 && |p.password| < 0x1_0000
    ensures IdentityAt(ConnectTail(p), 0, p)
  {
    var start := StringField(p.clientId) + OptionalField(p.username);
    ClientIdAt(p);
    CredentialsFit(p, start);
    if p.username != [] {
      UserAt(p);
    }
    if p.password != [] {
      PasswordAt(p, start);
    }
    hide StringAt, StringField, OptionalField, ConnectTail;
  }

  /** The octets of the shortest publish there is with a topic. */
  lemma PublishExample()
    ensures PublishBytes(PublishPacket(0, 0, false, [97], [])) == [48, 3, 0, 1, 97]
    ensures PublishBytes(PublishPacket(2, 1, true, [97], [])) == [58, 5, 0, 1, 97, 0, 2]
  {
  }

  // ------------------------------------------------------------ what is read

  /** Behind the type octet and the length field, of one to four digits, is the body. */
  lemma BodyBehind(head: byte, digits: bytes, body: bytes)
    requires Continued(digits) && |digits| <= 4
    ensures TakeByte([head] + digits + body).0 == head && BodyOf([head] + digits + body) == body
  {
    var data := [head] + digits + body;
    assert data[1..] == digits + body;
    assert (digits + body)[..|digits|] == digits && (digits + body)[|digits|..] == body;
    FieldDecodes(digits + body, |digits|, 4);
  }

  /** The packet id of an acknowledgement is the first two octets of its body, high one first. */
  lemma AckBodyRead(head: byte, digits: bytes, a: byte, b: byte, rest: bytes)
    requires Continued(digits) && |digits| <= 4
    ensures AckOf([head] + digits + ([a, b] + rest)) == a as int * 256 + b
  {
    BodyBehind(head, digits, [a, b] + rest);
    hide BodyOf;
  }

  lemma AckRead(head: byte, a: byte, b: byte)
    ensures AckOf([head, 2, a, b]) == a as int * 256 + b
  {
    AckBodyRead(head, [2], a, b, []);
    assert [head] + [2] + ([a, b] + []) == [head, 2, a, b];
  }

  /** What is missing reads as 0, a word of which only one octet is there included. */
  lemma ShortAckRead(head: byte, a: byte)
    ensures AckOf([head]) == AckOf([head, 0]) == AckOf([head, 1, a]) == 0
  {
    BodyBehind(head, [0], []);
    BodyBehind(head, [1], [a]);
    assert [head] + [0] + [] == [head, 0] && [head] + [1] + [a] == [head, 1, a];
    assert BodyOf([head]) == [];
  }

  /** Session-present, then the return code. */
  lemma ConnackRead(head: byte, digits: bytes, a: byte, b: byte, rest: bytes)
    requires Continued(digits) && |digits| <= 4
    ensures ConnackOf([head] + digits + ([a, b] + rest)) == ConnackPacket(a, b)
  {
    BodyBehind(head, digits, [a, b] + rest);
    assert ([a, b] + rest)[1..] == [b] + rest;
  }

  lemma SubackRead(head: byte, digits: bytes, a: byte, b: byte, codes: bytes)
    requires Continued(digits) && |digits| <= 4
    ensures SubackOf([head] + digits + ([a, b] + codes)) == SubackPacket(a as int * 256 + b, codes)
  {
    BodyBehind(head, digits, [a, b] + codes);
    assert ([a, b] + codes)[2..] == codes;
  }

  lemma StringRead(topic: bytes, rest: bytes)
    requires |topic| < 0x1_0000
    ensures TakeString([|topic| / 256, |topic| % 256] + topic + rest) == (topic, rest)
  {
    var s := [|topic| / 256, |topic| % 256] + topic + rest;
    assert s[2..2 + |topic|] == topic && s[2 + |topic|..] == rest;
  }

  lemma IdRead(id: bytes, payload: bytes)
    requires |id| == 2
    ensures TakeWord(id + payload) == (id[0] as int * 256 + id[1], payload)
  {
    assert (id + payload)[2..] == payload;
  }

  /** A PUBLISH is read from the bits of its first octet and the places of its fields. */
  lemma PublishRead(head: byte, digits: bytes, topic: bytes, id: bytes, payload: bytes)
    requires Continued(digits) && |digits| <= 4
    requires |topic| < 0x1_0000 && |id| == (if head / 2 % 4 > 0 then 2 else 0)
    ensures PublishOf([head] + digits + ([|topic| / 256, |topic| % 256] + topic + (id + payload)))
      == PublishPacket(if id == [] then 0 else id[0] as int * 256 + id[1],
                       head / 2 % 4, head / 8 % 2 == 1, topic, payload)
  {
    BodyBehind(head, digits, [|topic| / 256, |topic| % 256] + topic + (id + payload));
    StringRead(topic, id + payload);
    hide BodyOf, TakeString, TakeByte, TakeWord;
    if id != [] {
      IdRead(id, payload);
    } else {
      assert id + payload == payload;
    }
  }
}
