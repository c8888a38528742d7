/** The peer wire protocol: length-prefixed messages on a stream of bytes. */
module WireSpec {
  import opened Wrappers
  import opened Bytes
  import opened Binary

  const MAX_MESSAGE_LEN: nat := 0x10_0000

  datatype PeerMessage =
    | KeepAlive
    | Choke
    | Unchoke
    | Interested
    | NotInterested
    | Have(pieceIndex: u32)
    | Bitfield(bytes: seq<u8>)
    | Request(index: u32, begin: u32, length: u32)
    | Piece(index: u32, begin: u32, block: seq<u8>)
    | Cancel(index: u32, begin: u32, length: u32)
    | Port(port: u16)
    | Extended(extId: u8, payload: seq<u8>)

  // `Io` stands for a stream that ends inside a message.
  datatype PeerWireError =
    | Io
    | InvalidField(field: string)
    | MessageTooLarge(len: u32)
    | UnknownMessage(id: u8)

  // ---------- Big-endian numbers ----------

  lemma WordSizes()
    ensures Pow256(2) == U16_MAX + 1 && Pow256(4) == U32_MAX + 1
  {
  }

  function ToBe32(n: u32): (s: seq<u8>)
    ensures |s| == 4 && FromBe32(s) == n
  {
    WordSizes();
    FromOfToBe(n, 4);
    ToBe(n, 4)
  }

  function FromBe32(s: seq<u8>): u32
    requires |s| == 4
  {
    WordSizes();
    ToOfFromBe(s);
    FromBe(s)
  }

  lemma ToOfFromBe32(s: seq<u8>)
    requires |s| == 4
    ensures ToBe32(FromBe32(s)) == s
  {
    ToOfFromBe(s);
  }

  function ToBe16(n: u16): (s: seq<u8>)
    ensures |s| == 2 && FromBe16(s) == n
  {
    WordSizes();
    FromOfToBe(n, 2);
    ToBe(n, 2)
  }

  function FromBe16(s: seq<u8>): u16
    requires |s| == 2
  {
    WordSizes();
    ToOfFromBe(s);
    FromBe(s)
  }

  // ---------- Writing ----------

  function Id(m: PeerMessage): Option<u8> {
    match m
    case KeepAlive => None
    case Choke => Some(0)
    case Unchoke => Some(1)
    case Interested => Some(2)
    case NotInterested => Some(3)
    case Have(_) => Some(4)
    case Bitfield(_) => Some(5)
    case Request(_, _, _) => Some(6)
    case Piece(_, _, _) => Some(7)
    case Cancel(_, _, _) => Some(8)
    case Port(_) => Some(9)
    case Extended(_, _) => Some(20)
  }

  predicate KnownId(id: u8) {
    id <= 9 || id == 20
  }

  function Payload(m: PeerMessage): seq<u8> {
    match m
    case Have(pieceIndex) => ToBe32(pieceIndex)
    case Bitfield(bytes) => bytes
    case Request(index, begin, length) => ToBe32(index) + ToBe32(begin) + ToBe32(length)
    case Cancel(index, begin, length) => ToBe32(index) + ToBe32(begin) + ToBe32(length)
    case Piece(index, begin, block) => ToBe32(index) + ToBe32(begin) + block
    case Port(port) => ToBe16(port)
    case Extended(extId, payload) => [extId] + payload
    case _ => []
  }

  function Frame(id: u8, payload: seq<u8>): seq<u8>
    requires 1 + |payload| <= U32_MAX
  {
    ToBe32(1 + |payload|) + ([id] + payload)
  }

  function Written(m: PeerMessage): Result<seq<u8>, PeerWireError> {
    if Id(m).None? then Ok(ToBe32(0))
    else if 1 + |Payload(m)| > U32_MAX then Err(MessageTooLarge(U32_MAX))
    else Ok(Frame(Id(m).value, Payload(m)))
  }

  // ---------- Reading ----------

  function ParseTriple(payload: seq<u8>): Result<(u32, u32, u32), PeerWireError> {
    if |payload| != 12 then Err(InvalidField("index/begin/length payload"))
    else Ok((FromBe32(payload[0..4]), FromBe32(payload[4..8]), FromBe32(payload[8..12])))
  }

  function ParsePair(payload: seq<u8>): Result<(u32, u32), PeerWireError> {
    if |payload| < 8 then Err(InvalidField("index/begin payload"))
    else Ok((FromBe32(payload[0..4]), FromBe32(payload[4..8])))
  }

  function ParseBody(id: u8, payload: seq<u8>): Result<PeerMessage, PeerWireError> {
    if id == 0 then Ok(Choke)
    else if id == 1 then Ok(Unchoke)
    else if id == 2 then Ok(Interested)
    else if id == 3 then Ok(NotInterested)
    else if id == 4 then
      if |payload| != 4 then Err(InvalidField("have payload")) else Ok(Have(FromBe32(payload)))
    else if id == 5 then Ok(Bitfield(payload))
    else if id == 6 then
      var (index, begin, length) :- ParseTriple(payload);
      Ok(Request(index, begin, length))
    else if id == 7 then
      var (index, begin) :- ParsePair(payload);
      Ok(Piece(index, begin, payload[8..]))
    else if id == 8 then
      var (index, begin, length) :- ParseTriple(payload);
      Ok(Cancel(index, begin, length))
    else if id == 9 then
      if |payload| != 2 then Err(InvalidField("port payload")) else Ok(Port(FromBe16(payload)))
    else if id == 20 then
      if payload == [] then Err(InvalidField("extended message payload")) else Ok(Extended(payload[0], payload[1..]))
    else Err(UnknownMessage(id))
  }

  // One message from the front of the stream, and how many bytes it took. A
  // stream that ends too early is taken to its end.
  function ReadFrom(stream: seq<u8>): (r: (Result<PeerMessage, PeerWireError>, nat))
    ensures r.1 <= |stream|
    ensures r.0.Ok? || r.0.error.UnknownMessage? ==> 4 <= r.1
  {
    if |stream| < 4 then (Err(Io), |stream|)
    else
      var len := FromBe32(stream[..4]);
      if len == 0 then (Ok(KeepAlive), 4)
      else if len > MAX_MESSAGE_LEN then (Err(MessageTooLarge(len)), 4)
      else if |stream| < 4 + len then (Err(Io), |stream|)
      else (ParseBody(stream[4], stream[5..4 + len]), 4 + len)
  }

  // What the reader task hands to the session: every message up to the first
  // error, skipping unknown ones.
  function Delivered(stream: seq<u8>): (r: (seq<PeerMessage>, PeerWireError))
    decreases |stream|
  {
    var (got, used) := ReadFrom(stream);
    if got.Ok? then
      var (more, err) := Delivered(stream[used..]);
      ([got.value] + more, err)
    else if got.error.UnknownMessage? then Delivered(stream[used..])
    else ([], got.error)
  }
}

/** Messages survive the wire. */
module WireTheorems {
  import opened Wrappers
  import opened Bytes
  import opened Binary
  import opened WireSpec

  lemma ParseOfPayload(m: PeerMessage)
    requires Id(m).Some?
    ensures ParseBody(Id(m).value, Payload(m)) == Ok(m)
  {
    var p := Payload(m);
    match m {
      case Request(index, begin, length) => Triple(index, begin, length);
      case Cancel(index, begin, length) => Triple(index, begin, length);
      case Piece(index, begin, block) =>
        assert p[0..4] == ToBe32(index) && p[4..8] == ToBe32(begin) && p[8..] == block;
      case Extended(extId, payload) => assert p[1..] == payload;
      case _ =>
    }
  }

  lemma Triple(index: u32, begin: u32, length: u32)
    ensures ParseTriple(ToBe32(index) + ToBe32(begin) + ToBe32(length)) == Ok((index, begin, length))
  {
    var p := ToBe32(index) + ToBe32(begin) + ToBe32(length);
    assert p[0..4] == ToBe32(index) && p[4..8] == ToBe32(begin) && p[8..12] == ToBe32(length);
  }

  // The reader takes exactly the frame, whatever follows and whatever its id.
  lemma ReadFrame(id: u8, payload: seq<u8>, rest: seq<u8>)
    requires 1 + |payload| <= MAX_MESSAGE_LEN
    ensures ReadFrom(Frame(id, payload) + rest) == (ParseBody(id, payload), 4 + 1 + |payload|)
  {
    var s := Frame(id, payload) + rest;
    assert s[..4] == ToBe32(1 + |payload|);
    assert s[5..5 + |payload|] == payload;
  }

  ghost predicate Fits(m: PeerMessage) {
    1 + |Payload(m)| <= MAX_MESSAGE_LEN
  }

  // A message that could be written is read back exactly if it fits the limit.
  lemma ReadOfWritten(m: PeerMessage, rest: seq<u8>)
    requires Written(m).Ok?
    ensures ReadFrom(Written(m).value + rest) == (Ok(m), |Written(m).value|) <==> Fits(m)
  {
    var s := Written(m).value + rest;
    if Id(m).None? {
      assert s[..4] == ToBe32(0);
    } else if Fits(m) {
      ParseOfPayload(m);
      ReadFrame(Id(m).value, Payload(m), rest);
    } else {
      assert s[..4] == ToBe32(1 + |Payload(m)|);
    }
  }

  /** What a peer may put on the wire: a message we know, or one we do not. */
  datatype Sent = Known(msg: PeerMessage) | Other(id: u8, body: seq<u8>) {
    ghost predicate Legal() {
      match this
      case Known(msg) => Fits(msg)
      case Other(id, body) => !KnownId(id) && 1 + |body| <= MAX_MESSAGE_LEN
    }

    ghost function OnWire(): seq<u8>
      requires Legal()
    {
      match this
      case Known(msg) => Written(msg).value
      case Other(id, body) => Frame(id, body)
    }

    ghost function Message(): seq<PeerMessage> {
      if Known? then [msg] else []
    }
  }

  ghost function Stream(sent: seq<Sent>): seq<u8>
    requires forall x :: x in sent ==> x.Legal()
  {
    if sent == [] then [] else sent[0].OnWire() + Stream(sent[1..])
  }

  ghost function KnownOf(sent: seq<Sent>): seq<PeerMessage> {
    if sent == [] then [] else sent[0].Message() + KnownOf(sent[1..])
  }

  lemma DeliverOne(x: Sent, tail: seq<u8>)
    requires x.Legal()
    ensures Delivered(x.OnWire() + tail) == (x.Message() + Delivered(tail).0, Delivered(tail).1)
  {
    var head := x.OnWire();
    assert (head + tail)[|head|..] == tail;
    if x.Known? {
      ReadOfWritten(x.msg, tail);
    } else {
      ReadFrame(x.id, x.body, tail);
      assert [] + Delivered(tail).0 == Delivered(tail).0;
    }
  }

  // Messages written back to back are delivered as they were sent, the unknown
  // ones left out, and what follows them on the stream is read from its start.
  lemma {:induction false} DeliveredAsSent(sent: seq<Sent>, rest: seq<u8>)
    requires forall x :: x in sent ==> x.Legal()
    ensures Delivered(Stream(sent) + rest) == (KnownOf(sent) + Delivered(rest).0, Delivered(rest).1)
    decreases |sent|
  {
    if sent == [] {
      Assoc(rest, [], []);
      Assoc(Delivered(rest).0, [], []);
    } else {
      DeliveredAsSent(sent[1..], rest);
      DeliverOne(sent[0], Stream(sent[1..]) + rest);
      Assoc(sent[0].OnWire(), Stream(sent[1..]), rest);
      Assoc(sent[0].Message(), KnownOf(sent[1..]), Delivered(rest).0);
    }
  }

  // The messages with an empty body ignore what was sent as one.
  predicate Bare(m: PeerMessage) {
    m.Choke? || m.Unchoke? || m.Interested? || m.NotInterested?
  }

  lemma PayloadOfParse(id: u8, payload: seq<u8>)
    requires ParseBody(id, payload).Ok?
    ensures var m := ParseBody(id, payload).value;
            Id(m) == Some(id) && (Payload(m) == payload <==> Bare(m) ==> payload == [])
  {
    if id == 4 {
      ToOfFromBe32(payload);
    } else if id == 9 {
      ToOfFromBe(payload);
    } else if id == 6 || id == 8 {
      ToOfFromBe32(payload[0..4]);
      ToOfFromBe32(payload[4..8]);
      ToOfFromBe32(payload[8..12]);
      assert payload == payload[0..4] + payload[4..8] + payload[8..12];
    } else if id == 7 {
      ToOfFromBe32(payload[0..4]);
      ToOfFromBe32(payload[4..8]);
      assert payload == payload[0..4] + payload[4..8] + payload[8..];
    } else if id == 20 {
      assert payload == [payload[0]] + payload[1..];
    }
  }

  // A message read prints as the bytes it was read from, unless a body was
  // sent where there should be none.
  lemma WrittenOfRead(stream: seq<u8>)
    requires ReadFrom(stream).0.Ok?
    ensures var (got, used) := ReadFrom(stream);
            && 4 <= used == 4 + FromBe32(stream[..4])
            && Fits(got.value) && Written(got.value).Ok?
            && (Written(got.value).value == stream[..used] <==> Bare(got.value) ==> used == 5)
  {
    var (got, used) := ReadFrom(stream);
    ToOfFromBe32(stream[..4]);
    if used > 4 {
      var payload := stream[5..used];
      PayloadOfParse(stream[4], payload);
      assert stream[..used] == stream[..4] + ([stream[4]] + payload);
      if Payload(got.value) != payload {
        assert |Written(got.value).value| == 5 != used;
      }
    }
  }
}
