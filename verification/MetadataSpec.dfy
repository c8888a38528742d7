/** Exchanging the info dictionary with a peer, 16 KiB at a time. */
module MetadataSpec {
  import opened Wrappers
  import opened Bytes
  import opened Arithmetic
  import opened BencodeSpec
  import opened BencodeDecode

  const METADATA_PIECE_LEN: nat := 16384
  const MAX_METADATA_SIZE: nat := 0x40_0000

  datatype MetadataMessage =
    | Request(piece: u32)
    | Data(piece: u32, data: seq<u8>)
    | Reject(piece: u32)

  datatype ExtError =
    | Decode(error: BencodeError)
    | InvalidField(field: string)
    | MetadataSize(size: nat)
    | BadPiece(bad: u32)
    | OutOfOrder(expected: u32, got: u32)
    | HashMismatch

  // ---------- Messages ----------

  // "msg_type" and "piece"
  const MSG_TYPE: seq<u8> := [109, 115, 103, 95, 116, 121, 112, 101]
  const PIECE: seq<u8> := [112, 105, 101, 99, 101]

  function MsgType(msg: MetadataMessage): int {
    match msg
    case Request(_) => 0
    case Data(_, _) => 1
    case Reject(_) => 2
  }

  function Header(msg: MetadataMessage): BValue {
    Dict(Insert(Insert([], Entry(MSG_TYPE, Int(MsgType(msg)))), Entry(PIECE, Int(msg.piece))))
  }

  // The dictionary, and right behind it the bytes of a data message.
  function Encode(msg: MetadataMessage): seq<u8> {
    Print(Header(msg)) + if msg.Data? then msg.data else []
  }

  function Parse(payload: seq<u8>): Result<MetadataMessage, ExtError> {
    var decoded := BencodeSpec.Decode(payload);
    if decoded.Err? then Err(Decode(decoded.error))
    else
      var (value, consumed) := decoded.value;
      if !value.Dict? then Err(InvalidField("ut_metadata dict"))
      else
        var msgType, piece := Lookup(value.entries, MSG_TYPE), Lookup(value.entries, PIECE);
        if !(msgType.Some? && msgType.value.Int? && 0 <= msgType.value.n <= 2) then Err(InvalidField("msg_type"))
        else if !(piece.Some? && piece.value.Int? && 0 <= piece.value.n <= U32_MAX) then Err(InvalidField("piece"))
        else if msgType.value.n == 0 then Ok(Request(piece.value.n))
        else if msgType.value.n == 2 then Ok(Reject(piece.value.n))
        else
          DecodedInside(payload);
          Ok(Data(piece.value.n, payload[consumed..]))
  }

  lemma DecodedInside(payload: seq<u8>)
    requires BencodeSpec.Decode(payload).Ok?
    ensures BencodeSpec.Decode(payload).value.1 <= |payload|
  {
  }

  // ---------- The collector ----------

  datatype Collector = Collector(expected: Digest, total: nat, nextPiece: nat, buf: seq<u8>)

  function NewCollector(total: nat, expected: Digest): Result<Collector, ExtError> {
    if total == 0 || total > MAX_METADATA_SIZE then Err(MetadataSize(total))
    else Ok(Collector(expected, total, 0, []))
  }

  function PieceStart(piece: nat): nat {
    piece * METADATA_PIECE_LEN
  }

  // The piece to ask for and its length, or nothing when all are there.
  function NextRequest(c: Collector): Option<(nat, nat)> {
    if PieceStart(c.nextPiece) >= c.total then None
    else
      var left := c.total - PieceStart(c.nextPiece);
      Some((c.nextPiece, if left < METADATA_PIECE_LEN then left else METADATA_PIECE_LEN))
  }

  function OnPiece(c: Collector, sha1: seq<u8> -> Digest, piece: u32, data: seq<u8>)
    : (Collector, Result<Option<seq<u8>>, ExtError>)
    requires c.nextPiece <= U32_MAX
  {
    if piece != c.nextPiece then (c, Err(OutOfOrder(c.nextPiece, piece)))
    else
      var want := NextRequest(c);
      if want.None? || |data| != want.value.1 then (c, Err(BadPiece(piece)))
      else
        var more := c.(buf := c.buf + data, nextPiece := c.nextPiece + 1);
        if NextRequest(more).Some? then (more, Ok(None))
        else if sha1(more.buf) != more.expected then (more, Err(HashMismatch))
        else (more.(buf := []), Ok(Some(more.buf)))
  }

  // How many pieces there are.
  function PieceCount(total: nat): nat {
    CeilDiv(total, METADATA_PIECE_LEN)
  }

  // While pieces are missing, the buffer holds all those before the next.
  ghost predicate CollectorInv(c: Collector) {
    && 0 < c.total <= MAX_METADATA_SIZE
    && c.nextPiece <= PieceCount(c.total)
    && (c.nextPiece < PieceCount(c.total) ==> |c.buf| == PieceStart(c.nextPiece))
  }

  // ---------- The server ----------

  function Serve(info: Option<seq<u8>>, piece: u32): MetadataMessage {
    if info.None? then Reject(piece)
    else
      var start := PieceStart(piece);
      if start >= |info.value| then Reject(piece)
      else
        var end := if start + METADATA_PIECE_LEN < |info.value| then start + METADATA_PIECE_LEN else |info.value|;
        Data(piece, info.value[start..end])
  }
}

/** What the exchange guarantees. */
module MetadataTheorems {
  import opened Wrappers
  import opened Bytes
  import opened BencodeSpec
  import opened BencodeDecode
  import opened MetadataSpec

  // ---------- Messages ----------

  lemma TwoNumbers(a: Entry, b: Entry)
    requires Less(a.key, b.key) && a.value.Int? && b.value.Int? && InRange(a.value) && InRange(b.value)
    ensures Insert(Insert([], a), b) == [a, b]
    ensures Canonical(Dict([a, b])) && InRange(Dict([a, b])) && Nest(Dict([a, b])) == 1
    ensures Lookup([a, b], a.key) == Some(a.value) && Lookup([a, b], b.key) == Some(b.value)
  {
    LessIsStrict(a.key, b.key);
    assert [a][1..] == [] && [a, b][1..] == [b] && [b][1..] == [];
    assert Insert([], a) == [a] && Insert([], b) == [b];
    assert NestEntries([b]) == 0 && EntriesInRange([b]);
    assert NestEntries([a, b]) == 0 && EntriesInRange([a, b]);
    assert Canonical(a.value) && Canonical(b.value);
    assert Lookup([b], b.key) == Some(b.value);
  }

  lemma HeaderIsCanonical(msg: MetadataMessage)
    ensures Canonical(Header(msg)) && InRange(Header(msg)) && Nest(Header(msg)) <= MAX_DEPTH
    ensures Lookup(Header(msg).entries, MSG_TYPE) == Some(Int(MsgType(msg)))
    ensures Lookup(Header(msg).entries, PIECE) == Some(Int(msg.piece))
  {
    assert Less(MSG_TYPE, PIECE);
    TwoNumbers(Entry(MSG_TYPE, Int(MsgType(msg))), Entry(PIECE, Int(msg.piece)));
  }

  // What one side encodes the other parses; only data may be followed by bytes.
  lemma ParseOfEncode(msg: MetadataMessage)
    ensures Parse(Encode(msg)) == Ok(msg)
  {
    HeaderIsCanonical(msg);
    var tail := if msg.Data? then msg.data else [];
    DecodeOfEncode(Header(msg), tail);
    assert Encode(msg)[|Print(Header(msg))|..] == tail;
  }

  // ---------- Any peer at all ----------

  type Input = (u32, seq<u8>)

  lemma OnPieceKeeps(c: Collector, sha1: seq<u8> -> Digest, piece: u32, data: seq<u8>)
    requires CollectorInv(c)
    ensures var (after, r) := OnPiece(c, sha1, piece, data);
            && CollectorInv(after) && after.total == c.total && after.expected == c.expected
            && c.nextPiece <= after.nextPiece <= c.nextPiece + 1
            && (r.Ok? <==> after.nextPiece == c.nextPiece + 1 && r != Err(HashMismatch))
            && (r.Ok? && r.value.Some? ==>
                  && |r.value.value| == c.total && sha1(r.value.value) == c.expected
                  && r.value.value == c.buf + data && after.nextPiece == PieceCount(c.total))
            && (c.nextPiece == PieceCount(c.total) ==> r.Err? && after == c)
  {
  }

  // What the collector answers to a sequence of pieces.
  function Feed(c: Collector, sha1: seq<u8> -> Digest, inputs: seq<Input>): (r: (Collector, seq<Result<Option<seq<u8>>, ExtError>>))
    requires CollectorInv(c)
    ensures CollectorInv(r.0) && |r.1| == |inputs|
    decreases |inputs|
  {
    if inputs == [] then (c, [])
    else
      OnPieceKeeps(c, sha1, inputs[0].0, inputs[0].1);
      var (after, r) := OnPiece(c, sha1, inputs[0].0, inputs[0].1);
      var (end, rs) := Feed(after, sha1, inputs[1..]);
      (end, [r] + rs)
  }

  lemma {:induction false} NothingAfterTheLast(c: Collector, sha1: seq<u8> -> Digest, inputs: seq<Input>, i: nat)
    requires CollectorInv(c) && c.nextPiece == PieceCount(c.total) && i < |inputs|
    ensures Feed(c, sha1, inputs).1[i].Err?
    decreases i
  {
    OnPieceKeeps(c, sha1, inputs[0].0, inputs[0].1);
    if i > 0 {
      NothingAfterTheLast(c, sha1, inputs[1..], i - 1);
    }
  }

  // The data of the pieces that were taken.
  ghost function Taken(c: Collector, sha1: seq<u8> -> Digest, inputs: seq<Input>): seq<u8>
    requires CollectorInv(c)
    decreases |inputs|
  {
    if inputs == [] then []
    else
      var (after, r) := OnPiece(c, sha1, inputs[0].0, inputs[0].1);
      OnPieceKeeps(c, sha1, inputs[0].0, inputs[0].1);
      (if r.Ok? then inputs[0].1 else []) + Taken(after, sha1, inputs[1..])
  }

  // Whatever a peer sends, bytes come out at most once, and then they have the
  // announced length and the expected hash, and are the pieces taken so far.
  lemma {:induction false} ReleasedOnce(c: Collector, sha1: seq<u8> -> Digest, inputs: seq<Input>, i: nat)
    requires CollectorInv(c) && i < |inputs|
    requires var r := Feed(c, sha1, inputs).1[i]; r.Ok? && r.value.Some?
    ensures var bytes := Feed(c, sha1, inputs).1[i].value.value;
            |bytes| == c.total && sha1(bytes) == c.expected && bytes == c.buf + Taken(c, sha1, inputs[..i + 1])
    ensures forall j :: i < j < |inputs| ==> Feed(c, sha1, inputs).1[j].Err?
    decreases i
  {
    var (after, r) := OnPiece(c, sha1, inputs[0].0, inputs[0].1);
    OnPieceKeeps(c, sha1, inputs[0].0, inputs[0].1);
    var rest := inputs[1..];
    assert inputs[..i + 1][1..] == rest[..i];
    if i == 0 {
      assert Taken(c, sha1, inputs[..1]) == inputs[0].1 + Taken(after, sha1, []);
      Assoc(inputs[0].1, [], []);
      forall j | 0 < j < |inputs| ensures Feed(c, sha1, inputs).1[j].Err? {
        NothingAfterTheLast(after, sha1, rest, j - 1);
        assert Feed(c, sha1, inputs).1[j] == Feed(after, sha1, rest).1[j - 1];
      }
    } else {
      ReleasedOnce(after, sha1, rest, i - 1);
      assert after.nextPiece < PieceCount(c.total) by {
        if after.nextPiece == PieceCount(c.total) {
          NothingAfterTheLast(after, sha1, rest, i - 1);
        }
      }
      if r.Ok? {
        Assoc(c.buf, inputs[0].1, Taken(after, sha1, rest[..i]));
      } else {
        Assoc(Taken(after, sha1, rest[..i]), [], []);
      }
    }
  }

  // ---------- An honest server ----------

  // One round: our request goes over the wire, the server's answer comes back.
  // Without a request to make, or with another answer than data, it ends.
  function Round(c: Collector, sha1: seq<u8> -> Digest, info: seq<u8>): Option<(Collector, Result<Option<seq<u8>>, ExtError>)>
    requires c.nextPiece <= U32_MAX
  {
    var next := NextRequest(c);
    if next.None? then None
    else
      var asked := Parse(Encode(Request(c.nextPiece)));
      if asked.Err? || !asked.value.Request? then None
      else
        var answer := Parse(Encode(Serve(Some(info), asked.value.piece)));
        if answer.Err? || !answer.value.Data? then None
        else Some(OnPiece(c, sha1, answer.value.piece, answer.value.data))
  }

  // The state after k rounds.
  ghost function After(info: seq<u8>, expected: Digest, k: nat): Collector
    requires PieceStart(k) <= |info|
  {
    Collector(expected, |info|, k, info[..PieceStart(k)])
  }

  // The bytes of piece k.
  ghost function Part(info: seq<u8>, k: nat): seq<u8>
    requires PieceStart(k) < |info|
  {
    info[PieceStart(k)..if PieceStart(k + 1) < |info| then PieceStart(k + 1) else |info|]
  }

  lemma RoundIsExact(c: Collector, sha1: seq<u8> -> Digest, info: seq<u8>)
    requires c.nextPiece <= U32_MAX && c.total == |info| && PieceStart(c.nextPiece) < |info|
    ensures Round(c, sha1, info) == Some(OnPiece(c, sha1, c.nextPiece, Part(info, c.nextPiece)))
  {
    ParseOfEncode(Request(c.nextPiece));
    ParseOfEncode(Serve(Some(info), c.nextPiece));
  }

  lemma PartsAddUp(info: seq<u8>, k: nat)
    requires k < PieceCount(|info|)
    ensures PieceStart(k) < |info|
    ensures if k + 1 < PieceCount(|info|) then
              PieceStart(k + 1) < |info| && info[..PieceStart(k)] + Part(info, k) == info[..PieceStart(k + 1)]
            else info[..PieceStart(k)] + Part(info, k) == info && |info| <= PieceStart(k + 1)
  {
  }

  // Every round but the last adds a piece; the last one, which is round number
  // ceil(n / 16384), hands over the server's bytes if their hash is right.
  lemma HonestRound(info: seq<u8>, expected: Digest, sha1: seq<u8> -> Digest, k: nat)
    requires |info| <= MAX_METADATA_SIZE && k < PieceCount(|info|)
    ensures PieceStart(k) <= |info| && k <= U32_MAX
    ensures var round := Round(After(info, expected, k), sha1, info);
            if k + 1 < PieceCount(|info|) then
              PieceStart(k + 1) <= |info| && round == Some((After(info, expected, k + 1), Ok(None)))
            else
              round.Some? && round.value.1 == if sha1(info) == expected then Ok(Some(info)) else Err(HashMismatch)
  {
    PartsAddUp(info, k);
    RoundIsExact(After(info, expected, k), sha1, info);
  }

  datatype Ending = Ending(rounds: nat, result: Result<Option<seq<u8>>, ExtError>)

  // Rounds until one of them fails or hands over bytes.
  function Exchange(c: Collector, sha1: seq<u8> -> Digest, info: seq<u8>): Option<Ending>
    requires CollectorInv(c)
    decreases PieceCount(c.total) - c.nextPiece
  {
    var round := Round(c, sha1, info);
    if round.None? then None
    else
      var (after, r) := round.value;
      RoundAdvances(c, sha1, info);
      if r == Ok(None) then
        var rest := Exchange(after, sha1, info);
        if rest.None? then None else Some(Ending(1 + rest.value.rounds, rest.value.result))
      else Some(Ending(1, r))
  }

  lemma RoundAdvances(c: Collector, sha1: seq<u8> -> Digest, info: seq<u8>)
    requires CollectorInv(c) && Round(c, sha1, info).Some?
    ensures var (after, r) := Round(c, sha1, info).value;
            CollectorInv(after) && after.total == c.total
            && (r == Ok(None) ==> c.nextPiece < after.nextPiece <= PieceCount(c.total))
  {
  }

  lemma ExchangeStep(c: Collector, sha1: seq<u8> -> Digest, info: seq<u8>)
    requires CollectorInv(c) && Round(c, sha1, info).Some?
    ensures var (after, r) := Round(c, sha1, info).value;
            && CollectorInv(after)
            && Exchange(c, sha1, info) ==
               if r != Ok(None) then Some(Ending(1, r))
               else match Exchange(after, sha1, info)
                    case None => None
                    case Some(Ending(rounds, result)) => Some(Ending(1 + rounds, result))
  {
  }

  ghost function Verdict(info: seq<u8>, expected: Digest, sha1: seq<u8> -> Digest): Result<Option<seq<u8>>, ExtError> {
    if sha1(info) == expected then Ok(Some(info)) else Err(HashMismatch)
  }

  lemma LastRound(info: seq<u8>, expected: Digest, sha1: seq<u8> -> Digest, k: nat)
    requires |info| <= MAX_METADATA_SIZE && k + 1 == PieceCount(|info|)
    ensures PieceStart(k) <= |info| && CollectorInv(After(info, expected, k))
    ensures Exchange(After(info, expected, k), sha1, info) == Some(Ending(1, Verdict(info, expected, sha1)))
  {
    HonestRound(info, expected, sha1, k);
    ExchangeStep(After(info, expected, k), sha1, info);
  }

  lemma EarlierRound(info: seq<u8>, expected: Digest, sha1: seq<u8> -> Digest, k: nat, end: Ending)
    requires |info| <= MAX_METADATA_SIZE && k + 1 < PieceCount(|info|) && PieceStart(k + 1) <= |info|
    requires CollectorInv(After(info, expected, k + 1)) && Exchange(After(info, expected, k + 1), sha1, info) == Some(end)
    ensures PieceStart(k) <= |info| && CollectorInv(After(info, expected, k))
    ensures Exchange(After(info, expected, k), sha1, info) == Some(Ending(1 + end.rounds, end.result))
  {
    HonestRound(info, expected, sha1, k);
    ExchangeStep(After(info, expected, k), sha1, info);
  }

  lemma AfterInv(info: seq<u8>, expected: Digest, k: nat)
    requires |info| <= MAX_METADATA_SIZE && k < PieceCount(|info|)
    ensures PieceStart(k) <= |info| && CollectorInv(After(info, expected, k))
  {
  }

  lemma {:induction false} ExchangeFrom(info: seq<u8>, expected: Digest, sha1: seq<u8> -> Digest, k: nat)
    requires |info| <= MAX_METADATA_SIZE && k < PieceCount(|info|)
    requires PieceStart(k) <= |info| && CollectorInv(After(info, expected, k))
    ensures Exchange(After(info, expected, k), sha1, info)
            == Some(Ending(PieceCount(|info|) - k, Verdict(info, expected, sha1)))
    decreases PieceCount(|info|) - k
  {
    if k + 1 == PieceCount(|info|) {
      LastRound(info, expected, sha1, k);
    } else {
      AfterInv(info, expected, k + 1);
      ExchangeFrom(info, expected, sha1, k + 1);
      EarlierRound(info, expected, sha1, k, Ending(PieceCount(|info|) - (k + 1), Verdict(info, expected, sha1)));
    }
  }

  // The whole exchange with a server that has the bytes, from the start.
  lemma HonestExchange(info: seq<u8>, expected: Digest, sha1: seq<u8> -> Digest)
    requires 0 < |info| <= MAX_METADATA_SIZE
    ensures var c := NewCollector(|info|, expected);
            && c.Ok? && CollectorInv(c.value)
            && Exchange(c.value, sha1, info)
               == Some(Ending(PieceCount(|info|), if sha1(info) == expected then Ok(Some(info)) else Err(HashMismatch)))
  {
    assert NewCollector(|info|, expected).value == After(info, expected, 0) by {
      assert info[..PieceStart(0)] == [];
    }
    AfterInv(info, expected, 0);
    ExchangeFrom(info, expected, sha1, 0);
  }
}

/** The collector as the program keeps it. */
module ExtMetadata {
  import opened Wrappers
  import opened Bytes
  import opened MetadataSpec
  import opened MetadataTheorems

  class MetadataCollector {
    const expected: Digest
    const total: nat
    const sha1: seq<u8> -> Digest
    var nextPiece: nat
    var buf: seq<u8>

    ghost predicate Valid()
      reads this
    {
      CollectorInv(State())
    }

    function State(): Collector
      reads this
    {
      Collector(expected, total, nextPiece, buf)
    }

    constructor Start(total: nat, expected: Digest, sha1: seq<u8> -> Digest)
      requires NewCollector(total, expected).Ok?
      ensures Valid() && State() == NewCollector(total, expected).value && this.sha1 == sha1
    {
      this.total := total;
      this.expected := expected;
      this.sha1 := sha1;
      nextPiece := 0;
      buf := [];
    }

    // A size of zero or above 4 MiB is an error.
    static method New(total: nat, expected: Digest, sha1: seq<u8> -> Digest) returns (r: Result<MetadataCollector, ExtError>)
      ensures match NewCollector(total, expected)
              case Ok(state) => r.Ok? && fresh(r.value) && r.value.Valid() && r.value.State() == state && r.value.sha1 == sha1
              case Err(e) => r == Err(e)
    {
      if total == 0 || total > MAX_METADATA_SIZE {
        return Err(MetadataSize(total));
      }
      var c := new MetadataCollector.Start(total, expected, sha1);
      return Ok(c);
    }

    method NextRequest() returns (r: Option<(nat, nat)>)
      ensures r == MetadataSpec.NextRequest(State())
    {
      if nextPiece * METADATA_PIECE_LEN >= total {
        return None;
      }
      var start := nextPiece * METADATA_PIECE_LEN;
      return Some((nextPiece, if total - start < METADATA_PIECE_LEN then total - start else METADATA_PIECE_LEN));
    }

    method OnPiece(piece: u32, data: seq<u8>) returns (r: Result<Option<seq<u8>>, ExtError>)
      requires Valid()
      modifies this
      ensures Valid() && (State(), r) == MetadataSpec.OnPiece(old(State()), sha1, piece, data)
    {
      OnPieceKeeps(State(), sha1, piece, data);
      if piece != nextPiece {
        return Err(OutOfOrder(nextPiece, piece));
      }
      var want := NextRequest();
      if want.None? || |data| != want.value.1 {
        return Err(BadPiece(piece));
      }
      buf := buf + data;
      nextPiece := nextPiece + 1;
      var next := NextRequest();
      if next.Some? {
        return Ok(None);
      }
      if sha1(buf) != expected {
        return Err(HashMismatch);
      }
      r := Ok(Some(buf));
      buf := [];
    }
  }
}
