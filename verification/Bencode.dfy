/** The decoder and the encoder as the program runs them: cursors that move
    over the input, vectors that grow, and a buffer that is appended to. */
module Bencode {
  import opened Wrappers
  import opened Bytes
  import opened Decimal
  import opened BencodeSpec
  import opened BencodeTheorems
  import opened BencodeDecode

  // ---------- Scalars ----------

  // The number written by the digits, unless it exceeds the limit.
  method ParseNat(digits: seq<u8>, limit: nat) returns (r: Option<nat>)
    requires AllDigits(digits)
    ensures r == if Append(0, digits) <= limit then Some(Append(0, digits)) else None
  {
    var n := 0;
    for i := 0 to |digits|
      invariant n == Append(0, digits[..i]) && n <= limit
    {
      AppendLast(0, digits[..i], digits[i]);
      assert digits[..i + 1] == digits[..i] + [digits[i]];
      n := n * 10 + (digits[i] as int - 48);
      if n > limit {
        AppendGrows(digits, i + 1);
        return None;
      }
    }
    assert digits[..|digits|] == digits;
    return Some(n);
  }

  lemma {:induction false} AppendGrows(digits: seq<u8>, i: nat)
    requires AllDigits(digits) && i <= |digits|
    ensures Append(0, digits[..i]) <= Append(0, digits)
    decreases |digits| - i
  {
    if i == |digits| {
      assert digits[..i] == digits;
    } else {
      AppendGrows(digits, i + 1);
      AppendLast(0, digits[..i], digits[i]);
      assert digits[..i + 1] == digits[..i] + [digits[i]];
    }
  }

  // The position behind the digits that start at `start`.
  method SkipDigits(input: seq<u8>, start: nat) returns (cur: nat)
    requires start <= |input|
    ensures cur == Scan(input, start, 0).1
    ensures start <= cur <= |input| && AllDigits(input[start..cur])
    ensures Scan(input, start, 0).0 == Append(0, input[start..cur])
  {
    cur := start;
    ghost var acc: nat := 0;
    while cur < |input| && IsDigit(input[cur])
      invariant start <= cur <= |input| && Scan(input, start, 0) == Scan(input, cur, acc)
    {
      acc := acc * 10 + (input[cur] as int - 48);
      cur := cur + 1;
    }
    Scanned(input, start, 0);
  }

  method ParseInt(input: seq<u8>, pos: nat) returns (r: Result<(int, nat), BencodeError>)
    requires ByteAt(input, pos, CHAR_I)
    ensures r == BencodeSpec.ParseInt(input, pos)
  {
    var cur := pos + 1;
    var negative := cur < |input| && input[cur] == CHAR_MINUS;
    if negative {
      cur := cur + 1;
    }
    var start := cur;
    cur := SkipDigits(input, start);
    if cur == |input| {
      return Err(UnexpectedEof);
    }
    if input[cur] != CHAR_E {
      return Err(InvalidInteger(pos));
    }
    var digits := input[start..cur];
    if digits == [] || (negative && digits == [48]) || (|digits| > 1 && digits[0] == 48) {
      return Err(InvalidInteger(pos));
    }
    var magnitude := ParseNat(digits, U64_MAX);
    if magnitude.None? {
      return Err(InvalidInteger(pos));
    }
    var m: int := magnitude.value;
    if negative {
      if m <= I64_MAX {
        return Ok((-m, cur + 1));
      } else if m == I64_MAX + 1 {
        return Ok((I64_MIN, cur + 1));
      }
    } else if m <= I64_MAX {
      return Ok((m, cur + 1));
    }
    return Err(InvalidInteger(pos));
  }

  // A machine word holds `wordMax`, which no buffer is longer than.
  method ParseBytes(input: seq<u8>, pos: nat, wordMax: nat) returns (r: Result<(seq<u8>, nat), BencodeError>)
    requires pos < |input| <= wordMax && IsDigit(input[pos])
    ensures r == BencodeSpec.ParseBytes(input, pos)
  {
    var cur := SkipDigits(input, pos);
    if cur == |input| || input[cur] != CHAR_COLON {
      return Err(InvalidStringLength(pos));
    }
    var digits := input[pos..cur];
    if |digits| > 1 && digits[0] == 48 {
      return Err(InvalidStringLength(pos));
    }
    var len := ParseNat(digits, wordMax);
    if len.None? {
      return Err(UnexpectedEof);
    }
    var start := cur + 1;
    if start + len.value > wordMax {
      return Err(UnexpectedEof);
    }
    if |input| < start + len.value {
      return Err(UnexpectedEof);
    }
    return Ok((input[start..start + len.value], start + len.value));
  }

  // ---------- Containers ----------

  // What was read already, followed by the rest.
  ghost function Prepend<T>(read: seq<T>, rest: Result<(seq<T>, nat), BencodeError>)
    : Result<(seq<T>, nat), BencodeError>
  {
    match rest
    case Ok((more, end)) => Ok((read + more, end))
    case Err(e) => Err(e)
  }

  lemma PrependNothing<T>(read: seq<T>, rest: Result<(seq<T>, nat), BencodeError>)
    ensures Prepend([], rest) == rest
    ensures rest.Ok? && rest.value.0 == [] ==> Prepend(read, rest) == Ok((read, rest.value.1))
  {
    if rest.Ok? {
      assert [] + rest.value.0 == rest.value.0;
      assert read + [] == read;
    }
  }

  ghost function Normalized(r: Result<(BValue, nat), BencodeError>): Result<(BValue, nat), BencodeError> {
    match r
    case Ok((v, end)) => Ok((Normalize(v), end))
    case Err(e) => Err(e)
  }

  // The entries a dictionary is built from: values normalized, spans kept.
  ghost function NormalizeSpans(entries: seq<DictEntry>): (r: seq<DictEntry>)
    ensures |r| == |entries|
  {
    if entries == [] then []
    else
      var e := entries[0];
      [DictEntry(e.key, Normalize(e.value), e.start, e.end)] + NormalizeSpans(entries[1..])
  }

  ghost function NormalizedEntries(r: Result<(seq<DictEntry>, nat), BencodeError>)
    : Result<(seq<DictEntry>, nat), BencodeError>
  {
    match r
    case Ok((entries, end)) => Ok((NormalizeSpans(entries), end))
    case Err(e) => Err(e)
  }

  lemma {:induction false} NormalizeItemsLast(items: seq<BValue>, v: BValue)
    ensures NormalizeItems(items + [v]) == NormalizeItems(items) + [Normalize(v)]
  {
    if items == [] {
      assert NormalizeItems([v]) == [Normalize(v)];
      assert [] + [v] == [v];
    } else {
      NormalizeItemsLast(items[1..], v);
      assert (items + [v])[1..] == items[1..] + [v];
    }
  }

  lemma {:induction false} NormalizeSpansLast(entries: seq<DictEntry>, e: DictEntry)
    ensures NormalizeSpans(entries + [e]) == NormalizeSpans(entries) + [DictEntry(e.key, Normalize(e.value), e.start, e.end)]
  {
    if entries == [] {
      assert NormalizeSpans([e]) == [DictEntry(e.key, Normalize(e.value), e.start, e.end)];
      assert [] + [e] == [e];
    } else {
      NormalizeSpansLast(entries[1..], e);
      assert (entries + [e])[1..] == entries[1..] + [e];
    }
  }

  lemma {:induction false} NormalizeThenDrop(entries: seq<DictEntry>)
    ensures DropSpans(NormalizeSpans(entries)) == NormalizeEntries(DropSpans(entries))
  {
    if entries != [] {
      NormalizeThenDrop(entries[1..]);
      assert NormalizeSpans(entries)[1..] == NormalizeSpans(entries[1..]);
      assert DropSpans(entries)[1..] == DropSpans(entries[1..]);
    }
  }

  lemma NextItem(input: seq<u8>, cur: nat, depth: int, read: seq<BValue>)
    requires cur < |input| && input[cur] != CHAR_E
    ensures match ParseValueAt(input, cur, depth)
            case Err(e) => Prepend(read, ParseItems(input, cur, depth)) == Err(e)
            case Ok((item, next)) =>
              Prepend(read, ParseItems(input, cur, depth)) == Prepend(read + [item], ParseItems(input, next, depth))
  {
    var r := BencodeSpec.ParseValue(input, cur, depth);
    if r.Ok? {
      var rest := ParseItems(input, r.value.1, depth);
      if rest.Ok? {
        assert read + ([r.value.0] + rest.value.0) == (read + [r.value.0]) + rest.value.0;
      }
    }
  }

  ghost function ParseValueAt(input: seq<u8>, cur: nat, depth: int): (r: Result<(BValue, nat), BencodeError>)
    requires cur <= |input|
    ensures r.Ok? ==> cur < r.value.1 <= |input|
  {
    BencodeSpec.ParseValue(input, cur, depth)
  }

  lemma NextEntry(input: seq<u8>, cur: nat, depth: int, read: seq<DictEntry>)
    requires cur < |input| && IsDigit(input[cur])
    ensures match BencodeSpec.ParseBytes(input, cur)
            case Err(e) => Prepend(read, ParseEntries(input, cur, depth)) == Err(e)
            case Ok((key, start)) =>
              match ParseValueAt(input, start, depth)
              case Err(e) => Prepend(read, ParseEntries(input, cur, depth)) == Err(e)
              case Ok((value, next)) =>
                Prepend(read, ParseEntries(input, cur, depth))
                == Prepend(read + [DictEntry(key, value, start, next)], ParseEntries(input, next, depth))
  {
    var k := BencodeSpec.ParseBytes(input, cur);
    if k.Ok? {
      var r := BencodeSpec.ParseValue(input, k.value.1, depth);
      if r.Ok? {
        var rest := ParseEntries(input, r.value.1, depth);
        var e := DictEntry(k.value.0, r.value.0, k.value.1, r.value.1);
        if rest.Ok? {
          assert read + ([e] + rest.value.0) == (read + [e]) + rest.value.0;
        }
      }
    }
  }

  method ParseValue(input: seq<u8>, pos: nat, depth: nat, wordMax: nat) returns (r: Result<(BValue, nat), BencodeError>)
    requires pos <= |input| <= wordMax
    ensures r == Normalized(BencodeSpec.ParseValue(input, pos, depth))
    decreases |input| - pos, 2
  {
    if pos == |input| {
      return Err(UnexpectedEof);
    }
    if input[pos] == CHAR_I {
      var n := ParseInt(input, pos);
      return if n.Ok? then Ok((Int(n.value.0), n.value.1)) else Err(n.error);
    } else if IsDigit(input[pos]) {
      var s := ParseBytes(input, pos, wordMax);
      return if s.Ok? then Ok((BValue.Bytes(s.value.0), s.value.1)) else Err(s.error);
    } else if input[pos] == CHAR_L {
      r := ParseList(input, pos, depth, wordMax);
    } else if input[pos] == CHAR_D {
      var entries := ParseDict(input, pos, depth, wordMax);
      if entries.Err? {
        return Err(entries.error);
      }
      var m := CollectMap(entries.value.0);
      NormalizeThenDropAt(input, pos, depth);
      return Ok((Dict(m), entries.value.1));
    } else if input[pos] == CHAR_MINUS {
      return Err(InvalidStringLength(pos));
    } else {
      return Err(UnknownType(pos));
    }
  }

  lemma NormalizeThenDropAt(input: seq<u8>, pos: nat, depth: nat)
    requires ByteAt(input, pos, CHAR_D) && depth < MAX_DEPTH && ParseEntries(input, pos + 1, depth + 1).Ok?
    ensures var (entries, end) := ParseEntries(input, pos + 1, depth + 1).value;
            Normalized(BencodeSpec.ParseValue(input, pos, depth))
            == Ok((Dict(Collect(DropSpans(NormalizeSpans(entries)))), end))
  {
    var (entries, end) := ParseEntries(input, pos + 1, depth + 1).value;
    DictStep(input, pos, depth);
    NormalizeThenDrop(entries);
  }

  lemma ListDone(input: seq<u8>, pos: nat, depth: nat, raw: seq<BValue>, cur: nat)
    requires ByteAt(input, pos, CHAR_L) && depth < MAX_DEPTH && ByteAt(input, cur, CHAR_E)
    requires ParseItems(input, pos + 1, depth + 1) == Prepend(raw, ParseItems(input, cur, depth + 1))
    ensures Normalized(BencodeSpec.ParseValue(input, pos, depth)) == Ok((List(NormalizeItems(raw)), cur + 1))
  {
    PrependNothing(raw, ParseItems(input, cur, depth + 1));
    ListStep(input, pos, depth, raw, cur + 1);
  }

  method ParseList(input: seq<u8>, pos: nat, depth: nat, wordMax: nat) returns (r: Result<(BValue, nat), BencodeError>)
    requires ByteAt(input, pos, CHAR_L) && |input| <= wordMax
    ensures r == Normalized(BencodeSpec.ParseValue(input, pos, depth))
    decreases |input| - pos, 1
  {
    if depth >= MAX_DEPTH {
      return Err(DepthLimit(pos));
    }
    var items := [];
    ghost var raw := [];
    var cur := pos + 1;
    ghost var spec := ParseItems(input, pos + 1, depth + 1);
    PrependNothing(raw, spec);
    while cur < |input| && input[cur] != CHAR_E
      invariant pos < cur <= |input| && items == NormalizeItems(raw)
      invariant spec == Prepend(raw, ParseItems(input, cur, depth + 1))
      decreases |input| - cur
    {
      NextItem(input, cur, depth + 1, raw);
      ghost var step := ParseValueAt(input, cur, depth + 1);
      var item := ParseValue(input, cur, depth + 1, wordMax);
      if item.Err? {
        return Err(item.error);
      }
      NormalizeItemsLast(raw, step.value.0);
      items := items + [item.value.0];
      raw := raw + [step.value.0];
      cur := item.value.1;
    }
    if cur == |input| {
      return Err(UnexpectedEof);
    }
    ListDone(input, pos, depth, raw, cur);
    return Ok((List(items), cur + 1));
  }

  method ParseDict(input: seq<u8>, pos: nat, depth: nat, wordMax: nat)
    returns (r: Result<(seq<DictEntry>, nat), BencodeError>)
    requires ByteAt(input, pos, CHAR_D) && |input| <= wordMax
    ensures r == if depth >= MAX_DEPTH then Err(DepthLimit(pos))
                 else NormalizedEntries(ParseEntries(input, pos + 1, depth + 1))
    decreases |input| - pos, 1
  {
    if depth >= MAX_DEPTH {
      return Err(DepthLimit(pos));
    }
    var entries := [];
    ghost var raw := [];
    var cur := pos + 1;
    ghost var spec := ParseEntries(input, pos + 1, depth + 1);
    PrependNothing(raw, spec);
    while cur < |input| && input[cur] != CHAR_E
      invariant pos < cur <= |input| && entries == NormalizeSpans(raw)
      invariant spec == Prepend(raw, ParseEntries(input, cur, depth + 1))
      decreases |input| - cur
    {
      if !IsDigit(input[cur]) {
        return Err(InvalidStringLength(cur));
      }
      NextEntry(input, cur, depth + 1, raw);
      var key := ParseBytes(input, cur, wordMax);
      if key.Err? {
        return Err(key.error);
      }
      ghost var step := ParseValueAt(input, key.value.1, depth + 1);
      var value := ParseValue(input, key.value.1, depth + 1, wordMax);
      if value.Err? {
        return Err(value.error);
      }
      ghost var e := DictEntry(key.value.0, step.value.0, key.value.1, value.value.1);
      NormalizeSpansLast(raw, e);
      entries := entries + [DictEntry(key.value.0, value.value.0, key.value.1, value.value.1)];
      raw := raw + [e];
      cur := value.value.1;
    }
    if cur == |input| {
      return Err(UnexpectedEof);
    }
    PrependNothing(raw, ParseEntries(input, cur, depth + 1));
    return Ok((entries, cur + 1));
  }

  // The later of two equal keys wins.
  method CollectMap(entries: seq<DictEntry>) returns (m: seq<Entry>)
    ensures m == Collect(DropSpans(entries))
  {
    m := [];
    ghost var all := DropSpans(entries);
    for i := 0 to |entries|
      invariant m == Collect(all[..i])
    {
      assert all[..i + 1][..i] == all[..i];
      m := Insert(m, Entry(entries[i].key, entries[i].value));
    }
    assert all[..|all|] == all;
  }

  // ---------- Entry points ----------

  method Decode(input: seq<u8>, wordMax: nat) returns (r: Result<(BValue, nat), BencodeError>)
    requires |input| <= wordMax
    ensures r == BencodeSpec.Decode(input)
  {
    r := ParseValue(input, 0, 0, wordMax);
  }

  method DecodeTopDictWithSpans(input: seq<u8>, wordMax: nat)
    returns (r: Result<(map<seq<u8>, Spanned>, nat), BencodeError>)
    requires |input| <= wordMax
    ensures r == DecodeTopDict(input)
  {
    if input == [] {
      return Err(UnexpectedEof);
    }
    if input[0] != CHAR_D {
      return Err(UnknownType(0));
    }
    var parsed := ParseDict(input, 0, 0, wordMax);
    if parsed.Err? {
      return Err(parsed.error);
    }
    ghost var raw := ParseEntries(input, 1, 1).value.0;
    var entries := parsed.value.0;
    var spans: map<seq<u8>, Spanned> := map[];
    for i := 0 to |entries|
      invariant spans == CollectSpans(raw[..i])
    {
      NormalizeSpansAt(raw, i);
      assert raw[..i + 1][..i] == raw[..i];
      spans := spans[entries[i].key := Spanned(entries[i].value, entries[i].start, entries[i].end)];
    }
    assert raw[..|raw|] == raw;
    return Ok((spans, parsed.value.1));
  }

  lemma {:induction false} NormalizeSpansAt(entries: seq<DictEntry>, i: nat)
    requires i < |entries|
    ensures var e := entries[i];
            NormalizeSpans(entries)[i] == DictEntry(e.key, Normalize(e.value), e.start, e.end)
  {
    if i > 0 {
      NormalizeSpansAt(entries[1..], i - 1);
    }
  }

  // ---------- Encoding ----------

  class Output {
    var bytes: seq<u8>

    constructor ()
      ensures bytes == []
    {
      bytes := [];
    }

    method Extend(more: seq<u8>)
      modifies this
      ensures bytes == old(bytes) + more
    {
      bytes := bytes + more;
    }
  }

  // Appending one part after another, or all at once.
  lemma Appended<T>(start: seq<T>, a: seq<T>, b: seq<T>, c: seq<T>, d: seq<T>)
    ensures start + a + b + c == start + (a + b + c)
    ensures start + a + b + c + d == start + (a + (b + c) + d)
    ensures a + [] == a && [] + a == a
  {
  }

  lemma {:induction false} PrintItemsLast(items: seq<BValue>, v: BValue)
    ensures PrintItems(items + [v]) == PrintItems(items) + Print(v)
  {
    if items == [] {
      assert [] + [v] == [v] && [v][1..] == [];
      Appended([], Print(v), [], [], []);
    } else {
      PrintItemsLast(items[1..], v);
      assert (items + [v])[1..] == items[1..] + [v];
      Appended(Print(items[0]), PrintItems(items[1..]), Print(v), [], []);
    }
  }

  lemma {:induction false} PrintEntriesLast(entries: seq<Entry>, e: Entry)
    ensures PrintEntries(entries + [e]) == PrintEntries(entries) + PrintBytes(e.key) + Print(e.value)
  {
    if entries == [] {
      assert [] + [e] == [e] && [e][1..] == [];
      Appended([], PrintBytes(e.key), Print(e.value), [], []);
    } else {
      PrintEntriesLast(entries[1..], e);
      assert (entries + [e])[1..] == entries[1..] + [e];
      Appended(PrintBytes(entries[0].key) + Print(entries[0].value), PrintEntries(entries[1..]), PrintBytes(e.key), Print(e.value), []);
    }
  }

  lemma ItemAppended(start: seq<u8>, items: seq<BValue>, i: nat)
    requires i < |items|
    ensures start + PrintItems(items[..i]) + Print(items[i]) == start + PrintItems(items[..i + 1])
  {
    PrintItemsLast(items[..i], items[i]);
    assert items[..i + 1] == items[..i] + [items[i]];
    Assoc(start, PrintItems(items[..i]), Print(items[i]));
  }

  lemma ListAppended(before: seq<u8>, items: seq<BValue>)
    ensures before + [CHAR_L] + PrintItems(items[..|items|]) + [CHAR_E] == before + Print(List(items))
  {
    assert items[..|items|] == items;
    Appended(before, [CHAR_L], PrintItems(items), [CHAR_E], []);
  }

  lemma EntryAppended(start: seq<u8>, entries: seq<Entry>, i: nat)
    requires i < |entries|
    ensures var e := entries[i];
            start + PrintEntries(entries[..i]) + (PrintNat(|e.key|) + [CHAR_COLON]) + e.key + Print(e.value)
            == start + PrintEntries(entries[..i + 1])
  {
    var e := entries[i];
    PrintEntriesLast(entries[..i], e);
    assert entries[..i + 1] == entries[..i] + [e];
    Appended(start, PrintEntries(entries[..i]), PrintNat(|e.key|) + [CHAR_COLON], e.key, Print(e.value));
  }

  lemma DictAppended(before: seq<u8>, entries: seq<Entry>)
    ensures before + [CHAR_D] + PrintEntries(entries[..|entries|]) + [CHAR_E] == before + Print(Dict(entries))
  {
    assert entries[..|entries|] == entries;
    Appended(before, [CHAR_D], PrintEntries(entries), [CHAR_E], []);
  }

  method EncodeInto(v: BValue, out: Output)
    modifies out
    ensures out.bytes == old(out.bytes) + Print(v)
    decreases v, 1
  {
    match v {
      case Int(n) =>
        out.Extend([CHAR_I]);
        out.Extend(PrintInt(n) + [CHAR_E]);
      case Bytes(bytes) =>
        out.Extend(PrintNat(|bytes|) + [CHAR_COLON]);
        out.Extend(bytes);
      case List(items) => EncodeList(items, out);
      case Dict(entries) => EncodeDict(entries, out);
    }
  }

  method EncodeList(items: seq<BValue>, out: Output)
    modifies out
    ensures out.bytes == old(out.bytes) + Print(List(items))
    decreases items, 2
  {
    out.Extend([CHAR_L]);
    ghost var start := out.bytes;
    for i := 0 to |items|
      invariant out.bytes == start + PrintItems(items[..i])
    {
      EncodeInto(items[i], out);
      ItemAppended(start, items, i);
    }
    out.Extend([CHAR_E]);
    ListAppended(old(out.bytes), items);
  }

  method EncodeDict(entries: seq<Entry>, out: Output)
    modifies out
    ensures out.bytes == old(out.bytes) + Print(Dict(entries))
    decreases entries, 2
  {
    out.Extend([CHAR_D]);
    ghost var start := out.bytes;
    for i := 0 to |entries|
      invariant out.bytes == start + PrintEntries(entries[..i])
    {
      var e := entries[i];
      out.Extend(PrintNat(|e.key|) + [CHAR_COLON]);
      out.Extend(e.key);
      EncodeInto(e.value, out);
      EntryAppended(start, entries, i);
    }
    out.Extend([CHAR_E]);
    DictAppended(old(out.bytes), entries);
  }

  method Encode(v: BValue) returns (bytes: seq<u8>)
    ensures bytes == Print(v)
  {
    var out := new Output();
    EncodeInto(v, out);
    bytes := out.bytes;
  }
}
