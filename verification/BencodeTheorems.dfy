/** The parser accepts exactly what the printer prints. */
module BencodeTheorems {
  import opened Wrappers
  import opened Bytes
  import opened Decimal
  import opened BencodeSpec

  // The bytes `s` stand in the input at `pos`.
  ghost predicate At(input: seq<u8>, pos: nat, s: seq<u8>)
    decreases |s|
  {
    if s == [] then pos <= |input|
    else pos < |input| && input[pos] == s[0] && At(input, pos + 1, s[1..])
  }

  lemma {:induction false} AtSlice(input: seq<u8>, pos: nat, s: seq<u8>)
    ensures At(input, pos, s) <==> pos + |s| <= |input| && input[pos..pos + |s|] == s
    decreases |s|
  {
    if s != [] {
      AtSlice(input, pos + 1, s[1..]);
      if pos + |s| <= |input| {
        assert input[pos..pos + |s|] == [input[pos]] + input[pos + 1..pos + |s|];
      }
    }
  }

  lemma AtConcat(input: seq<u8>, pos: nat, a: seq<u8>, b: seq<u8>)
    ensures At(input, pos, a + b) <==> At(input, pos, a) && At(input, pos + |a|, b)
  {
    AtSlice(input, pos, a + b);
    AtSlice(input, pos, a);
    AtSlice(input, pos + |a|, b);
    if pos + |a| + |b| <= |input| {
      var all := input[pos..pos + |a| + |b|];
      assert all[..|a|] == input[pos..pos + |a|] && all[|a|..] == input[pos + |a|..pos + |a| + |b|];
      assert (a + b)[..|a|] == a && (a + b)[|a|..] == b;
    }
  }

  lemma AtByte(input: seq<u8>, pos: nat, b: u8)
    ensures At(input, pos, [b]) <==> ByteAt(input, pos, b)
  {
  }

  // ---------- Numbers and byte strings ----------

  lemma NumberAt(input: seq<u8>, pos: nat, n: nat, after: u8)
    requires At(input, pos, PrintNat(n) + [after]) && !IsDigit(after)
    ensures var end := pos + |PrintNat(n)|;
            pos < end < |input| && Scan(input, pos, 0) == (n, end) && input[end] == after
            && IsDigit(input[pos]) && (input[pos] == 48 <==> n == 0) && (n == 0 ==> end == pos + 1)
  {
    var digits := PrintNat(n);
    PrintNatIsCanonical(n);
    AtConcat(input, pos, digits, [after]);
    AtByte(input, pos + |digits|, after);
    AtSlice(input, pos, digits);
    ScanAt(input, pos, 0, pos + |digits|);
    assert input[pos] == input[pos..pos + |digits|][0];
  }

  lemma ScannedDigits(input: seq<u8>, pos: nat, n: nat, end: nat)
    requires pos < |input| && IsDigit(input[pos]) && Scan(input, pos, 0) == (n, end)
    requires end < |input| && (input[pos] == 48 ==> end <= pos + 1)
    ensures pos < end && input[pos..end] == PrintNat(n)
    ensures n == 0 <==> input[pos] == 48
  {
    Scanned(input, pos, 0);
    var digits := input[pos..end];
    assert digits[0] == input[pos];
    CanonicalIsPrinted(digits);
  }

  lemma ScannedNumber(input: seq<u8>, pos: nat, n: nat, end: nat)
    requires pos < |input| && IsDigit(input[pos]) && Scan(input, pos, 0) == (n, end)
    requires end < |input| && (input[pos] == 48 ==> end <= pos + 1)
    ensures pos < end == pos + |PrintNat(n)| && At(input, pos, PrintNat(n) + [input[end]])
    ensures n == 0 <==> input[pos] == 48
  {
    ScannedDigits(input, pos, n, end);
    AtSlice(input, pos, PrintNat(n));
    AtByte(input, end, input[end]);
    AtConcat(input, pos, PrintNat(n), [input[end]]);
  }

  lemma BytesAt(bytes: seq<u8>, head: seq<u8>, input: seq<u8>, pos: nat)
    requires head == PrintNat(|bytes|) + [CHAR_COLON]
    ensures |PrintBytes(bytes)| == |head| + |bytes|
    ensures At(input, pos, PrintBytes(bytes)) <==> At(input, pos, head) && At(input, pos + |head|, bytes)
  {
    assert PrintBytes(bytes) == head + bytes;
    AtConcat(input, pos, head, bytes);
  }

  lemma ParsePrintBytes(bytes: seq<u8>, input: seq<u8>, pos: nat)
    requires At(input, pos, PrintBytes(bytes))
    ensures pos < |input| && IsDigit(input[pos])
    ensures ParseBytes(input, pos) == Ok((bytes, pos + |PrintBytes(bytes)|))
  {
    var head := PrintNat(|bytes|) + [CHAR_COLON];
    BytesAt(bytes, head, input, pos);
    NumberAt(input, pos, |bytes|, CHAR_COLON);
    AtSlice(input, pos + |head|, bytes);
  }

  lemma BytesStand(input: seq<u8>, pos: nat, cur: nat, bytes: seq<u8>)
    requires cur < |input| && input[cur] == CHAR_COLON && |input| >= cur + 1 + |bytes|
    requires cur == pos + |PrintNat(|bytes|)| && At(input, pos, PrintNat(|bytes|) + [input[cur]])
    requires input[cur + 1..cur + 1 + |bytes|] == bytes
    ensures At(input, pos, PrintBytes(bytes)) && cur + 1 + |bytes| == pos + |PrintBytes(bytes)|
  {
    AtSlice(input, cur + 1, bytes);
    BytesAt(bytes, PrintNat(|bytes|) + [CHAR_COLON], input, pos);
  }

  lemma ParsedHead(input: seq<u8>, pos: nat, bytes: seq<u8>, end: nat)
    requires pos < |input| && IsDigit(input[pos]) && ParseBytes(input, pos) == Ok((bytes, end))
    ensures var (len, cur) := Scan(input, pos, 0);
            && cur < |input| && input[cur] == CHAR_COLON && (input[pos] == 48 ==> cur <= pos + 1)
            && len == |bytes| && end == cur + 1 + len <= |input| && input[cur + 1..end] == bytes
  {
  }

  lemma ParsedBytes(input: seq<u8>, pos: nat, bytes: seq<u8>, end: nat)
    requires pos < |input| && IsDigit(input[pos]) && ParseBytes(input, pos) == Ok((bytes, end))
    ensures At(input, pos, PrintBytes(bytes)) && end == pos + |PrintBytes(bytes)|
  {
    ParsedHead(input, pos, bytes, end);
    HeadStands(input, pos, bytes, Scan(input, pos, 0).1);
  }

  lemma HeadStands(input: seq<u8>, pos: nat, bytes: seq<u8>, cur: nat)
    requires pos < |input| && IsDigit(input[pos]) && Scan(input, pos, 0) == (|bytes|, cur)
    requires cur < |input| && input[cur] == CHAR_COLON && (input[pos] == 48 ==> cur <= pos + 1)
    requires cur + 1 + |bytes| <= |input| && input[cur + 1..cur + 1 + |bytes|] == bytes
    ensures At(input, pos, PrintBytes(bytes)) && cur + 1 + |bytes| == pos + |PrintBytes(bytes)|
  {
    ScannedNumber(input, pos, |bytes|, cur);
    BytesStand(input, pos, cur, bytes);
  }

  function Sign(n: int): seq<u8> {
    if n < 0 then [CHAR_MINUS] else []
  }

  function Magnitude(n: int): nat {
    if n < 0 then -n else n
  }

  lemma IntAt(n: int, input: seq<u8>, pos: nat)
    ensures |Print(Int(n))| == 2 + |Sign(n)| + |PrintNat(Magnitude(n))|
    ensures At(input, pos, Print(Int(n))) <==>
            && ByteAt(input, pos, CHAR_I)
            && At(input, pos + 1, Sign(n))
            && At(input, pos + 1 + |Sign(n)|, PrintNat(Magnitude(n)) + [CHAR_E])
  {
    var digits := PrintNat(Magnitude(n)) + [CHAR_E];
    assert Print(Int(n)) == [CHAR_I] + (Sign(n) + digits);
    AtConcat(input, pos, [CHAR_I], Sign(n) + digits);
    AtByte(input, pos, CHAR_I);
    AtConcat(input, pos + 1, Sign(n), digits);
  }

  lemma IntParsed(n: int, input: seq<u8>, pos: nat, start: nat, end: nat)
    requires I64_MIN <= n <= I64_MAX && ByteAt(input, pos, CHAR_I)
    requires n < 0 <==> ByteAt(input, pos + 1, CHAR_MINUS)
    requires start == (if n < 0 then pos + 2 else pos + 1) && start < end && ByteAt(input, end, CHAR_E)
    requires Scan(input, start, 0) == (Magnitude(n), end)
    requires (input[start] == 48 <==> n == 0) && (n == 0 ==> end == start + 1)
    ensures ParseInt(input, pos) == Ok((n, end + 1))
  {
  }

  lemma ParsePrintInt(n: int, input: seq<u8>, pos: nat)
    requires I64_MIN <= n <= I64_MAX && At(input, pos, Print(Int(n)))
    ensures ByteAt(input, pos, CHAR_I) && ParseInt(input, pos) == Ok((n, pos + |Print(Int(n))|))
  {
    IntAt(n, input, pos);
    var start := pos + 1 + |Sign(n)|;
    NumberAt(input, start, Magnitude(n), CHAR_E);
    AtByte(input, pos + 1, CHAR_MINUS);
    IntParsed(n, input, pos, start, start + |PrintNat(Magnitude(n))|);
  }

  lemma ParsedIntHead(input: seq<u8>, pos: nat, n: int, end: nat) returns (start: nat)
    requires ByteAt(input, pos, CHAR_I) && ParseInt(input, pos) == Ok((n, end))
    ensures I64_MIN <= n <= I64_MAX
    ensures start == (if ByteAt(input, pos + 1, CHAR_MINUS) then pos + 2 else pos + 1)
    ensures start + 1 < end <= |input| && input[end - 1] == CHAR_E
    ensures Scan(input, start, 0) == (Magnitude(n), end - 1) && (input[start] == 48 ==> end - 1 == start + 1)
    ensures if start == pos + 2 then n <= 0 && input[start] != 48 else 0 <= n
  {
    start := if ByteAt(input, pos + 1, CHAR_MINUS) then pos + 2 else pos + 1;
  }

  lemma ParsedInt(input: seq<u8>, pos: nat, n: int, end: nat)
    requires ByteAt(input, pos, CHAR_I) && ParseInt(input, pos) == Ok((n, end))
    ensures I64_MIN <= n <= I64_MAX && At(input, pos, Print(Int(n))) && end == pos + |Print(Int(n))|
  {
    var start := ParsedIntHead(input, pos, n, end);
    Scanned(input, start, 0);
    ScannedNumber(input, start, Magnitude(n), end - 1);
    assert start == pos + 1 + |Sign(n)|;
    AtByte(input, pos + 1, CHAR_MINUS);
    IntAt(n, input, pos);
  }

  // ---------- Where the parts of a printed value stand ----------

  lemma HeadAt(v: BValue, input: seq<u8>, pos: nat)
    requires At(input, pos, Print(v))
    ensures pos < |input| && input[pos] != CHAR_E
  {
  }

  lemma ListAt(items: seq<BValue>, input: seq<u8>, pos: nat)
    ensures |Print(List(items))| == 2 + |PrintItems(items)|
    ensures At(input, pos, Print(List(items))) <==>
            ByteAt(input, pos, CHAR_L) && At(input, pos + 1, PrintItems(items) + [CHAR_E])
  {
    assert Print(List(items)) == [CHAR_L] + (PrintItems(items) + [CHAR_E]);
    AtConcat(input, pos, [CHAR_L], PrintItems(items) + [CHAR_E]);
    AtByte(input, pos, CHAR_L);
  }

  lemma DictAt(entries: seq<Entry>, input: seq<u8>, pos: nat)
    ensures |Print(Dict(entries))| == 2 + |PrintEntries(entries)|
    ensures At(input, pos, Print(Dict(entries))) <==>
            ByteAt(input, pos, CHAR_D) && At(input, pos + 1, PrintEntries(entries) + [CHAR_E])
  {
    assert Print(Dict(entries)) == [CHAR_D] + (PrintEntries(entries) + [CHAR_E]);
    AtConcat(input, pos, [CHAR_D], PrintEntries(entries) + [CHAR_E]);
    AtByte(input, pos, CHAR_D);
  }

  lemma ItemAt(item: BValue, items: seq<BValue>, input: seq<u8>, cur: nat)
    ensures |PrintItems([item] + items)| == |Print(item)| + |PrintItems(items)|
    ensures At(input, cur, PrintItems([item] + items) + [CHAR_E]) <==>
            At(input, cur, Print(item)) && At(input, cur + |Print(item)|, PrintItems(items) + [CHAR_E])
  {
    assert ([item] + items)[1..] == items;
    assert PrintItems([item] + items) + [CHAR_E] == Print(item) + (PrintItems(items) + [CHAR_E]);
    AtConcat(input, cur, Print(item), PrintItems(items) + [CHAR_E]);
  }

  lemma EntryAt(e: Entry, entries: seq<Entry>, input: seq<u8>, cur: nat)
    ensures |PrintEntries([e] + entries)| == |PrintBytes(e.key)| + |Print(e.value)| + |PrintEntries(entries)|
    ensures At(input, cur, PrintEntries([e] + entries) + [CHAR_E]) <==>
            && At(input, cur, PrintBytes(e.key))
            && At(input, cur + |PrintBytes(e.key)|, Print(e.value))
            && At(input, cur + |PrintBytes(e.key)| + |Print(e.value)|, PrintEntries(entries) + [CHAR_E])
  {
    var k, p, rest := PrintBytes(e.key), Print(e.value), PrintEntries(entries) + [CHAR_E];
    assert ([e] + entries)[1..] == entries;
    assert PrintEntries([e] + entries) + [CHAR_E] == k + (p + rest);
    AtConcat(input, cur, k, p + rest);
    AtConcat(input, cur + |k|, p, rest);
  }

  lemma NestEntry(e: Entry, entries: seq<Entry>)
    ensures NestEntries([e] + entries) == Larger(Nest(e.value), NestEntries(entries))
    ensures EntriesInRange([e] + entries) <==> InRange(e.value) && EntriesInRange(entries)
  {
  }

  lemma EndAt(input: seq<u8>, cur: nat)
    ensures At(input, cur, PrintItems([]) + [CHAR_E]) <==> ByteAt(input, cur, CHAR_E)
    ensures At(input, cur, PrintEntries([]) + [CHAR_E]) <==> ByteAt(input, cur, CHAR_E)
  {
  }

  // ---------- One step of the parser ----------

  lemma IntStep(input: seq<u8>, pos: nat, depth: int, n: int, end: nat)
    requires ByteAt(input, pos, CHAR_I) && ParseInt(input, pos) == Ok((n, end))
    ensures ParseValue(input, pos, depth) == Ok((Int(n), end))
  {
  }

  lemma BytesStep(input: seq<u8>, pos: nat, depth: int, bytes: seq<u8>, end: nat)
    requires pos < |input| && IsDigit(input[pos]) && ParseBytes(input, pos) == Ok((bytes, end))
    ensures ParseValue(input, pos, depth) == Ok((Bytes(bytes), end))
  {
  }

  lemma ListStep(input: seq<u8>, pos: nat, depth: int, items: seq<BValue>, end: nat)
    requires ByteAt(input, pos, CHAR_L) && depth < MAX_DEPTH && ParseItems(input, pos + 1, depth + 1) == Ok((items, end))
    ensures ParseValue(input, pos, depth) == Ok((List(items), end))
  {
  }

  lemma DictStep(input: seq<u8>, pos: nat, depth: int)
    requires ByteAt(input, pos, CHAR_D) && depth < MAX_DEPTH && ParseEntries(input, pos + 1, depth + 1).Ok?
    ensures var r := ParseEntries(input, pos + 1, depth + 1).value;
            ParseValue(input, pos, depth) == Ok((Dict(DropSpans(r.0)), r.1))
  {
  }

  lemma EntryStep(input: seq<u8>, cur: nat, depth: int)
    requires cur < |input| && IsDigit(input[cur]) && ParseBytes(input, cur).Ok?
    requires ParseValue(input, ParseBytes(input, cur).value.1, depth).Ok?
    requires ParseEntries(input, ParseValue(input, ParseBytes(input, cur).value.1, depth).value.1, depth).Ok?
    ensures var (key, start) := ParseBytes(input, cur).value;
            var (value, next) := ParseValue(input, start, depth).value;
            var (entries, end) := ParseEntries(input, next, depth).value;
            && ParseEntries(input, cur, depth) == Ok(([DictEntry(key, value, start, next)] + entries, end))
            && DropSpans([DictEntry(key, value, start, next)] + entries) == [Entry(key, value)] + DropSpans(entries)
  {
  }

  // ---------- Reading back what was printed ----------

  lemma {:induction false} ParsePrint(v: BValue, input: seq<u8>, pos: nat, depth: int)
    requires InRange(v) && depth + Nest(v) <= MAX_DEPTH && At(input, pos, Print(v))
    ensures ParseValue(input, pos, depth) == Ok((v, pos + |Print(v)|))
    decreases v, 1
  {
    match v {
      case Int(n) => ParsePrintNumber(n, input, pos, depth);
      case Bytes(bytes) => ParsePrintString(bytes, input, pos, depth);
      case List(items) =>
        ListAt(items, input, pos);
        ParsePrintList(items, input, pos, depth);
      case Dict(entries) =>
        DictAt(entries, input, pos);
        ParsePrintDict(entries, input, pos, depth);
    }
  }

  lemma ParsePrintNumber(n: int, input: seq<u8>, pos: nat, depth: int)
    requires I64_MIN <= n <= I64_MAX && At(input, pos, Print(Int(n)))
    ensures ParseValue(input, pos, depth) == Ok((Int(n), pos + |Print(Int(n))|))
  {
    ParsePrintInt(n, input, pos);
    IntStep(input, pos, depth, n, pos + |Print(Int(n))|);
  }

  lemma ParsePrintString(bytes: seq<u8>, input: seq<u8>, pos: nat, depth: int)
    requires At(input, pos, PrintBytes(bytes))
    ensures ParseValue(input, pos, depth) == Ok((Bytes(bytes), pos + |PrintBytes(bytes)|))
  {
    ParsePrintBytes(bytes, input, pos);
    BytesStep(input, pos, depth, bytes, pos + |PrintBytes(bytes)|);
  }

  lemma {:induction false} ParsePrintList(items: seq<BValue>, input: seq<u8>, pos: nat, depth: int)
    requires ItemsInRange(items) && depth + 1 + NestItems(items) <= MAX_DEPTH
    requires ByteAt(input, pos, CHAR_L) && At(input, pos + 1, PrintItems(items) + [CHAR_E])
    ensures ParseValue(input, pos, depth) == Ok((List(items), pos + 2 + |PrintItems(items)|))
    decreases items, 1
  {
    ParsePrintItems(items, input, pos + 1, depth + 1);
    ListParsed(items, input, pos, depth);
  }

  lemma {:induction false} ParsePrintDict(entries: seq<Entry>, input: seq<u8>, pos: nat, depth: int)
    requires EntriesInRange(entries) && depth + 1 + NestEntries(entries) <= MAX_DEPTH
    requires ByteAt(input, pos, CHAR_D) && At(input, pos + 1, PrintEntries(entries) + [CHAR_E])
    ensures ParseValue(input, pos, depth) == Ok((Dict(entries), pos + 2 + |PrintEntries(entries)|))
    decreases entries, 1
  {
    ParsePrintEntries(entries, input, pos + 1, depth + 1);
    DictParsed(entries, input, pos, depth);
  }

  lemma {:induction false} ParsePrintItems(items: seq<BValue>, input: seq<u8>, cur: nat, depth: int)
    requires ItemsInRange(items) && depth + NestItems(items) <= MAX_DEPTH
    requires At(input, cur, PrintItems(items) + [CHAR_E])
    ensures ParsesItems(input, cur, depth, items)
    decreases items, 0
  {
    if items == [] {
      EndAt(input, cur);
    } else {
      assert [items[0]] + items[1..] == items;
      var next := ParsePrintItem(items[0], items[1..], input, cur, depth);
      ParsePrintItems(items[1..], input, next, depth);
      ItemParsed(items[0], items[1..], input, cur, depth, next);
    }
  }

  lemma {:induction false} ParsePrintItem(item: BValue, rest: seq<BValue>, input: seq<u8>, cur: nat, depth: int)
    returns (next: nat)
    requires InRange(item) && depth + Nest(item) <= MAX_DEPTH
    requires At(input, cur, PrintItems([item] + rest) + [CHAR_E])
    ensures ItemStands(item, input, cur, depth, next)
    ensures At(input, next, PrintItems(rest) + [CHAR_E])
    decreases item, 2
  {
    next := cur + |Print(item)|;
    ItemAt(item, rest, input, cur);
    HeadAt(item, input, cur);
    ParsePrint(item, input, cur, depth);
  }

  // The parser finds the item between these places.
  ghost predicate ItemStands(item: BValue, input: seq<u8>, cur: nat, depth: int, next: nat) {
    && cur < |input| && input[cur] != CHAR_E && ParseValue(input, cur, depth) == Ok((item, next))
    && next == cur + |Print(item)|
  }

  // The parser finds these items and stops behind them.
  ghost predicate ParsesItems(input: seq<u8>, cur: nat, depth: int, items: seq<BValue>)
    requires cur <= |input|
  {
    ParseItems(input, cur, depth) == Ok((items, cur + |PrintItems(items)| + 1))
  }

  lemma ListParsed(items: seq<BValue>, input: seq<u8>, pos: nat, depth: int)
    requires ByteAt(input, pos, CHAR_L) && depth < MAX_DEPTH && ParsesItems(input, pos + 1, depth + 1, items)
    ensures ParseValue(input, pos, depth) == Ok((List(items), pos + 2 + |PrintItems(items)|))
  {
    ListStep(input, pos, depth, items, pos + 2 + |PrintItems(items)|);
  }

  lemma ItemParsed(item: BValue, rest: seq<BValue>, input: seq<u8>, cur: nat, depth: int, next: nat)
    requires ItemStands(item, input, cur, depth, next)
    requires next <= |input| && ParsesItems(input, next, depth, rest)
    ensures ParsesItems(input, cur, depth, [item] + rest)
  {
    assert ([item] + rest)[1..] == rest;
  }

  lemma {:induction false} ParsePrintEntries(entries: seq<Entry>, input: seq<u8>, cur: nat, depth: int)
    requires EntriesInRange(entries) && depth + NestEntries(entries) <= MAX_DEPTH
    requires At(input, cur, PrintEntries(entries) + [CHAR_E])
    ensures ParsesEntries(input, cur, depth, entries)
    decreases entries, 0
  {
    if entries == [] {
      EndAt(input, cur);
    } else {
      assert [entries[0]] + entries[1..] == entries;
      var start, next := ParsePrintEntry(entries[0], entries[1..], input, cur, depth);
      ParsePrintEntries(entries[1..], input, next, depth);
      EntryParsed(entries[0], entries[1..], input, cur, depth, start, next);
    }
  }

  lemma {:induction false} ParsePrintEntry(e: Entry, rest: seq<Entry>, input: seq<u8>, cur: nat, depth: int)
    returns (start: nat, next: nat)
    requires InRange(e.value) && depth + Nest(e.value) <= MAX_DEPTH
    requires At(input, cur, PrintEntries([e] + rest) + [CHAR_E])
    ensures EntryStands(e, input, cur, depth, start, next)
    ensures At(input, next, PrintEntries(rest) + [CHAR_E])
    decreases e, 2
  {
    start := cur + |PrintBytes(e.key)|;
    next := start + |Print(e.value)|;
    EntryAt(e, rest, input, cur);
    ParsePrintBytes(e.key, input, cur);
    ParsePrint(e.value, input, start, depth);
  }

  // The parser finds the key and the value of the entry in these places.
  ghost predicate EntryStands(e: Entry, input: seq<u8>, cur: nat, depth: int, start: nat, next: nat) {
    && cur < |input| && IsDigit(input[cur]) && ParseBytes(input, cur) == Ok((e.key, start))
    && ParseValue(input, start, depth) == Ok((e.value, next))
    && next == cur + |PrintBytes(e.key)| + |Print(e.value)|
  }

  // Dropping the spans, the parser finds these entries and stops behind them.
  ghost predicate ParsesEntries(input: seq<u8>, cur: nat, depth: int, entries: seq<Entry>)
    requires cur <= |input|
  {
    var r := ParseEntries(input, cur, depth);
    r.Ok? && DropSpans(r.value.0) == entries && r.value.1 == cur + |PrintEntries(entries)| + 1
  }

  lemma DictParsed(entries: seq<Entry>, input: seq<u8>, pos: nat, depth: int)
    requires ByteAt(input, pos, CHAR_D) && depth < MAX_DEPTH && ParsesEntries(input, pos + 1, depth + 1, entries)
    ensures ParseValue(input, pos, depth) == Ok((Dict(entries), pos + 2 + |PrintEntries(entries)|))
  {
  }

  lemma EntryParsed(e: Entry, rest: seq<Entry>, input: seq<u8>, cur: nat, depth: int, start: nat, next: nat)
    requires EntryStands(e, input, cur, depth, start, next)
    requires next <= |input| && ParsesEntries(input, next, depth, rest)
    ensures ParsesEntries(input, cur, depth, [e] + rest)
  {
  }

  // ---------- Printing back what was read ----------

  lemma {:induction false} PrintParsed(input: seq<u8>, pos: nat, depth: int)
    requires pos <= |input| && depth <= MAX_DEPTH && ParseValue(input, pos, depth).Ok?
    ensures var (v, end) := ParseValue(input, pos, depth).value;
            InRange(v) && depth + Nest(v) <= MAX_DEPTH && At(input, pos, Print(v)) && end == pos + |Print(v)|
    decreases |input| - pos, 2
  {
    var (v, end) := ParseValue(input, pos, depth).value;
    match v {
      case Int(n) => ParsedInt(input, pos, n, end);
      case Bytes(bytes) => ParsedBytes(input, pos, bytes, end);
      case List(items) => PrintParsedList(input, pos, depth, items, end);
      case Dict(entries) => PrintParsedDict(input, pos, depth, entries, end);
    }
  }

  lemma {:induction false} PrintParsedList(input: seq<u8>, pos: nat, depth: int, items: seq<BValue>, end: nat)
    requires pos <= |input| && depth <= MAX_DEPTH && ParseValue(input, pos, depth) == Ok((List(items), end))
    ensures ItemsInRange(items) && depth + 1 + NestItems(items) <= MAX_DEPTH
    ensures At(input, pos, Print(List(items))) && end == pos + |Print(List(items))|
    decreases |input| - pos, 1
  {
    PrintParsedItems(input, pos + 1, depth + 1);
    ListAt(items, input, pos);
  }

  lemma {:induction false} PrintParsedDict(input: seq<u8>, pos: nat, depth: int, entries: seq<Entry>, end: nat)
    requires pos <= |input| && depth <= MAX_DEPTH && ParseValue(input, pos, depth) == Ok((Dict(entries), end))
    ensures EntriesInRange(entries) && depth + 1 + NestEntries(entries) <= MAX_DEPTH
    ensures At(input, pos, Print(Dict(entries))) && end == pos + |Print(Dict(entries))|
    decreases |input| - pos, 1
  {
    PrintParsedEntries(input, pos + 1, depth + 1);
    DictAt(entries, input, pos);
  }

  lemma {:induction false} PrintParsedItems(input: seq<u8>, cur: nat, depth: int)
    requires cur <= |input| && depth <= MAX_DEPTH && ParseItems(input, cur, depth).Ok?
    ensures var (items, end) := ParseItems(input, cur, depth).value;
            && ItemsInRange(items) && depth + NestItems(items) <= MAX_DEPTH
            && At(input, cur, PrintItems(items) + [CHAR_E]) && end == cur + |PrintItems(items)| + 1
    decreases |input| - cur, 3
  {
    if input[cur] == CHAR_E {
      EndAt(input, cur);
    } else {
      var (item, next) := ParseValue(input, cur, depth).value;
      var (items, end) := ParseItems(input, next, depth).value;
      PrintParsed(input, cur, depth);
      PrintParsedItems(input, next, depth);
      ItemAt(item, items, input, cur);
      assert ([item] + items)[1..] == items;
    }
  }

  // These entries are within the limits and end the dictionary at `end`.
  ghost predicate EntriesPrinted(input: seq<u8>, cur: nat, depth: int, entries: seq<Entry>, end: nat) {
    && EntriesInRange(entries) && depth + NestEntries(entries) <= MAX_DEPTH
    && At(input, cur, PrintEntries(entries) + [CHAR_E]) && end == cur + |PrintEntries(entries)| + 1
  }

  lemma EntryPrinted(e: Entry, rest: seq<Entry>, input: seq<u8>, cur: nat, depth: int, next: nat, end: nat)
    requires InRange(e.value) && depth + Nest(e.value) <= MAX_DEPTH && EntriesPrinted(input, next, depth, rest, end)
    requires At(input, cur, PrintBytes(e.key)) && At(input, cur + |PrintBytes(e.key)|, Print(e.value))
    requires next == cur + |PrintBytes(e.key)| + |Print(e.value)|
    ensures EntriesPrinted(input, cur, depth, [e] + rest, end)
  {
    EntryAt(e, rest, input, cur);
    NestEntry(e, rest);
  }

  lemma {:induction false} PrintParsedEntries(input: seq<u8>, cur: nat, depth: int)
    requires cur <= |input| && depth <= MAX_DEPTH && ParseEntries(input, cur, depth).Ok?
    ensures var (spanned, end) := ParseEntries(input, cur, depth).value;
            EntriesPrinted(input, cur, depth, DropSpans(spanned), end)
    decreases |input| - cur, 3
  {
    if input[cur] == CHAR_E {
      EndAt(input, cur);
    } else {
      var (key, start) := ParseBytes(input, cur).value;
      var (value, next) := ParseValue(input, start, depth).value;
      var (spanned, end) := ParseEntries(input, next, depth).value;
      ParsedBytes(input, cur, key, start);
      PrintParsed(input, start, depth);
      PrintParsedEntries(input, next, depth);
      EntryPrinted(Entry(key, value), DropSpans(spanned), input, cur, depth, next, end);
      EntryStep(input, cur, depth);
    }
  }
}
