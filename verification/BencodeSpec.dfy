/** Decimal numbers in ASCII. */
module Decimal {
  import opened Bytes

  predicate IsDigit(b: u8) {
    48 <= b <= 57
  }

  ghost predicate AllDigits(s: seq<u8>) {
    forall i :: 0 <= i < |s| ==> IsDigit(s[i])
  }

  // Digits without a leading zero, except for zero itself.
  ghost predicate CanonicalDigits(s: seq<u8>) {
    AllDigits(s) && s != [] && (s[0] == 48 ==> |s| == 1)
  }

  function PrintNat(n: nat): (s: seq<u8>)
    ensures s != [] && IsDigit(s[0])
  {
    if n < 10 then [(48 + n) as u8] else PrintNat(n / 10) + [(48 + n % 10) as u8]
  }

  // The number whose digits are those of `acc` and then s.
  function Append(acc: nat, s: seq<u8>): nat
    requires AllDigits(s)
    decreases |s|
  {
    if s == [] then acc else Append(acc * 10 + (s[0] as int - 48), s[1..])
  }

  lemma {:induction false} AppendLast(acc: nat, s: seq<u8>, d: u8)
    requires AllDigits(s) && IsDigit(d)
    ensures AllDigits(s + [d]) && Append(acc, s + [d]) == Append(acc, s) * 10 + (d as int - 48)
    decreases |s|
  {
    if s == [] {
      assert [d][1..] == [];
    } else {
      AppendLast(acc * 10 + (s[0] as int - 48), s[1..], d);
      assert (s + [d])[1..] == s[1..] + [d];
    }
  }

  lemma {:induction false} PrintNatIsCanonical(n: nat)
    ensures CanonicalDigits(PrintNat(n)) && Append(0, PrintNat(n)) == n
    ensures PrintNat(n)[0] == 48 <==> n == 0
  {
    if n < 10 {
      assert PrintNat(n)[1..] == [];
    } else {
      PrintNatIsCanonical(n / 10);
      AppendLast(0, PrintNat(n / 10), (48 + n % 10) as u8);
    }
  }

  lemma {:induction false} CanonicalIsPrinted(s: seq<u8>)
    requires CanonicalDigits(s)
    ensures PrintNat(Append(0, s)) == s
    ensures Append(0, s) == 0 <==> s == [48]
  {
    var last := |s| - 1;
    if last == 0 {
      assert s == [s[0]] && s[1..] == [];
    } else {
      CanonicalIsPrinted(s[..last]);
      assert s == s[..last] + [s[last]];
      AppendLast(0, s[..last], s[last]);
    }
  }

  // Reads digits from `cur` on: the number after those read already, and the
  // position behind the last digit.
  function Scan(input: seq<u8>, cur: nat, acc: nat): (r: (nat, nat))
    requires cur <= |input|
    ensures cur <= r.1 <= |input|
    decreases |input| - cur
  {
    if cur < |input| && IsDigit(input[cur]) then Scan(input, cur + 1, acc * 10 + (input[cur] as int - 48))
    else (acc, cur)
  }

  lemma {:induction false} Scanned(input: seq<u8>, cur: nat, acc: nat)
    requires cur <= |input|
    ensures var (n, end) := Scan(input, cur, acc);
            && AllDigits(input[cur..end]) && n == Append(acc, input[cur..end])
            && (end < |input| ==> !IsDigit(input[end]))
            && (end == cur || IsDigit(input[cur]))
    decreases |input| - cur
  {
    if cur < |input| && IsDigit(input[cur]) {
      Scanned(input, cur + 1, acc * 10 + (input[cur] as int - 48));
      var end := Scan(input, cur, acc).1;
      assert input[cur..end][0] == input[cur] && input[cur..end][1..] == input[cur + 1..end];
    }
  }

  lemma {:induction false} ScanAt(input: seq<u8>, cur: nat, acc: nat, end: nat)
    requires cur <= end < |input| && AllDigits(input[cur..end]) && !IsDigit(input[end])
    ensures Scan(input, cur, acc) == (Append(acc, input[cur..end]), end)
    decreases end - cur
  {
    if cur < end {
      assert input[cur..end][0] == input[cur] && input[cur..end][1..] == input[cur + 1..end];
      ScanAt(input, cur + 1, acc * 10 + (input[cur] as int - 48), end);
    }
  }
}

/** The bencode format. A dictionary is the list of its entries; the values of
    the program keep their keys strictly increasing, but an input need not. */
module BencodeSpec {
  import opened Wrappers
  import opened Bytes
  import opened Decimal

  const MAX_DEPTH := 128
  const I64_MAX := 0x7FFF_FFFF_FFFF_FFFF
  const I64_MIN := -0x8000_0000_0000_0000
  const U64_MAX := 0xFFFF_FFFF_FFFF_FFFF

  const CHAR_COLON: u8 := 58
  const CHAR_MINUS: u8 := 45
  const CHAR_D: u8 := 100
  const CHAR_E: u8 := 101
  const CHAR_I: u8 := 105
  const CHAR_L: u8 := 108

  datatype BValue =
    | Int(n: int)
    | Bytes(bytes: seq<u8>)
    | List(items: seq<BValue>)
    | Dict(entries: seq<Entry>)

  datatype Entry = Entry(key: seq<u8>, value: BValue)

  datatype BencodeError =
    | UnexpectedEof
    | InvalidInteger(pos: nat)
    | InvalidStringLength(pos: nat)
    | UnknownType(pos: nat)
    | DepthLimit(pos: nat)

  // ---------- Printing ----------

  function PrintInt(n: int): seq<u8> {
    if n < 0 then [CHAR_MINUS] + PrintNat(-n) else PrintNat(n)
  }

  function PrintBytes(bytes: seq<u8>): seq<u8> {
    PrintNat(|bytes|) + [CHAR_COLON] + bytes
  }

  function Print(v: BValue): (s: seq<u8>)
    ensures s != [] && s[0] != CHAR_E
    decreases v, 1
  {
    match v
    case Int(n) => [CHAR_I] + PrintInt(n) + [CHAR_E]
    case Bytes(bytes) => PrintBytes(bytes)
    case List(items) => [CHAR_L] + PrintItems(items) + [CHAR_E]
    case Dict(entries) => [CHAR_D] + PrintEntries(entries) + [CHAR_E]
  }

  function PrintItems(items: seq<BValue>): seq<u8>
    decreases items, 0
  {
    if items == [] then [] else Print(items[0]) + PrintItems(items[1..])
  }

  function PrintEntries(entries: seq<Entry>): seq<u8>
    decreases entries, 0
  {
    if entries == [] then [] else PrintBytes(entries[0].key) + Print(entries[0].value) + PrintEntries(entries[1..])
  }

  // Integers fit 64 bits.
  predicate InRange(v: BValue)
    decreases v, 1
  {
    match v
    case Int(n) => I64_MIN <= n <= I64_MAX
    case Bytes(_) => true
    case List(items) => ItemsInRange(items)
    case Dict(entries) => EntriesInRange(entries)
  }

  predicate ItemsInRange(items: seq<BValue>)
    decreases items, 0
  {
    items == [] || (InRange(items[0]) && ItemsInRange(items[1..]))
  }

  predicate EntriesInRange(entries: seq<Entry>)
    decreases entries, 0
  {
    entries == [] || (InRange(entries[0].value) && EntriesInRange(entries[1..]))
  }

  // How deep containers nest.
  function Nest(v: BValue): nat
    decreases v, 1
  {
    match v
    case Int(_) => 0
    case Bytes(_) => 0
    case List(items) => 1 + NestItems(items)
    case Dict(entries) => 1 + NestEntries(entries)
  }

  function NestItems(items: seq<BValue>): nat
    decreases items, 0
  {
    if items == [] then 0 else Larger(Nest(items[0]), NestItems(items[1..]))
  }

  function NestEntries(entries: seq<Entry>): nat
    decreases entries, 0
  {
    if entries == [] then 0 else Larger(Nest(entries[0].value), NestEntries(entries[1..]))
  }

  function Larger(a: nat, b: nat): nat {
    if a < b then b else a
  }

  // ---------- Parsing ----------

  predicate ByteAt(input: seq<u8>, pos: nat, b: u8) {
    pos < |input| && input[pos] == b
  }

  function ParseInt(input: seq<u8>, pos: nat): (r: Result<(int, nat), BencodeError>)
    requires ByteAt(input, pos, CHAR_I)
    ensures r.Ok? ==> pos < r.value.1 <= |input|
  {
    var negative := ByteAt(input, pos + 1, CHAR_MINUS);
    var start := if negative then pos + 2 else pos + 1;
    var (scanned, cur) := Scan(input, start, 0);
    var magnitude: int := scanned;
    if cur == |input| then Err(UnexpectedEof)
    else if input[cur] != CHAR_E then Err(InvalidInteger(pos))
    else if cur == start then Err(InvalidInteger(pos))
    else if negative && cur == start + 1 && input[start] == 48 then Err(InvalidInteger(pos))
    else if cur > start + 1 && input[start] == 48 then Err(InvalidInteger(pos))
    else if magnitude > U64_MAX then Err(InvalidInteger(pos))
    else if negative then
      if magnitude <= I64_MAX then Ok((-magnitude, cur + 1))
      else if magnitude == I64_MAX + 1 then Ok((I64_MIN, cur + 1))
      else Err(InvalidInteger(pos))
    else if magnitude <= I64_MAX then Ok((magnitude, cur + 1))
    else Err(InvalidInteger(pos))
  }

  // A length that does not fit a machine word is longer than any buffer, so
  // it fails the same way as one that runs past the end.
  function ParseBytes(input: seq<u8>, pos: nat): (r: Result<(seq<u8>, nat), BencodeError>)
    requires pos < |input| && IsDigit(input[pos])
    ensures r.Ok? ==> pos < r.value.1 <= |input|
  {
    var (len, cur) := Scan(input, pos, 0);
    if !ByteAt(input, cur, CHAR_COLON) then Err(InvalidStringLength(pos))
    else if cur > pos + 1 && input[pos] == 48 then Err(InvalidStringLength(pos))
    else if |input| < cur + 1 + len then Err(UnexpectedEof)
    else Ok((input[cur + 1..cur + 1 + len], cur + 1 + len))
  }

  /** An entry of a dictionary with the range of bytes of its value. */
  datatype DictEntry = DictEntry(key: seq<u8>, value: BValue, start: nat, end: nat)

  function DropSpans(entries: seq<DictEntry>): (r: seq<Entry>)
    ensures |r| == |entries|
    ensures forall i :: 0 <= i < |r| ==> r[i] == Entry(entries[i].key, entries[i].value)
  {
    if entries == [] then [] else [Entry(entries[0].key, entries[0].value)] + DropSpans(entries[1..])
  }

  // The depth is an integer here so that the limit can be lifted.
  function ParseValue(input: seq<u8>, pos: nat, depth: int): (r: Result<(BValue, nat), BencodeError>)
    requires pos <= |input|
    ensures r.Ok? ==> pos < r.value.1 <= |input|
    decreases |input| - pos, 0
  {
    if pos == |input| then Err(UnexpectedEof)
    else if input[pos] == CHAR_I then
      var (n, end) :- ParseInt(input, pos);
      Ok((Int(n), end))
    else if IsDigit(input[pos]) then
      var (bytes, end) :- ParseBytes(input, pos);
      Ok((Bytes(bytes), end))
    else if input[pos] == CHAR_L then
      if depth >= MAX_DEPTH then Err(DepthLimit(pos))
      else
        var (items, end) :- ParseItems(input, pos + 1, depth + 1);
        Ok((List(items), end))
    else if input[pos] == CHAR_D then
      if depth >= MAX_DEPTH then Err(DepthLimit(pos))
      else
        var (entries, end) :- ParseEntries(input, pos + 1, depth + 1);
        Ok((Dict(DropSpans(entries)), end))
    else if input[pos] == CHAR_MINUS then Err(InvalidStringLength(pos))
    else Err(UnknownType(pos))
  }

  function ParseItems(input: seq<u8>, cur: nat, depth: int): (r: Result<(seq<BValue>, nat), BencodeError>)
    requires cur <= |input|
    ensures r.Ok? ==> cur < r.value.1 <= |input|
    decreases |input| - cur, 1
  {
    if cur == |input| then Err(UnexpectedEof)
    else if input[cur] == CHAR_E then Ok(([], cur + 1))
    else
      var (item, next) :- ParseValue(input, cur, depth);
      var (items, end) :- ParseItems(input, next, depth);
      Ok(([item] + items, end))
  }

  function ParseEntries(input: seq<u8>, cur: nat, depth: int): (r: Result<(seq<DictEntry>, nat), BencodeError>)
    requires cur <= |input|
    ensures r.Ok? ==> cur < r.value.1 <= |input|
    decreases |input| - cur, 1
  {
    if cur == |input| then Err(UnexpectedEof)
    else if input[cur] == CHAR_E then Ok(([], cur + 1))
    else if IsDigit(input[cur]) then
      var (key, start) :- ParseBytes(input, cur);
      var (value, next) :- ParseValue(input, start, depth);
      var (entries, end) :- ParseEntries(input, next, depth);
      Ok(([DictEntry(key, value, start, next)] + entries, end))
    else Err(InvalidStringLength(cur))
  }

  // ---------- Keys in order ----------

  predicate Less(a: seq<u8>, b: seq<u8>) {
    b != [] && (a == [] || a[0] < b[0] || (a[0] == b[0] && Less(a[1..], b[1..])))
  }

  ghost predicate Increasing(entries: seq<Entry>) {
    forall i, j :: 0 <= i < j < |entries| ==> Less(entries[i].key, entries[j].key)
  }

  // The values of the program: every dictionary has increasing keys.
  ghost predicate Canonical(v: BValue)
    decreases v
  {
    match v
    case Int(_) => true
    case Bytes(_) => true
    case List(items) => forall x :: x in items ==> Canonical(x)
    case Dict(entries) => Increasing(entries) && forall e :: e in entries ==> Canonical(e.value)
  }

  // Into an ordered map; a key that is there already gets the new value.
  function Insert(m: seq<Entry>, e: Entry): seq<Entry> {
    if m == [] then [e]
    else if m[0].key == e.key then [e] + m[1..]
    else if Less(e.key, m[0].key) then [e] + m
    else [m[0]] + Insert(m[1..], e)
  }

  function Collect(entries: seq<Entry>): seq<Entry> {
    if entries == [] then [] else Insert(Collect(entries[..|entries| - 1]), entries[|entries| - 1])
  }

  // What the program makes of a parsed value.
  function Normalize(v: BValue): BValue
    decreases v, 1
  {
    match v
    case Int(_) => v
    case Bytes(_) => v
    case List(items) => List(NormalizeItems(items))
    case Dict(entries) => Dict(Collect(NormalizeEntries(entries)))
  }

  function NormalizeItems(items: seq<BValue>): (r: seq<BValue>)
    ensures |r| == |items|
    decreases items, 0
  {
    if items == [] then [] else [Normalize(items[0])] + NormalizeItems(items[1..])
  }

  function NormalizeEntries(entries: seq<Entry>): (r: seq<Entry>)
    ensures |r| == |entries|
    decreases entries, 0
  {
    if entries == [] then []
    else [Entry(entries[0].key, Normalize(entries[0].value))] + NormalizeEntries(entries[1..])
  }

  function Decode(input: seq<u8>): Result<(BValue, nat), BencodeError> {
    var (v, end) :- ParseValue(input, 0, 0);
    Ok((Normalize(v), end))
  }
}
