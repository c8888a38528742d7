/** Keys in order, and the guarantees of `decode` and `encode`. */
module BencodeDecode {
  import opened Wrappers
  import opened Bytes
  import opened BencodeSpec
  import opened BencodeTheorems

  // ---------- The order of keys ----------

  lemma {:induction false} LessIsStrict(a: seq<u8>, b: seq<u8>)
    ensures !Less(a, a)
    ensures !(Less(a, b) && Less(b, a))
    ensures a != b ==> Less(a, b) || Less(b, a)
    decreases |a|
  {
    if a != [] {
      LessIsStrict(a[1..], if b == [] then [] else b[1..]);
      if b != [] && a[0] == b[0] {
        assert a == [a[0]] + a[1..] && b == [b[0]] + b[1..];
      }
    }
  }

  lemma {:induction false} LessTransitive(a: seq<u8>, b: seq<u8>, c: seq<u8>)
    requires Less(a, b) && Less(b, c)
    ensures Less(a, c)
    decreases |a|
  {
    if a != [] && a[0] == b[0] == c[0] {
      LessTransitive(a[1..], b[1..], c[1..]);
    }
  }

  // ---------- The ordered map ----------

  function Lookup(entries: seq<Entry>, key: seq<u8>): Option<BValue> {
    if entries == [] then None
    else if entries[0].key == key then Some(entries[0].value)
    else Lookup(entries[1..], key)
  }

  lemma ConsIncreasing(e: Entry, rest: seq<Entry>)
    ensures Increasing([e] + rest) <==> Increasing(rest) && forall x :: x in rest ==> Less(e.key, x.key)
  {
    var all := [e] + rest;
    if Increasing(all) {
      assert forall i :: 0 <= i < |rest| ==> rest[i] == all[i + 1];
      forall x | x in rest ensures Less(e.key, x.key) {
        var i :| 0 <= i < |rest| && rest[i] == x;
        assert Less(all[0].key, all[i + 1].key);
      }
    }
  }

  lemma {:induction false} InsertWorks(m: seq<Entry>, e: Entry, key: seq<u8>)
    requires Increasing(m)
    ensures Increasing(Insert(m, e))
    ensures forall x :: x in Insert(m, e) ==> x == e || x in m
    ensures Lookup(Insert(m, e), key) == if key == e.key then Some(e.value) else Lookup(m, key)
  {
    if m == [] {
      assert [e][1..] == [];
    } else {
      var head, tail := m[0], m[1..];
      assert m == [head] + tail;
      ConsIncreasing(head, tail);
      if head.key == e.key {
        ConsIncreasing(e, tail);
        assert ([e] + tail)[1..] == tail;
      } else if Less(e.key, head.key) {
        forall x | x in m ensures Less(e.key, x.key) {
          if x in tail {
            LessTransitive(e.key, head.key, x.key);
          }
        }
        ConsIncreasing(e, m);
        assert ([e] + m)[1..] == m;
      } else {
        LessIsStrict(e.key, head.key);
        InsertWorks(tail, e, key);
        ConsIncreasing(head, Insert(tail, e));
        assert ([head] + Insert(tail, e))[1..] == Insert(tail, e);
      }
    }
  }

  lemma {:induction false} InsertLast(m: seq<Entry>, e: Entry)
    requires forall x :: x in m ==> Less(x.key, e.key)
    ensures Insert(m, e) == m + [e]
  {
    if m != [] {
      LessIsStrict(m[0].key, e.key);
      InsertLast(m[1..], e);
      assert m == [m[0]] + m[1..];
    }
  }

  lemma {:induction false} CollectWorks(entries: seq<Entry>)
    ensures Increasing(Collect(entries))
    ensures forall x :: x in Collect(entries) ==> x in entries
    ensures Increasing(entries) ==> Collect(entries) == entries
  {
    if entries != [] {
      var last := |entries| - 1;
      CollectWorks(entries[..last]);
      InsertWorks(Collect(entries[..last]), entries[last], []);
      assert entries == entries[..last] + [entries[last]];
      if Increasing(entries) {
        InsertLast(entries[..last], entries[last]);
      }
    }
  }

  // ---------- Values of the program ----------

  lemma {:induction false} NormalizeIsCanonical(v: BValue)
    ensures Canonical(Normalize(v))
    ensures Canonical(v) ==> Normalize(v) == v
    decreases v, 1
  {
    match v {
      case Int(_) =>
      case Bytes(_) =>
      case List(items) => NormalizeItemsCanonical(items);
      case Dict(entries) =>
        NormalizeEntriesCanonical(entries);
        CollectWorks(NormalizeEntries(entries));
    }
  }

  lemma {:induction false} NormalizeItemsCanonical(items: seq<BValue>)
    ensures forall x :: x in NormalizeItems(items) ==> Canonical(x)
    ensures (forall x :: x in items ==> Canonical(x)) ==> NormalizeItems(items) == items
    decreases items, 0
  {
    if items != [] {
      NormalizeIsCanonical(items[0]);
      NormalizeItemsCanonical(items[1..]);
      assert items == [items[0]] + items[1..];
    }
  }

  lemma {:induction false} NormalizeEntriesCanonical(entries: seq<Entry>)
    ensures forall e :: e in NormalizeEntries(entries) ==> Canonical(e.value)
    ensures (forall e :: e in entries ==> Canonical(e.value)) ==> NormalizeEntries(entries) == entries
    decreases entries, 0
  {
    if entries != [] {
      NormalizeIsCanonical(entries[0].value);
      NormalizeEntriesCanonical(entries[1..]);
      assert entries == [entries[0]] + entries[1..];
    }
  }

  // ---------- The guarantees ----------

  lemma AtPrefix(s: seq<u8>, rest: seq<u8>)
    ensures At(s + rest, 0, s)
  {
    AtSlice(s + rest, 0, s);
  }

  // Decoding an encoding, whatever follows it, gives the value back.
  lemma DecodeOfEncode(v: BValue, rest: seq<u8>)
    requires Canonical(v) && InRange(v) && Nest(v) <= MAX_DEPTH
    ensures Decode(Print(v) + rest) == Ok((v, |Print(v)|))
  {
    AtPrefix(Print(v), rest);
    ParsePrint(v, Print(v) + rest, 0, 0);
    NormalizeIsCanonical(v);
  }

  // However deep they nest, different values are printed differently.
  lemma EncodeIsInjective(v: BValue, w: BValue)
    requires InRange(v) && InRange(w) && Print(v) == Print(w)
    ensures v == w
  {
    var depth := MAX_DEPTH - Larger(Nest(v), Nest(w));
    AtPrefix(Print(v), []);
    assert Print(v) + [] == Print(v);
    ParsePrint(v, Print(v), 0, depth);
    ParsePrint(w, Print(v), 0, depth);
  }

  // Success at one place is success wherever the same bytes stand.
  lemma ParseIsLocal(input: seq<u8>, pos: nat, depth: int, input': seq<u8>, pos': nat, depth': int)
    requires pos <= |input| && depth' <= depth <= MAX_DEPTH && ParseValue(input, pos, depth).Ok?
    requires At(input', pos', input[pos..ParseValue(input, pos, depth).value.1]) && pos' <= |input'|
    ensures var (v, end) := ParseValue(input, pos, depth).value;
            ParseValue(input', pos', depth') == Ok((v, pos' + (end - pos)))
  {
    PrintParsed(input, pos, depth);
    var (v, end) := ParseValue(input, pos, depth).value;
    AtSlice(input, pos, Print(v));
    ParsePrint(v, input', pos', depth');
  }

  lemma DecodeIsLocal(input: seq<u8>, more: seq<u8>)
    requires Decode(input).Ok?
    ensures Decode(input + more) == Decode(input)
    ensures 1 <= Decode(input).value.1 <= |input|
    ensures Decode(input[..Decode(input).value.1]) == Decode(input)
  {
    var end := ParseValue(input, 0, 0).value.1;
    var used := input[..end];
    assert input[0..end] == used;
    AtSlice(input + more, 0, used);
    AtSlice(used, 0, used);
    ParseIsLocal(input, 0, 0, input + more, 0, 0);
    ParseIsLocal(input, 0, 0, used, 0, 0);
  }

  // Cut short anywhere, an encoding is rejected, however deep the value nests.
  lemma PrefixIsRejected(v: BValue, n: nat)
    requires InRange(v) && n < |Print(v)|
    ensures Decode(Print(v)[..n]).Err?
  {
    var cut := Print(v)[..n];
    if Decode(cut).Ok? {
      var depth := if Nest(v) <= MAX_DEPTH then 0 else MAX_DEPTH - Nest(v);
      var end := ParseValue(cut, 0, 0).value.1;
      PrefixStands(Print(v), n, end);
      ParseIsLocal(cut, 0, 0, Print(v), 0, depth);
      AtItself(Print(v));
      ParsePrint(v, Print(v), 0, depth);
    }
  }

  lemma PrefixStands(s: seq<u8>, n: nat, end: nat)
    requires end <= n <= |s|
    ensures At(s, 0, s[..n][0..end])
  {
    assert s[..n][0..end] == s[0..end];
    AtSlice(s, 0, s[0..end]);
  }

  // The decoded value prints as the bytes it was read from exactly when every
  // dictionary among them lists its keys in increasing order.
  lemma ReencodeIffOrdered(input: seq<u8>)
    requires Decode(input).Ok?
    ensures var (v, n) := Decode(input).value;
            Print(v) == input[..n] <==> Canonical(ParseValue(input, 0, 0).value.0)
  {
    PrintParsed(input, 0, 0);
    var (raw, n) := ParseValue(input, 0, 0).value;
    var v := Normalize(raw);
    AtSlice(input, 0, Print(raw));
    assert input[0..n] == input[..n] == Print(raw);
    NormalizeIsCanonical(raw);
    NormalizeInRange(raw);
    if Print(v) == Print(raw) {
      EncodeIsInjective(v, raw);
    }
  }

  // d1:bi1e1:ai1ee is accepted, and is not what its value prints as.
  lemma UnorderedIsAccepted()
    ensures var input := Print(Dict([Entry([98], Int(1)), Entry([97], Int(1))]));
            && Decode(input).Ok? && Decode(input).value.1 == |input| && Print(Decode(input).value.0) != input
  {
    var a, b := Entry([97], Int(1)), Entry([98], Int(1));
    var v := Dict([b, a]);
    assert [b, a][1..] == [a] && [a][1..] == [];
    assert NestEntries([a]) == 0 && EntriesInRange([a]);
    assert NestEntries([b, a]) == 0 && EntriesInRange([b, a]);
    AtPrefix(Print(v), []);
    assert Print(v) + [] == Print(v);
    ParsePrint(v, Print(v), 0, 0);
    LessIsStrict(a.key, b.key);
    assert a.key[0] < b.key[0];
    assert Less(a.key, b.key);
    assert v.entries[0] == b && v.entries[1] == a;
    ReencodeIffOrdered(Print(v));
    assert Print(v)[..|Print(v)|] == Print(v);
  }

  lemma {:induction false} NormalizeInRange(v: BValue)
    requires InRange(v)
    ensures InRange(Normalize(v))
    decreases v, 1
  {
    match v {
      case Int(_) =>
      case Bytes(_) =>
      case List(items) => NormalizeItemsInRange(items);
      case Dict(entries) =>
        NormalizeEntriesInRange(entries);
        CollectWorks(NormalizeEntries(entries));
        EntriesInRangeAll(Collect(NormalizeEntries(entries)));
        EntriesInRangeAll(NormalizeEntries(entries));
    }
  }

  lemma {:induction false} EntriesInRangeAll(entries: seq<Entry>)
    ensures EntriesInRange(entries) <==> forall e :: e in entries ==> InRange(e.value)
  {
    if entries != [] {
      EntriesInRangeAll(entries[1..]);
      assert entries == [entries[0]] + entries[1..];
    }
  }

  lemma {:induction false} NormalizeItemsInRange(items: seq<BValue>)
    requires ItemsInRange(items)
    ensures ItemsInRange(NormalizeItems(items))
    decreases items, 0
  {
    if items != [] {
      NormalizeInRange(items[0]);
      NormalizeItemsInRange(items[1..]);
      assert NormalizeItems(items)[1..] == NormalizeItems(items[1..]);
    }
  }

  lemma {:induction false} NormalizeEntriesInRange(entries: seq<Entry>)
    requires EntriesInRange(entries)
    ensures EntriesInRange(NormalizeEntries(entries))
    decreases entries, 0
  {
    if entries != [] {
      NormalizeInRange(entries[0].value);
      NormalizeEntriesInRange(entries[1..]);
      assert NormalizeEntries(entries)[1..] == NormalizeEntries(entries[1..]);
    }
  }

  // ---------- The top dictionary with spans ----------

  datatype Spanned = Spanned(value: BValue, start: nat, end: nat)

  function CollectSpans(entries: seq<DictEntry>): map<seq<u8>, Spanned> {
    if entries == [] then map[]
    else
      var e := entries[|entries| - 1];
      CollectSpans(entries[..|entries| - 1])[e.key := Spanned(Normalize(e.value), e.start, e.end)]
  }

  function DecodeTopDict(input: seq<u8>): Result<(map<seq<u8>, Spanned>, nat), BencodeError> {
    if input == [] then Err(UnexpectedEof)
    else if input[0] != CHAR_D then Err(UnknownType(0))
    else
      var (entries, end) :- ParseEntries(input, 1, 1);
      Ok((CollectSpans(entries), end))
  }

  lemma {:induction false} SpansParse(input: seq<u8>, cur: nat, depth: int, e: DictEntry)
    requires cur <= |input| && ParseEntries(input, cur, depth).Ok? && e in ParseEntries(input, cur, depth).value.0
    ensures e.start < e.end <= |input| && ParseValue(input, e.start, depth) == Ok((e.value, e.end))
    decreases |input| - cur
  {
    var (key, start) := ParseBytes(input, cur).value;
    var (value, next) := ParseValue(input, start, depth).value;
    if e != DictEntry(key, value, start, next) {
      SpansParse(input, next, depth, e);
    }
  }

  lemma {:induction false} SpansOf(entries: seq<DictEntry>, key: seq<u8>)
    requires key in CollectSpans(entries)
    ensures exists e :: e in entries && CollectSpans(entries)[key] == Spanned(Normalize(e.value), e.start, e.end)
  {
    var last := |entries| - 1;
    if entries[last].key == key {
      assert entries[last] in entries;
    } else {
      SpansOf(entries[..last], key);
    }
  }

  lemma PartDecodes(input: seq<u8>, e: DictEntry)
    requires e.start < e.end <= |input| && ParseValue(input, e.start, 1) == Ok((e.value, e.end))
    ensures Decode(input[e.start..e.end]) == Ok((Normalize(e.value), e.end - e.start))
  {
    AtItself(input[e.start..e.end]);
    ParseIsLocal(input, e.start, 1, input[e.start..e.end], 0, 0);
  }

  lemma AtItself(s: seq<u8>)
    ensures At(s, 0, s)
  {
    AtSlice(s, 0, s);
    assert s[0..|s|] == s;
  }

  // The bytes of each value of the top dictionary decode to it by themselves.
  lemma SpanDecodes(input: seq<u8>, key: seq<u8>)
    requires DecodeTopDict(input).Ok? && key in DecodeTopDict(input).value.0
    ensures var s := DecodeTopDict(input).value.0[key];
            s.start < s.end <= |input| && Decode(input[s.start..s.end]) == Ok((s.value, s.end - s.start))
  {
    var e := EntryOfSpan(input, key);
    SpansParse(input, 1, 1, e);
    PartDecodes(input, e);
  }

  lemma EntryOfSpan(input: seq<u8>, key: seq<u8>) returns (e: DictEntry)
    requires DecodeTopDict(input).Ok? && key in DecodeTopDict(input).value.0
    ensures ParseEntries(input, 1, 1).Ok? && e in ParseEntries(input, 1, 1).value.0
    ensures DecodeTopDict(input).value.0[key] == Spanned(Normalize(e.value), e.start, e.end)
  {
    var entries := ParseEntries(input, 1, 1).value.0;
    SpansOf(entries, key);
    e :| e in entries && CollectSpans(entries)[key] == Spanned(Normalize(e.value), e.start, e.end);
  }

  lemma {:induction false} NormalizeDropped(entries: seq<DictEntry>)
    ensures forall i :: 0 <= i < |entries| ==>
              NormalizeEntries(DropSpans(entries))[i] == Entry(entries[i].key, Normalize(entries[i].value))
  {
    if entries != [] {
      NormalizeDropped(entries[1..]);
      assert DropSpans(entries)[1..] == DropSpans(entries[1..]);
    }
  }

  lemma SplitLast<T>(long: seq<T>, short: seq<T>)
    requires |long| == |short| + 1 && forall i :: 0 <= i < |short| ==> long[i] == short[i]
    ensures long == short + [long[|short|]]
  {
  }

  lemma NormalizeLast(entries: seq<DictEntry>)
    requires entries != []
    ensures var last := |entries| - 1;
            NormalizeEntries(DropSpans(entries))
            == NormalizeEntries(DropSpans(entries[..last])) + [Entry(entries[last].key, Normalize(entries[last].value))]
  {
    var last := |entries| - 1;
    NormalizeDropped(entries);
    NormalizeDropped(entries[..last]);
    SplitLast(NormalizeEntries(DropSpans(entries)), NormalizeEntries(DropSpans(entries[..last])));
  }

  lemma CollectLast(m: seq<Entry>, e: Entry, key: seq<u8>)
    ensures Lookup(Collect(m + [e]), key) == if key == e.key then Some(e.value) else Lookup(Collect(m), key)
  {
    assert (m + [e])[..|m|] == m;
    CollectWorks(m);
    InsertWorks(Collect(m), e, key);
  }

  lemma {:induction false} CollectAgrees(entries: seq<DictEntry>, key: seq<u8>)
    ensures Lookup(Collect(NormalizeEntries(DropSpans(entries))), key)
            == if key in CollectSpans(entries) then Some(CollectSpans(entries)[key].value) else None
  {
    if entries != [] {
      var last := |entries| - 1;
      CollectAgrees(entries[..last], key);
      NormalizeLast(entries);
      CollectLast(NormalizeEntries(DropSpans(entries[..last])), Entry(entries[last].key, Normalize(entries[last].value)), key);
    }
  }

  // Both decoders find the same values under the same keys.
  lemma TopDictAgrees(input: seq<u8>, key: seq<u8>)
    requires DecodeTopDict(input).Ok?
    ensures var (m, n) := DecodeTopDict(input).value;
            && Decode(input).Ok? && Decode(input).value.0.Dict? && Decode(input).value.1 == n
            && Lookup(Decode(input).value.0.entries, key) == if key in m then Some(m[key].value) else None
  {
    var (entries, _) := ParseEntries(input, 1, 1).value;
    CollectAgrees(entries, key);
    DictStep(input, 0, 0);
  }
}
