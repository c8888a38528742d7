/** The files of a torrent, laid end to end, are one run of bytes. */
module StorageSpec {
  import opened Bytes

  function Join(parts: seq<seq<u8>>): seq<u8> {
    if parts == [] then [] else Join(parts[..|parts| - 1]) + parts[|parts| - 1]
  }

  // `part` begins at `offset`; the bytes of it that lie in
  // [start, start + |data|) are replaced.
  function Overlay(part: seq<u8>, offset: nat, start: nat, data: seq<u8>): seq<u8> {
    seq(|part|, k requires 0 <= k < |part| =>
      if start <= offset + k < start + |data| then data[offset + k - start] else part[k])
  }

  function Offset(parts: seq<seq<u8>>, i: nat): nat
    requires i <= |parts|
  {
    |Join(parts[..i])|
  }

  lemma OffsetStep(parts: seq<seq<u8>>, i: nat)
    requires i < |parts|
    ensures Offset(parts, i + 1) == Offset(parts, i) + |parts[i]|
    ensures Offset(parts, 0) == 0
  {
    assert parts[..i + 1][..i] == parts[..i];
  }

  lemma {:induction false} JoinAt(parts: seq<seq<u8>>, i: nat)
    requires i < |parts|
    ensures Offset(parts, i) + |parts[i]| <= |Join(parts)|
    ensures Join(parts)[Offset(parts, i)..Offset(parts, i) + |parts[i]|] == parts[i]
  {
    var last := |parts| - 1;
    if i < last {
      JoinAt(parts[..last], i);
      assert parts[..last][..i] == parts[..i];
      var (a, b) := (Offset(parts, i), Offset(parts, i) + |parts[i]|);
      assert Join(parts)[a..b] == Join(parts[..last])[a..b];
    }
  }

  ghost predicate StandsAt(flat: seq<u8>, at: nat, bytes: seq<u8>) {
    at + |bytes| <= |flat| && forall p: nat :: p < |bytes| ==> flat[at + p] == bytes[p]
  }

  lemma JoinPoint(parts: seq<seq<u8>>, i: nat)
    requires i < |parts|
    ensures StandsAt(Join(parts), Offset(parts, i), parts[i])
  {
    JoinAt(parts, i);
    SliceStands(Join(parts), Offset(parts, i), parts[i]);
  }

  lemma SliceStands(flat: seq<u8>, at: nat, bytes: seq<u8>)
    requires at + |bytes| <= |flat| && flat[at..at + |bytes|] == bytes
    ensures StandsAt(flat, at, bytes)
  {
    forall p: nat | p < |bytes| ensures flat[at + p] == bytes[p] {
      assert flat[at..at + |bytes|][p] == flat[at + p];
    }
  }

  function OverlayParts(parts: seq<seq<u8>>, start: nat, data: seq<u8>): (parts': seq<seq<u8>>)
    ensures |parts'| == |parts| && forall i: nat :: i < |parts| ==> |parts'[i]| == |parts[i]|
  {
    seq(|parts|, i requires 0 <= i < |parts| => Overlay(parts[i], Offset(parts, i), start, data))
  }

  lemma OverlayAppend(a: seq<u8>, b: seq<u8>, start: nat, data: seq<u8>)
    ensures Overlay(a + b, 0, start, data) == Overlay(a, 0, start, data) + Overlay(b, |a|, start, data)
  {
  }

  lemma OverlayFront(parts: seq<seq<u8>>, n: nat, start: nat, data: seq<u8>)
    requires n <= |parts|
    ensures OverlayParts(parts, start, data)[..n] == OverlayParts(parts[..n], start, data)
  {
    forall i: nat | i < n ensures OverlayParts(parts, start, data)[i] == OverlayParts(parts[..n], start, data)[i] {
      assert parts[..n][..i] == parts[..i];
    }
  }

  // Replacing bytes file by file replaces them in the whole.
  lemma {:induction false} JoinOverlay(parts: seq<seq<u8>>, start: nat, data: seq<u8>)
    ensures Join(OverlayParts(parts, start, data)) == Overlay(Join(parts), 0, start, data)
  {
    if parts != [] {
      var last := |parts| - 1;
      var parts' := OverlayParts(parts, start, data);
      OverlayFront(parts, last, start, data);
      JoinOverlay(parts[..last], start, data);
      OverlayAppend(Join(parts[..last]), parts[last], start, data);
    }
  }

  lemma OverlayIsPatch(flat: seq<u8>, start: nat, data: seq<u8>)
    requires start + |data| <= |flat|
    ensures Overlay(flat, 0, start, data) == Patch(flat, start, data)
  {
  }

  lemma PatchParts(parts: seq<seq<u8>>, start: nat, data: seq<u8>)
    requires start + |data| <= |Join(parts)|
    ensures var parts' := OverlayParts(parts, start, data);
            && Join(parts') == Patch(Join(parts), start, data)
            && forall i: nat :: i <= |parts| ==> Offset(parts', i) == Offset(parts, i)
  {
    JoinOverlay(parts, start, data);
    OverlayIsPatch(Join(parts), start, data);
    SameOffsets(parts, OverlayParts(parts, start, data));
  }

  lemma {:induction false} SameOffsets(parts: seq<seq<u8>>, parts': seq<seq<u8>>)
    requires |parts| == |parts'| && forall i: nat :: i < |parts| ==> |parts'[i]| == |parts[i]|
    ensures forall i: nat :: i <= |parts| ==> Offset(parts', i) == Offset(parts, i)
  {
    forall i: nat | i <= |parts| ensures Offset(parts', i) == Offset(parts, i) {
      SameLength(parts[..i], parts'[..i]);
    }
  }

  lemma {:induction false} SameLength(parts: seq<seq<u8>>, parts': seq<seq<u8>>)
    requires |parts| == |parts'| && forall i: nat :: i < |parts| ==> |parts'[i]| == |parts[i]|
    ensures |Join(parts')| == |Join(parts)|
  {
    if parts != [] {
      SameLength(parts[..|parts| - 1], parts'[..|parts| - 1]);
    }
  }
}

/** The files on the disk, by their paths. Two entries of a torrent may name
    the same path; they are then the same file. */
module FileSpec {
  import opened Wrappers
  import opened Bytes
  import opened StorageSpec

  type Path = seq<string>

  type Disk = map<Path, seq<u8>>

  /** A file as the torrent lists it, and as it is laid out. */
  datatype Entry = Entry(path: Path, length: nat)

  datatype FileSlice = FileSlice(path: Path, offset: nat, length: nat)

  function Least(a: nat, b: nat): nat {
    if a < b then a else b
  }

  function Greatest(a: nat, b: nat): nat {
    if a < b then b else a
  }

  // Cut or extended with zeros.
  function SetLen(bytes: seq<u8>, length: nat): (r: seq<u8>)
    ensures |r| == length
  {
    if length <= |bytes| then bytes[..length] else bytes + Zeros(length - |bytes|)
  }

  // Writing past the end extends the file, with zeros in between.
  function WriteAt(bytes: seq<u8>, pos: nat, data: seq<u8>): seq<u8> {
    Overlay(Reaching(bytes, pos + |data|), 0, pos, data)
  }

  function Reaching(bytes: seq<u8>, end: nat): seq<u8> {
    if |bytes| < end then SetLen(bytes, end) else bytes
  }

  function Total(entries: seq<Entry>): nat {
    if entries == [] then 0 else Total(entries[..|entries| - 1]) + entries[|entries| - 1].length
  }

  // The files end to end, in the order of the torrent.
  function Slices(entries: seq<Entry>): (r: seq<FileSlice>)
    ensures |r| == |entries|
  {
    if entries == [] then []
    else
      var last := |entries| - 1;
      Slices(entries[..last]) + [FileSlice(entries[last].path, Total(entries[..last]), entries[last].length)]
  }

  // Each entry in turn is opened, or created, and brought to its length.
  function Open(disk: Disk, entries: seq<Entry>): Disk {
    if entries == [] then disk
    else
      var e := entries[|entries| - 1];
      var before := Open(disk, entries[..|entries| - 1]);
      before[e.path := SetLen(if e.path in before then before[e.path] else [], e.length)]
  }

  predicate AllOpen(disk: Disk, slices: seq<FileSlice>) {
    forall f :: f in slices ==> f.path in disk
  }

  // The part of [start, start + |data|) that falls into the file is written.
  function PutSlice(disk: Disk, f: FileSlice, start: nat, data: seq<u8>): Disk
    requires f.path in disk
  {
    disk[f.path := PutPart(disk[f.path], f, start, data)]
  }

  function PutPart(bytes: seq<u8>, f: FileSlice, start: nat, data: seq<u8>): seq<u8> {
    var from := Greatest(start, f.offset);
    var to := Least(start + |data|, f.offset + f.length);
    if from >= to then bytes
    else
      var all := Reaching(bytes, to - f.offset);
      seq(|all|, k requires 0 <= k < |all| => if from <= f.offset + k < to then data[f.offset + k - start] else all[k])
  }

  function Put(disk: Disk, slices: seq<FileSlice>, start: nat, data: seq<u8>): (r: Disk)
    requires AllOpen(disk, slices)
    ensures r.Keys == disk.Keys
  {
    if slices == [] then disk
    else PutSlice(Put(disk, slices[..|slices| - 1], start, data), slices[|slices| - 1], start, data)
  }

  // The part of the output that the file holds is filled in; a file that is
  // too short is an error.
  function FillSlice(disk: Disk, f: FileSlice, start: nat, out: seq<u8>): (r: Option<seq<u8>>)
    requires f.path in disk
    ensures r.Some? ==> |r.value| == |out|
  {
    FillPart(disk[f.path], f, start, out)
  }

  function FillPart(bytes: seq<u8>, f: FileSlice, start: nat, out: seq<u8>): (r: Option<seq<u8>>)
    ensures r.Some? ==> |r.value| == |out|
  {
    var from := Greatest(start, f.offset);
    var to := Least(start + |out|, f.offset + f.length);
    if from >= to then Some(out)
    else if |bytes| < to - f.offset then None
    else Some(seq(|out|, k requires 0 <= k < |out| => if from <= start + k < to then bytes[start + k - f.offset] else out[k]))
  }

  function Get(disk: Disk, slices: seq<FileSlice>, start: nat, length: nat): (r: Option<seq<u8>>)
    requires AllOpen(disk, slices)
    ensures r.Some? ==> |r.value| == length
  {
    if slices == [] then Some(Zeros(length))
    else
      var r := Get(disk, slices[..|slices| - 1], start, length);
      if r.None? then None else FillSlice(disk, slices[|slices| - 1], start, r.value)
  }

  // ---------- The files as one run of bytes ----------

  // Every file that an entry needs has the length of the entry.
  predicate Full(disk: Disk, slices: seq<FileSlice>) {
    forall f :: f in slices ==> f.path in disk && (f.length == 0 || |disk[f.path]| == f.length)
  }

  function Content(disk: Disk, f: FileSlice): seq<u8>
    requires f.path in disk
  {
    if f.length == 0 then [] else disk[f.path]
  }

  function Parts(disk: Disk, slices: seq<FileSlice>): (r: seq<seq<u8>>)
    requires Full(disk, slices)
    ensures |r| == |slices|
  {
    seq(|slices|, i requires 0 <= i < |slices| => Content(disk, slices[i]))
  }

  ghost function Flat(disk: Disk, slices: seq<FileSlice>): seq<u8>
    requires Full(disk, slices)
  {
    Join(Parts(disk, slices))
  }

  // An entry that has a path in common with a later one is empty. (The later
  // one sets the length of the file.)
  ghost predicate Separate(entries: seq<Entry>) {
    forall i, j :: 0 <= i < j < |entries| && entries[i].path == entries[j].path ==> entries[i].length == 0
  }
}

/** When the files behave as one run of bytes. */
module FileTheorems {
  import opened Wrappers
  import opened Bytes
  import opened StorageSpec
  import opened FileSpec

  lemma {:induction false} SlicesAt(entries: seq<Entry>, i: nat)
    requires i < |entries|
    ensures Slices(entries)[i] == FileSlice(entries[i].path, Total(entries[..i]), entries[i].length)
  {
    var last := |entries| - 1;
    if i < last {
      SlicesAt(entries[..last], i);
      assert entries[..last][..i] == entries[..i];
    }
  }

  lemma {:induction false} TotalGrows(entries: seq<Entry>, i: nat, j: nat)
    requires i < j <= |entries|
    ensures Total(entries[..i]) + entries[i].length <= Total(entries[..j])
    decreases j
  {
    assert entries[..j][..j - 1] == entries[..j - 1];
    if i < j - 1 {
      TotalGrows(entries, i, j - 1);
    }
  }

  lemma {:induction false} AllOpened(disk: Disk, entries: seq<Entry>)
    ensures AllOpen(Open(disk, entries), Slices(entries))
    ensures disk.Keys <= Open(disk, entries).Keys
  {
    if entries != [] {
      AllOpened(disk, entries[..|entries| - 1]);
    }
  }

  // The last entry with a path decides about the length of the file.
  lemma {:induction false} LastDecides(disk: Disk, entries: seq<Entry>, i: nat)
    requires i < |entries| && forall j :: i < j < |entries| ==> entries[j].path != entries[i].path
    ensures entries[i].path in Open(disk, entries) && |Open(disk, entries)[entries[i].path]| == entries[i].length
  {
    var last := |entries| - 1;
    var before, e := Open(disk, entries[..last]), entries[last];
    var bytes := SetLen(if e.path in before then before[e.path] else [], e.length);
    assert Open(disk, entries) == before[e.path := bytes];
    if i < last {
      LastDecides(disk, entries[..last], i);
    }
  }

  lemma {:induction false} LastWith(entries: seq<Entry>, i: nat) returns (l: nat)
    requires i < |entries|
    ensures i <= l < |entries| && entries[l].path == entries[i].path
    ensures forall j :: l < j < |entries| ==> entries[j].path != entries[i].path
  {
    var last := |entries| - 1;
    if entries[last].path == entries[i].path {
      l := last;
    } else {
      l := LastWith(entries[..last], i);
    }
  }

  // Where the parts of the run begin is where the slices are placed.
  lemma {:induction false} OffsetsAgree(disk: Disk, entries: seq<Entry>, i: nat)
    requires i <= |entries| && Full(disk, Slices(entries))
    ensures Offset(Parts(disk, Slices(entries)), i) == Total(entries[..i])
  {
    var parts := Parts(disk, Slices(entries));
    if i == 0 {
      assert parts[..0] == [];
    } else {
      OffsetsAgree(disk, entries, i - 1);
      OffsetStep(parts, i - 1);
      SlicesAt(entries, i - 1);
      assert Slices(entries)[i - 1] in Slices(entries);
      assert entries[..i][..i - 1] == entries[..i - 1];
    }
  }

  lemma FlatLength(disk: Disk, entries: seq<Entry>)
    requires Full(disk, Slices(entries))
    ensures |Flat(disk, Slices(entries))| == Total(entries)
  {
    var parts := Parts(disk, Slices(entries));
    OffsetsAgree(disk, entries, |entries|);
    assert parts[..|parts|] == parts && entries[..|entries|] == entries;
  }

  // ---------- Writing ----------

  lemma PutIsOverlay(disk: Disk, f: FileSlice, start: nat, data: seq<u8>)
    requires f.path in disk && |disk[f.path]| == f.length
    ensures PutSlice(disk, f, start, data) == disk[f.path := Overlay(disk[f.path], f.offset, start, data)]
  {
    PartIsOverlay(disk[f.path], f, start, data);
  }

  lemma PartIsOverlay(bytes: seq<u8>, f: FileSlice, start: nat, data: seq<u8>)
    requires |bytes| == f.length
    ensures PutPart(bytes, f, start, data) == Overlay(bytes, f.offset, start, data)
  {
  }

  // The first k files are written.
  ghost predicate WrittenUpTo(disk: Disk, now: Disk, slices: seq<FileSlice>, k: nat, start: nat, data: seq<u8>)
    requires Full(disk, slices)
  {
    && now.Keys == disk.Keys
    && AllOpen(disk, slices)
    && forall i: nat :: i < |slices| ==> Content(now, slices[i]) == WrittenPart(disk, slices[i], i < k, start, data)
  }

  ghost function WrittenPart(disk: Disk, f: FileSlice, done: bool, start: nat, data: seq<u8>): seq<u8>
    requires f.path in disk
  {
    if done then Overlay(Content(disk, f), f.offset, start, data) else Content(disk, f)
  }

  // Of entries that share a file, the earlier are empty.
  ghost predicate Apart(slices: seq<FileSlice>) {
    forall i, j :: 0 <= i < j < |slices| && slices[i].path == slices[j].path ==> slices[i].length == 0
  }

  lemma PutOne(disk: Disk, now: Disk, slices: seq<FileSlice>, k: nat, start: nat, data: seq<u8>)
    requires Full(disk, slices) && Apart(slices) && k < |slices| && WrittenUpTo(disk, now, slices, k, start, data)
    ensures WrittenUpTo(disk, PutSlice(now, slices[k], start, data), slices, k + 1, start, data)
  {
    var f := slices[k];
    assert f in slices;
    var next := PutSlice(now, f, start, data);
    if f.length > 0 {
      PutIsOverlay(now, f, start, data);
    }
    forall i: nat | i < |slices| ensures Content(next, slices[i]) == WrittenPart(disk, slices[i], i < k + 1, start, data) {
      if i == k {
        assert Content(now, f) == Content(disk, f);
      } else if slices[i].path == f.path {
        assert slices[i].length == 0 || f.length == 0;
      }
    }
  }

  lemma {:induction false} PutSome(disk: Disk, slices: seq<FileSlice>, k: nat, start: nat, data: seq<u8>)
    requires Full(disk, slices) && Apart(slices) && k <= |slices|
    ensures AllOpen(disk, slices[..k])
    ensures WrittenUpTo(disk, Put(disk, slices[..k], start, data), slices, k, start, data)
  {
    if k > 0 {
      PutSome(disk, slices, k - 1, start, data);
      PutNext(disk, slices, k, start, data);
      PutOne(disk, Put(disk, slices[..k - 1], start, data), slices, k - 1, start, data);
    }
  }

  lemma PutNext(disk: Disk, slices: seq<FileSlice>, k: nat, start: nat, data: seq<u8>)
    requires AllOpen(disk, slices) && 0 < k <= |slices|
    ensures AllOpen(disk, slices[..k]) && AllOpen(disk, slices[..k - 1])
    ensures Put(disk, slices[..k], start, data)
         == PutSlice(Put(disk, slices[..k - 1], start, data), slices[k - 1], start, data)
  {
    assert slices[..k][..k - 1] == slices[..k - 1] && slices[..k][k - 1] == slices[k - 1];
  }

  lemma SlicesApart(entries: seq<Entry>)
    requires Separate(entries)
    ensures Apart(Slices(entries))
  {
    var slices := Slices(entries);
    forall i | 0 <= i < |slices| ensures slices[i].path == entries[i].path && slices[i].length == entries[i].length {
      SlicesAt(entries, i);
    }
  }

  lemma PutParts(disk: Disk, slices: seq<FileSlice>, now: Disk, start: nat, data: seq<u8>)
    requires Full(disk, slices) && WrittenUpTo(disk, now, slices, |slices|, start, data)
    ensures Full(now, slices) && |Parts(now, slices)| == |slices|
    ensures forall i: nat :: i < |slices| ==> Parts(now, slices)[i] == Overlay(Parts(disk, slices)[i], slices[i].offset, start, data)
  {
    forall f | f in slices ensures f.path in now && (f.length == 0 || |now[f.path]| == f.length) {
      var i: nat :| i < |slices| && slices[i] == f;
      assert Content(now, slices[i]) == WrittenPart(disk, slices[i], true, start, data);
    }
  }

  // Where no two files are one, a write replaces [start, start + |data|) of the
  // whole and nothing else.
  lemma PutIsPatch(disk: Disk, entries: seq<Entry>, start: nat, data: seq<u8>)
    requires Separate(entries) && Full(disk, Slices(entries)) && start + |data| <= Total(entries)
    ensures var now := Put(disk, Slices(entries), start, data);
            && Full(now, Slices(entries))
            && |Flat(disk, Slices(entries))| == Total(entries)
            && Flat(now, Slices(entries)) == Patch(Flat(disk, Slices(entries)), start, data)
  {
    var slices := Slices(entries);
    SlicesApart(entries);
    PutSome(disk, slices, |slices|, start, data);
    assert slices[..|slices|] == slices;
    var now := Put(disk, slices, start, data);
    PutParts(disk, slices, now, start, data);
    FlatLength(disk, entries);
    var parts := Parts(disk, slices);
    assert Parts(now, slices) == OverlayParts(parts, start, data) by {
      forall i: nat | i < |slices| ensures Parts(now, slices)[i] == OverlayParts(parts, start, data)[i] {
        OffsetsAgree(disk, entries, i);
        SlicesAt(entries, i);
      }
    }
    PatchParts(parts, start, data);
  }

  lemma OpenIsFull(disk: Disk, entries: seq<Entry>)
    requires Separate(entries)
    ensures Full(Open(disk, entries), Slices(entries))
  {
    AllOpened(disk, entries);
    forall f | f in Slices(entries) && f.length > 0 ensures |Open(disk, entries)[f.path]| == f.length {
      var i: nat :| i < |entries| && Slices(entries)[i] == f;
      SlicesAt(entries, i);
      LastDecides(disk, entries, i);
    }
  }

  // ---------- Reading ----------

  // What is filled in so far: the bytes before `to`, zeros after it.
  ghost predicate FilledUpTo(flat: seq<u8>, start: nat, to: nat, out: seq<u8>)
    requires to <= |flat|
  {
    forall k :: 0 <= k < |out| ==> out[k] == if start + k < to then flat[start + k] else 0
  }

  lemma FillOne(flat: seq<u8>, bytes: seq<u8>, f: FileSlice, start: nat, out: seq<u8>)
    requires |bytes| == f.length && StandsAt(flat, f.offset, bytes) && FilledUpTo(flat, start, f.offset, out)
    ensures FillPart(bytes, f, start, out).Some?
    ensures FilledUpTo(flat, start, f.offset + f.length, FillPart(bytes, f, start, out).value)
  {
    var r := FillPart(bytes, f, start, out).value;
    forall k | 0 <= k < |out| ensures r[k] == if start + k < f.offset + f.length then flat[start + k] else 0 {
      if f.offset <= start + k < f.offset + f.length {
        var p := start + k - f.offset;
        assert flat[f.offset + p] == bytes[p];
      }
    }
  }

  lemma SliceOfEntry(disk: Disk, entries: seq<Entry>, k: nat)
    requires Full(disk, Slices(entries)) && k < |entries|
    ensures Slices(entries)[k] == FileSlice(entries[k].path, Total(entries[..k]), entries[k].length)
    ensures entries[k].path in disk && (entries[k].length == 0 || |disk[entries[k].path]| == entries[k].length)
    ensures Total(entries[..k + 1]) == Total(entries[..k]) + entries[k].length
  {
    SlicesAt(entries, k);
    assert Slices(entries)[k] in Slices(entries);
    assert entries[..k + 1][..k] == entries[..k];
  }

  // File k stands in the whole where the entries before it end.
  lemma {:induction false} PartAt(disk: Disk, entries: seq<Entry>, k: nat)
    requires Full(disk, Slices(entries)) && k < |entries| && entries[k].path in disk
    requires |disk[entries[k].path]| == entries[k].length
    ensures StandsAt(Flat(disk, Slices(entries)), Total(entries[..k]), disk[entries[k].path])
  {
    SliceOfEntry(disk, entries, k);
    OffsetsAgree(disk, entries, k);
    var parts := Parts(disk, Slices(entries));
    assert parts[k] == disk[entries[k].path];
    JoinPoint(parts, k);
  }

  lemma FillEntry(disk: Disk, entries: seq<Entry>, k: nat, start: nat, out: seq<u8>)
    requires Full(disk, Slices(entries)) && k < |entries| && Slices(entries)[k].path in disk
    requires Total(entries[..k]) <= |Flat(disk, Slices(entries))|
    requires FilledUpTo(Flat(disk, Slices(entries)), start, Total(entries[..k]), out)
    ensures var r := FillSlice(disk, Slices(entries)[k], start, out);
            && Total(entries[..k + 1]) <= |Flat(disk, Slices(entries))|
            && r.Some? && FilledUpTo(Flat(disk, Slices(entries)), start, Total(entries[..k + 1]), r.value)
  {
    var f := Slices(entries)[k];
    SliceOfEntry(disk, entries, k);
    if f.length > 0 {
      PartAt(disk, entries, k);
      FillOne(Flat(disk, Slices(entries)), disk[f.path], f, start, out);
    } else {
      FillNone(disk[f.path], f, start, out);
    }
  }

  lemma FillNone(bytes: seq<u8>, f: FileSlice, start: nat, out: seq<u8>)
    requires f.length == 0
    ensures FillPart(bytes, f, start, out) == Some(out)
  {
  }

  lemma GetStep(disk: Disk, slices: seq<FileSlice>, k: nat, start: nat, length: nat)
    requires AllOpen(disk, slices) && k < |slices|
    ensures AllOpen(disk, slices[..k]) && AllOpen(disk, slices[..k + 1]) && slices[k].path in disk
    ensures Get(disk, slices[..k + 1], start, length) ==
            match Get(disk, slices[..k], start, length)
            case None => None
            case Some(out) => FillSlice(disk, slices[k], start, out)
  {
    assert slices[k] in slices && slices[..k + 1][..k] == slices[..k];
  }

  lemma {:induction false} GetSome(disk: Disk, entries: seq<Entry>, k: nat, start: nat, length: nat)
    requires Full(disk, Slices(entries)) && k <= |entries|
    ensures AllOpen(disk, Slices(entries)[..k]) && Total(entries[..k]) <= |Flat(disk, Slices(entries))|
    ensures var r := Get(disk, Slices(entries)[..k], start, length);
            r.Some? && FilledUpTo(Flat(disk, Slices(entries)), start, Total(entries[..k]), r.value)
  {
    if k > 0 {
      GetSome(disk, entries, k - 1, start, length);
      GetStep(disk, Slices(entries), k - 1, start, length);
      FillEntry(disk, entries, k - 1, start, Get(disk, Slices(entries)[..k - 1], start, length).value);
    }
  }

  // Reading gives the slice of the whole, and zeros past its end.
  lemma GetIsSlice(disk: Disk, entries: seq<Entry>, start: nat, length: nat)
    requires Full(disk, Slices(entries))
    ensures AllOpen(disk, Slices(entries)) && |Flat(disk, Slices(entries))| == Total(entries)
    ensures var r := Get(disk, Slices(entries), start, length);
            && r.Some? && FilledUpTo(Flat(disk, Slices(entries)), start, Total(entries), r.value)
            && (start + length <= Total(entries) ==> r.value == Flat(disk, Slices(entries))[start..start + length])
  {
    FlatLength(disk, entries);
    GetSome(disk, entries, |entries|, start, length);
    assert Slices(entries)[..|entries|] == Slices(entries) && entries[..|entries|] == entries;
    FilledInside(Flat(disk, Slices(entries)), start, Get(disk, Slices(entries), start, length).value);
  }

  lemma FilledInside(flat: seq<u8>, start: nat, out: seq<u8>)
    requires FilledUpTo(flat, start, |flat|, out)
    ensures start + |out| <= |flat| ==> out == flat[start..start + |out|]
  {
  }

  // ---------- Exactly when ----------

  // Opened on a disk of any contents, the files are one run of bytes, in which
  // this write replaces its range and nothing else.
  ghost predicate WriteIsPatch(disk: Disk, entries: seq<Entry>, start: nat, data: seq<u8>) {
    var d, slices := Open(disk, entries), Slices(entries);
    && Full(d, slices)
    && Full(Put(d, slices, start, data), slices)
    && |Flat(d, slices)| == Total(entries)
    && (start + |data| <= Total(entries) ==> Flat(Put(d, slices, start, data), slices) == Patch(Flat(d, slices), start, data))
  }

  lemma SeparateIsPatch(disk: Disk, entries: seq<Entry>, start: nat, data: seq<u8>)
    requires Separate(entries) && start + |data| <= Total(entries)
    ensures WriteIsPatch(disk, entries, start, data)
  {
    OpenIsFull(disk, entries);
    PutIsPatch(Open(disk, entries), entries, start, data);
  }

  // Two entries of one file: the write to the first byte of the one changes the
  // first byte of the other.
  lemma SharedFile(disk: Disk, entries: seq<Entry>, i: nat, j: nat) returns (data: seq<u8>)
    requires i < j < |entries| && entries[i].path == entries[j].path && entries[i].length > 0
    ensures Total(entries[..i]) + |data| <= Total(entries) && !WriteIsPatch(disk, entries, Total(entries[..i]), data)
  {
    var d, slices := Open(disk, entries), Slices(entries);
    var l := LastWith(entries, j);
    LastDecides(disk, entries, l);
    SlicesAt(entries, i);
    SlicesAt(entries, l);
    assert slices[i] in slices && slices[l] in slices;
    TotalGrows(entries, i, |entries|);
    TotalGrows(entries, i, l);
    assert entries[..|entries|] == entries;
    var start, other := Total(entries[..i]), Total(entries[..l]);
    if !Full(d, slices) {
      data := [];
    } else {
      data := [if d[entries[i].path][0] == 0 then 1 else 0];
      var now := Put(d, slices, start, data);
      SameFirstByte(d, entries, i, l);
      if Full(now, slices) {
        SameFirstByte(now, entries, i, l);
      }
      FlatLength(d, entries);
      OneByteOnly(Flat(d, slices), start, data, other);
    }
  }

  lemma OneByteOnly(flat: seq<u8>, start: nat, data: seq<u8>, other: nat)
    requires start < other < |flat| && |data| == 1 && data[0] != flat[start] && flat[start] == flat[other]
    ensures Patch(flat, start, data)[start] != Patch(flat, start, data)[other]
  {
  }

  lemma {:induction false} SameFirstByte(disk: Disk, entries: seq<Entry>, i: nat, l: nat)
    requires Full(disk, Slices(entries)) && i < l < |entries|
    requires entries[i].path == entries[l].path && entries[i].length > 0 && entries[l].length > 0
    ensures Total(entries[..i]) < Total(entries[..l]) < |Flat(disk, Slices(entries))|
    ensures entries[i].path in disk && disk[entries[i].path] != []
    ensures Flat(disk, Slices(entries))[Total(entries[..i])] == Flat(disk, Slices(entries))[Total(entries[..l])]
            == disk[entries[i].path][0]
  {
    TotalGrows(entries, i, l);
    SliceOfEntry(disk, entries, i);
    SliceOfEntry(disk, entries, l);
    PartAt(disk, entries, i);
    PartAt(disk, entries, l);
    var flat := Flat(disk, Slices(entries));
    assert flat[Total(entries[..i]) + 0] == disk[entries[i].path][0] == flat[Total(entries[..l]) + 0];
  }

  // So two entries of one byte with one path are not two bytes.
  lemma OnePathTwice(disk: Disk, path: Path) returns (data: seq<u8>)
    ensures var entries := [Entry(path, 1), Entry(path, 1)];
            !Separate(entries) && |data| <= Total(entries) && !WriteIsPatch(disk, entries, 0, data)
  {
    var entries := [Entry(path, 1), Entry(path, 1)];
    assert entries[..0] == [];
    data := SharedFile(disk, entries, 0, 1);
  }

  // Every write to the opened files replaces its range and nothing else, if and
  // only if no entry but an empty one has its path in common with a later one.
  lemma PatchIffSeparate(entries: seq<Entry>)
    ensures Separate(entries) <==>
            forall disk: Disk, start: nat, data :: start + |data| <= Total(entries) ==> WriteIsPatch(disk, entries, start, data)
  {
    if Separate(entries) {
      forall disk: Disk, start: nat, data | start + |data| <= Total(entries) ensures WriteIsPatch(disk, entries, start, data) {
        SeparateIsPatch(disk, entries, start, data);
      }
    } else {
      var i: nat, j: nat :| i < j < |entries| && entries[i].path == entries[j].path && entries[i].length > 0;
      var data := SharedFile(map[], entries, i, j);
      assert !WriteIsPatch(map[], entries, Total(entries[..i]), data);
    }
  }
}

/** Reading and writing pieces in the files of a torrent. */
module Storage {
  import opened Wrappers
  import opened Bytes
  import opened FileSpec
  import opened FileTheorems

  datatype IoError = InvalidInput | UnexpectedEof

  /** The disk, which every open storage works on. */
  class FileSystem {
    var files: Disk

    constructor (files: Disk)
      ensures this.files == files
    {
      this.files := files;
    }

    // Opens the file, or creates it, and sets its length.
    method CreatePreallocated(path: Path, length: nat)
      modifies this
      ensures files == old(files)[path := SetLen(if path in old(files) then old(files)[path] else [], length)]
    {
      files := files[path := SetLen(if path in files then files[path] else [], length)];
    }

    // Seek and write.
    method WriteAll(path: Path, pos: nat, data: seq<u8>)
      requires path in files
      modifies this
      ensures files == old(files)[path := WriteAt(old(files)[path], pos, data)]
    {
      files := files[path := WriteAt(files[path], pos, data)];
    }

    // Fills out[from..to], or fails at the end of the file.
    method ReadExactAt(path: Path, pos: nat, out: array<u8>, from: nat, to: nat) returns (ok: bool)
      requires path in files && from <= to <= out.Length
      modifies out
      ensures ok <==> pos + (to - from) <= |files[path]|
      ensures ok ==> forall k :: 0 <= k < out.Length ==> out[k] == if from <= k < to then files[path][pos + k - from] else old(out[k])
      ensures !ok ==> out[..] == old(out[..])
    {
      if |files[path]| < pos + (to - from) {
        return false;
      }
      for i := from to to
        invariant forall k :: 0 <= k < out.Length ==> out[k] == if from <= k < i then files[path][pos + k - from] else old(out[k])
      {
        out[i] := files[path][pos + i - from];
      }
      return true;
    }
  }

  // The bytes written are those of the part.
  lemma WriteIsPart(bytes: seq<u8>, f: FileSlice, start: nat, data: seq<u8>, part: seq<u8>)
    requires part != [] && |part| == Least(start + |data|, f.offset + f.length) - Greatest(start, f.offset)
    requires forall i :: 0 <= i < |part| ==> part[i] == data[Greatest(start, f.offset) - start + i]
    ensures WriteAt(bytes, Greatest(start, f.offset) - f.offset, part) == PutPart(bytes, f, start, data)
  {
  }

  // What the files hold of a range.
  function Found(disk: Disk, slices: seq<FileSlice>, start: nat, length: nat): Result<seq<u8>, IoError>
    requires AllOpen(disk, slices)
  {
    match Get(disk, slices, start, length)
    case Some(data) => Ok(data)
    case None => Err(UnexpectedEof)
  }

  class DiskStorage {
    const fs: FileSystem
    const files: seq<FileSlice>
    const pieceLength: nat
    const totalLength: nat
    ghost const entries: seq<Entry>

    // The files are laid end to end and open.
    ghost predicate Valid()
      reads this, fs
    {
      && files == Slices(entries) && totalLength == Total(entries)
      && AllOpen(fs.files, files)
    }

    // They are one run of bytes.
    ghost predicate Whole()
      reads this, fs
    {
      Separate(entries) && Full(fs.files, files)
    }

    ghost function Flat(): (r: seq<u8>)
      reads this, fs
      requires Valid() && Whole()
      ensures |r| == totalLength
    {
      FlatLength(fs.files, entries);
      FileSpec.Flat(fs.files, files)
    }

    function Start(index: nat): nat {
      index * pieceLength
    }

    // What is left of the torrent where piece `index` begins, at most one piece.
    function PieceLen(index: nat): (len: nat)
      ensures len <= pieceLength && (0 < len ==> Start(index) + len <= totalLength)
    {
      Least(if Start(index) <= totalLength then totalLength - Start(index) else 0, pieceLength)
    }

    constructor (fs: FileSystem, entries: seq<Entry>, pieceLen: nat)
      modifies fs
      ensures Valid() && this.fs == fs && this.entries == entries && pieceLength == pieceLen
      ensures fs.files == Open(old(fs.files), entries)
      ensures Separate(entries) ==> Whole()
    {
      var slices, offset := [], 0;
      for i := 0 to |entries|
        invariant slices == Slices(entries[..i]) && offset == Total(entries[..i])
        invariant fs.files == Open(old(fs.files), entries[..i])
      {
        assert entries[..i + 1][..i] == entries[..i];
        fs.CreatePreallocated(entries[i].path, entries[i].length);
        slices := slices + [FileSlice(entries[i].path, offset, entries[i].length)];
        offset := offset + entries[i].length;
      }
      assert entries[..|entries|] == entries;
      AllOpened(old(fs.files), entries);
      this.fs, files, this.entries, pieceLength, totalLength := fs, slices, entries, pieceLen, offset;
      new;
      if Separate(entries) {
        OpenIsFull(old(fs.files), entries);
      }
    }

    // The part of the range that falls into the file.
    method WriteSlice(f: FileSlice, start: nat, data: seq<u8>)
      requires f.path in fs.files
      modifies fs
      ensures fs.files == PutSlice(old(fs.files), f, start, data)
    {
      var from := Greatest(start, f.offset);
      var to := Least(start + |data|, f.offset + f.length);
      if from < to {
        var part := data[from - start..to - start];
        WriteIsPart(fs.files[f.path], f, start, data, part);
        fs.WriteAll(f.path, from - f.offset, part);
      } else {
        assert fs.files[f.path := fs.files[f.path]] == fs.files;
      }
    }

    method ReadSlice(f: FileSlice, start: nat, out: array<u8>) returns (ok: bool)
      requires f.path in fs.files
      modifies out
      ensures match FillSlice(fs.files, f, start, old(out[..]))
              case Some(filled) => ok && out[..] == filled
              case None => !ok
    {
      var from := Greatest(start, f.offset);
      var to := Least(start + out.Length, f.offset + f.length);
      if from >= to {
        return true;
      }
      ok := fs.ReadExactAt(f.path, from - f.offset, out, from - start, to - start);
    }

    // Writes a range of the files, or nothing at all. Where the files are one
    // run of bytes, exactly that range of it changes.
    method WritePiece(index: nat, data: seq<u8>) returns (r: Result<(), IoError>)
      requires Valid()
      modifies fs
      ensures Valid() && (r.Ok? <==> Start(index) + |data| <= totalLength)
      ensures fs.files == if r.Ok? then Put(old(fs.files), files, Start(index), data) else old(fs.files)
      ensures old(Whole()) ==> Whole() && Flat() == if r.Ok? then Patch(old(Flat()), Start(index), data) else old(Flat())
    {
      var start := Start(index);
      if start + |data| > totalLength {
        return Err(InvalidInput);
      }
      for i := 0 to |files|
        invariant AllOpen(fs.files, files) && fs.files == Put(old(fs.files), files[..i], start, data)
      {
        assert files[i] in files && files[..i + 1][..i] == files[..i];
        WriteSlice(files[i], start, data);
      }
      assert files[..|files|] == files;
      if old(Whole()) {
        PutIsPatch(old(fs.files), entries, start, data);
      }
      r := Ok(());
    }

    // The bytes of the run from `start` on, zeros past its end.
    ghost predicate IsRange(bytes: seq<u8>, start: nat, len: nat)
      reads this, fs
      requires Valid() && Whole()
    {
      && |bytes| == len
      && (forall k :: 0 <= k < len ==> bytes[k] == if start + k < totalLength then Flat()[start + k] else 0)
      && (start + len <= totalLength ==> bytes == Flat()[start..start + len])
    }

    // Fails only at a file shorter than its entry.
    method ReadRange(start: nat, len: nat) returns (r: Result<seq<u8>, IoError>)
      requires Valid()
      ensures r == Found(fs.files, files, start, len)
      ensures Whole() ==> r.Ok? && IsRange(r.value, start, len)
    {
      var out := new u8[len](_ => 0);
      assert out[..] == Zeros(len);
      var ok := FillFrom(start, out);
      if Whole() {
        GetIsSlice(fs.files, entries, start, len);
      }
      r := if ok then Ok(out[..]) else Err(UnexpectedEof);
    }

    method FillFrom(start: nat, out: array<u8>) returns (ok: bool)
      requires Valid() && out[..] == Zeros(out.Length)
      modifies out
      ensures match Get(fs.files, files, start, out.Length)
              case Some(data) => ok && out[..] == data
              case None => !ok
    {
      for i := 0 to |files|
        invariant AllOpen(fs.files, files[..i]) && Get(fs.files, files[..i], start, out.Length) == Some(out[..])
      {
        GetStep(fs.files, files, i, start, out.Length);
        ok := ReadSlice(files[i], start, out);
        if !ok {
          EofStays(fs.files, files, i + 1, start, out.Length);
          return;
        }
      }
      assert files[..|files|] == files;
      ok := true;
    }

    method ReadPiece(index: nat) returns (r: Result<seq<u8>, IoError>)
      requires Valid()
      ensures r == Found(fs.files, files, Start(index), PieceLen(index))
      ensures Whole() ==> r.Ok? && IsRange(r.value, Start(index), PieceLen(index))
    {
      r := ReadRange(Start(index), PieceLen(index));
    }

    method ReadBlock(index: nat, begin: nat, length: nat) returns (r: Result<seq<u8>, IoError>)
      requires Valid()
      ensures length == 0 || begin + length > PieceLen(index) ==> r == Err(InvalidInput)
      ensures 0 < length && begin + length <= PieceLen(index) ==> r == Found(fs.files, files, Start(index) + begin, length)
      ensures Whole() && 0 < length && begin + length <= PieceLen(index) ==>
                r.Ok? && IsRange(r.value, Start(index) + begin, length)
    {
      if length == 0 || begin + length > PieceLen(index) {
        return Err(InvalidInput);
      }
      r := ReadRange(Start(index) + begin, length);
    }
  }

  lemma {:induction false} EofStays(disk: Disk, slices: seq<FileSlice>, k: nat, start: nat, length: nat)
    requires AllOpen(disk, slices) && k <= |slices| && AllOpen(disk, slices[..k]) && Get(disk, slices[..k], start, length).None?
    ensures Get(disk, slices, start, length).None?
    decreases |slices| - k
  {
    if k < |slices| {
      assert slices[..k + 1][..k] == slices[..k];
      EofStays(disk, slices, k + 1, start, length);
    } else {
      assert slices[..k] == slices;
    }
  }
}
