/** The download core as a whole: the hub, the disk writer that takes its
    commands one by one, and the recheck of what was on disk before. Any of
    them may move at any time; peers may do anything. */
module Session {
  import opened Wrappers
  import opened Bytes
  import opened PieceSpec
  import opened HubSpec
  import opened HubInvariant
  import opened FiniteSets

  datatype WriterEvent =
    | Wrote(index: nat, ok: bool)
    | Read(peer: Peer, index: nat, begin: nat, data: Option<seq<u8>>)

  datatype RecheckEvent = Checked(index: nat, verified: bool) | CheckedAll

  datatype Status = Running | Finished | Failed

  /** `flat` is the bytes of all files end to end. `begun` are the pieces whose
      write has begun, `torn` those whose write failed. */
  datatype Sys = Sys(
    hub: HubState,
    flat: seq<u8>,
    writing: Option<(nat, seq<u8>)>,
    begun: set<nat>,
    torn: set<nat>,
    acks: seq<WriterEvent>,
    checks: map<nat, bool>,
    nextReport: nat,
    announced: bool,
    reports: seq<RecheckEvent>,
    recheckDone: bool,
    completions: nat,
    status: Status)

  datatype Step =
    | PeerConnects(peer: Peer, outbound: bool)
    | PeerBitfield(peer: Peer, bf: Option<set<nat>>)
    | PeerHas(peer: Peer, index: nat)
    | PeerChokes(peer: Peer)
    | PeerUnchokes(peer: Peer)
    | PeerInterest(peer: Peer, interested: bool)
    | PeerRequests(peer: Peer, index: nat, begin: nat, length: nat)
    | PeerBlock(peer: Peer, index: nat, begin: nat, data: seq<u8>)
    | PeerGone(peer: Peer)
    | HubTakesAck
    | HubTakesReport
    | Pause
    | Resume
    | ChokeTick
    | WriterBegins
    | WriterEnds(ok: bool)
    | WriterReads(ok: bool)
    | CheckPiece(index: nat, verified: bool)
    | Report

  ghost predicate Init(t: Torrent, s: Sys) {
    && t.WF()
    && |s.flat| == t.totalLength
    && s == Sys(InitialHub(t), s.flat, None, {}, {}, [], map[], 0, false, [], false, 0, Running)
  }

  function PieceBytes(t: Torrent, flat: seq<u8>, i: nat): (bytes: seq<u8>)
    requires t.WF() && i < |t.pieces| && |flat| == t.totalLength
    ensures |bytes| == t.PieceLen(i)
  {
    SliceOf(flat, t.Start(i), t.PieceLen(i))
  }

  function SliceOf(flat: seq<u8>, start: nat, length: nat): (bytes: seq<u8>)
    requires start + length <= |flat|
    ensures |bytes| == length
  {
    flat[start..start + length]
  }

  predicate Good(t: Torrent, flat: seq<u8>, i: nat)
    requires t.WF() && i < |t.pieces| && |flat| == t.totalLength
  {
    t.sha1(PieceBytes(t, flat, i)) == t.pieces[i]
  }

  // Nothing but the bytes of piece i differs.
  ghost predicate OnlyPiece(t: Torrent, flat: seq<u8>, flat': seq<u8>, i: nat)
    requires t.WF() && i < |t.pieces| && |flat| == t.totalLength
  {
    && |flat'| == |flat|
    && forall k :: 0 <= k < |flat| && !(t.Start(i) <= k < t.Start(i) + t.PieceLen(i)) ==> flat'[k] == flat[k]
  }

  ghost predicate PeerNext(t: Torrent, h: HubState, step: Step, h': HubState)
    requires HubInv(t, h)
  {
    match step
    case PeerConnects(peer, outbound) => (outbound || peer !in h.peers) && h' == Connected(t, h, peer, outbound)
    case PeerBitfield(peer, bf) =>
      && (bf.Some? ==> bf.value <= Below(|t.pieces|))
      && OnBitfield(t, h, peer, bf, h')
    case PeerHas(peer, index) => h' == OnHave(t, h, peer, index)
    case PeerChokes(peer) => h' == OnChoke(h, peer)
    case PeerUnchokes(peer) => OnUnchoke(t, h, peer, h')
    case PeerInterest(peer, interested) => OnInterest(h, peer, interested, h')
    case PeerRequests(peer, index, begin, length) => h' == OnUploadRequest(t, h, peer, index, begin, length)
    case PeerBlock(peer, index, begin, data) => OnBlockEvent(t, h, peer, index, begin, data, h')
    case PeerGone(peer) => h' == OnDisconnected(h, peer)
    case Pause => h' == h.(paused := true)
    case Resume => OnResume(t, h, h')
    case ChokeTick => Rechoked(h, h')
    case _ => false
  }

  // The hub takes the oldest event of the writer.
  ghost predicate AckNext(t: Torrent, seed: bool, s: Sys, s': Sys) {
    && s.acks != []
    && match s.acks[0]
       case Wrote(i, true) =>
         && 0 < s.hub.pendingWrites
         && var h := OnWritten(s.hub, i);
            if AllWritten(t, h) then
              s' == s.(acks := s.acks[1..], completions := s.completions + 1,
                       hub := if seed then h.(phase := Seed) else h,
                       status := if seed then Running else Finished)
            else s' == s.(acks := s.acks[1..], hub := h)
       case Wrote(_, false) => s' == s.(acks := s.acks[1..], status := Failed)
       case Read(peer, i, begin, data) =>
         s' == s.(acks := s.acks[1..], hub := if data.Some? then OnUpload(s.hub, peer, i, begin, data.value) else s.hub)
  }

  // The hub takes the oldest event of the recheck.
  ghost predicate ReportNext(t: Torrent, seed: bool, s: Sys, s': Sys)
    requires HubInv(t, s.hub)
  {
    && s.reports != []
    && match s.reports[0]
       case Checked(i, verified) => s' == s.(reports := s.reports[1..], hub := OnRecheck(s.hub, i, verified))
       case CheckedAll =>
         && OnRecheckDone(t, s.hub, s'.hub)
         && s' == s.(reports := s.reports[1..], hub := s'.hub, recheckDone := true,
                     status := if s'.hub.phase == Seed && !seed then Finished else Running)
  }

  // The writer takes commands in order. While it writes a piece, the bytes of
  // that piece may be anything; a write that fails leaves them so.
  ghost predicate WriterNext(t: Torrent, s: Sys, step: Step, s': Sys)
    requires t.WF() && |s.flat| == t.totalLength
  {
    match step
    case WriterBegins =>
      && s.writing.None? && s.hub.toDisk != [] && s.hub.toDisk[0].WritePiece? && s.hub.toDisk[0].index < |t.pieces|
      && var c := s.hub.toDisk[0];
         && OnlyPiece(t, s.flat, s'.flat, c.index)
         && s' == s.(hub := s.hub.(toDisk := s.hub.toDisk[1..]), writing := Some((c.index, c.data)),
                     begun := s.begun + {c.index}, flat := s'.flat)
    case WriterEnds(ok) =>
      && s.writing.Some? && s.writing.value.0 < |t.pieces| && |s.writing.value.1| == t.PieceLen(s.writing.value.0)
      && var (i, data) := s.writing.value;
         && (if ok then s'.flat == Patch(s.flat, t.Start(i), data) else OnlyPiece(t, s.flat, s'.flat, i))
         && s' == s.(writing := None, acks := s.acks + [Wrote(i, ok)], flat := s'.flat,
                     torn := if ok then s.torn else s.torn + {i})
    case WriterReads(ok) =>
      && s.writing.None? && s.hub.toDisk != [] && s.hub.toDisk[0].ReadBlock? && s.hub.toDisk[0].index < |t.pieces|
      && s.hub.toDisk[0].begin + s.hub.toDisk[0].length <= t.PieceLen(s.hub.toDisk[0].index)
      && var c := s.hub.toDisk[0];
         var from := t.Start(c.index) + c.begin;
         s' == s.(hub := s.hub.(toDisk := s.hub.toDisk[1..]),
                  acks := s.acks + [Read(c.peer, c.index, c.begin, if ok then Some(s.flat[from..from + c.length]) else None)])
    case _ => false
  }

  // Pieces are read in any order and reported in index order. A read of a
  // piece that the writer has begun to write may see anything.
  ghost predicate RecheckNext(t: Torrent, s: Sys, step: Step, s': Sys)
    requires t.WF() && |s.flat| == t.totalLength
  {
    match step
    case CheckPiece(i, verified) =>
      && i < |t.pieces| && i !in s.checks
      && (verified ==> i in s.begun || Good(t, s.flat, i))
      && s' == s.(checks := s.checks[i := verified])
    case Report =>
      && !s.announced
      && if s.nextReport < |t.pieces| then
           && s.nextReport in s.checks
           && s' == s.(reports := s.reports + [Checked(s.nextReport, s.checks[s.nextReport])], nextReport := s.nextReport + 1)
         else s' == s.(reports := s.reports + [CheckedAll], announced := true)
    case _ => false
  }

  ghost predicate Next(t: Torrent, seed: bool, s: Sys, step: Step, s': Sys)
    requires HubInv(t, s.hub) && |s.flat| == t.totalLength
  {
    if step.WriterBegins? || step.WriterEnds? || step.WriterReads? then WriterNext(t, s, step, s')
    else if step.CheckPiece? || step.Report? then RecheckNext(t, s, step, s')
    else if step.HubTakesAck? then s.status == Running && AckNext(t, seed, s, s')
    else if step.HubTakesReport? then s.status == Running && ReportNext(t, seed, s, s')
    else s.status == Running && PeerNext(t, s.hub, step, s'.hub) && s' == s.(hub := s'.hub)
  }

  // ---------- The invariant ----------

  function AckIndex(acks: seq<WriterEvent>): seq<nat> {
    if acks == [] then []
    else AckIndex(acks[..|acks| - 1]) + if acks[|acks| - 1].Wrote? then [acks[|acks| - 1].index] else []
  }

  function WriteIndex(cmds: seq<DiskCommand>): seq<nat> {
    if cmds == [] then []
    else WriteIndex(cmds[..|cmds| - 1]) + if cmds[|cmds| - 1].WritePiece? then [cmds[|cmds| - 1].index] else []
  }

  // The pieces on their way to the disk, oldest first: written but not yet
  // acknowledged to the hub, being written, waiting to be written.
  function Pipeline(s: Sys): seq<nat> {
    AckIndex(s.acks) + (if s.writing.Some? then [s.writing.value.0] else []) + WriteIndex(s.hub.toDisk)
  }

  ghost predicate Accounting(s: Sys) {
    && DoneSet(s.hub.pm.states) == s.hub.onDisk + SetOf(Pipeline(s))
    && Distinct(Pipeline(s))
    && s.hub.pendingWrites == |Pipeline(s)|
  }

  ghost predicate CommandOk(t: Torrent, onDisk: set<nat>, c: DiskCommand)
    requires t.WF()
  {
    c.index < |t.pieces| &&
    match c
    case WritePiece(i, data) => |data| == t.PieceLen(i) && t.sha1(data) == t.pieces[i]
    case ReadBlock(_, i, begin, length) => i in onDisk && begin + length <= t.PieceLen(i)
  }

  ghost predicate CommandsOk(t: Torrent, s: Sys)
    requires t.WF()
  {
    && (forall c :: c in s.hub.toDisk ==> CommandOk(t, s.hub.onDisk, c))
    && (s.writing.Some? ==> CommandOk(t, s.hub.onDisk, WritePiece(s.writing.value.0, s.writing.value.1)))
  }

  // Pieces that somebody says are on disk.
  ghost function Vouched(s: Sys): set<nat> {
    s.begun + set i | i in s.checks && s.checks[i]
  }

  ghost predicate DiskSafe(t: Torrent, s: Sys)
    requires t.WF() && |s.flat| == t.totalLength
  {
    && s.hub.onDisk <= Vouched(s)
    && (s.writing.Some? ==> s.writing.value.0 in s.begun)
    && (forall i: nat, ok :: Wrote(i, ok) in s.acks ==> i in s.begun)
    && forall i :: i in Vouched(s) ==>
         i < |t.pieces| && (i in s.torn || Good(t, s.flat, i) || (s.writing.Some? && s.writing.value.0 == i))
  }

  // The block is a slice of bytes with the right hash.
  ghost predicate Authentic(t: Torrent, i: nat, begin: nat, block: seq<u8>) {
    i < |t.pieces| && exists whole :: IsSlice(t, i, whole, begin, block)
  }

  ghost predicate IsSlice(t: Torrent, i: nat, whole: seq<u8>, begin: nat, block: seq<u8>)
    requires i < |t.pieces|
  {
    && t.WF() && |whole| == t.PieceLen(i) && t.sha1(whole) == t.pieces[i]
    && begin + |block| <= |whole| && block == whole[begin..begin + |block|]
  }

  // No write among these has failed.
  ghost predicate NoFailure(acks: seq<WriterEvent>) {
    forall e :: e in acks ==> !(e.Wrote? && !e.ok)
  }

  ghost predicate AnswerOk(t: Torrent, e: WriterEvent) {
    e.Read? && e.data.Some? ==> Authentic(t, e.index, e.begin, e.data.value)
  }

  // A write that failed is reported before anything read after it, and the hub
  // stops at the report. So what it can still pass on is authentic.
  ghost predicate AllAuthentic(t: Torrent, s: Sys) {
    && (s.status == Running ==>
          && (NoFailure(s.acks) ==> s.torn == {})
          && forall k: nat :: k < |s.acks| && NoFailure(s.acks[..k]) ==> AnswerOk(t, s.acks[k]))
    && (forall p, m :: p in s.hub.peers && m in PiecesSent(s.hub.peers[p].sent) ==> Authentic(t, m.index, m.begin, m.block))
  }

  ghost predicate RecheckOrder(t: Torrent, s: Sys) {
    && s.nextReport <= |t.pieces|
    && (s.announced ==> s.nextReport == |t.pieces|)
    && (s.recheckDone ==> s.announced && s.reports == [])
    && (s.announced && !s.recheckDone ==> s.reports != [])
    && (forall k: nat :: k < |s.reports| ==> (s.reports[k] == CheckedAll <==> s.announced && k == |s.reports| - 1))
    && (forall i: nat, v :: Checked(i, v) in s.reports ==> i < |t.pieces| && i in s.checks && s.checks[i] == v)
  }

  ghost predicate PhaseOk(t: Torrent, s: Sys) {
    && (s.hub.phase == Recheck ==> !s.recheckDone)
    && (s.hub.phase == Download ==> s.recheckDone)
    && (s.hub.phase == Seed ==> DoneSet(s.hub.pm.states) == Below(|t.pieces|))
    && (s.status == Finished ==> DoneSet(s.hub.pm.states) == Below(|t.pieces|))
    // No completion is lost.
    && (s.status == Running && s.recheckDone && DoneSet(s.hub.pm.states) == Below(|t.pieces|) && s.hub.pendingWrites == 0
        ==> s.hub.phase == Seed)
    // Completion is announced once, with every piece on disk.
    && s.completions <= 1
    && (s.completions == 1 ==> s.hub.pendingWrites == 0 && DoneSet(s.hub.pm.states) == s.hub.onDisk == Below(|t.pieces|))
  }

  ghost predicate SysInv(t: Torrent, s: Sys) {
    && HubInv(t, s.hub) && |s.flat| == t.totalLength
    && (s.status != Failed ==> Accounting(s))
    && CommandsOk(t, s)
    && DiskSafe(t, s)
    && AllAuthentic(t, s)
    && RecheckOrder(t, s)
    && PhaseOk(t, s)
  }
}
