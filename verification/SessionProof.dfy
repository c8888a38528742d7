/** Every step of the session keeps its invariant. */
module SessionProof {
  import opened Wrappers
  import opened Bytes
  import opened FiniteSets
  import opened PieceSpec
  import opened PieceTheorems
  import opened HubSpec
  import opened HubInvariant
  import opened Session
  import opened Arithmetic

  // ---------- Queues ----------

  lemma {:induction false} AckIndexConcat(a: seq<WriterEvent>, b: seq<WriterEvent>)
    ensures AckIndex(a + b) == AckIndex(a) + AckIndex(b)
  {
    if b == [] {
      assert a + b == a;
    } else {
      var last := |b| - 1;
      AckIndexConcat(a, b[..last]);
      assert (a + b)[..|a + b| - 1] == a + b[..last];
    }
  }

  lemma {:induction false} WriteIndexConcat(a: seq<DiskCommand>, b: seq<DiskCommand>)
    ensures WriteIndex(a + b) == WriteIndex(a) + WriteIndex(b)
  {
    if b == [] {
      assert a + b == a;
    } else {
      var last := |b| - 1;
      WriteIndexConcat(a, b[..last]);
      assert (a + b)[..|a + b| - 1] == a + b[..last];
    }
  }

  lemma TakeAck(acks: seq<WriterEvent>)
    requires acks != []
    ensures AckIndex(acks) == (if acks[0].Wrote? then [acks[0].index] else []) + AckIndex(acks[1..])
  {
    AckIndexConcat([acks[0]], acks[1..]);
    assert acks == [acks[0]] + acks[1..];
  }

  lemma TakeCommand(cmds: seq<DiskCommand>)
    requires cmds != []
    ensures WriteIndex(cmds) == (if cmds[0].WritePiece? then [cmds[0].index] else []) + WriteIndex(cmds[1..])
  {
    WriteIndexConcat([cmds[0]], cmds[1..]);
    assert cmds == [cmds[0]] + cmds[1..];
  }

  lemma CompleteIsAll(t: Torrent, s: State)
    requires Inv(t, s)
    ensures IsComplete(t, s) <==> DoneSet(s.states) == Below(|t.pieces|)
    ensures DoneSet(s.states) <= Below(|t.pieces|)
  {
    FullSize(DoneSet(s.states), |t.pieces|);
  }

  // ---------- The bytes of a piece ----------

  lemma PiecesApart(t: Torrent, lo: nat, hi: nat)
    requires t.WF() && lo < hi < |t.pieces|
    ensures t.Start(lo) + t.PieceLen(lo) <= t.Start(hi)
  {
    MulApart(lo, hi, t.pieceLength);
  }

  lemma OtherPieces(t: Torrent, flat: seq<u8>, flat': seq<u8>, i: nat, j: nat)
    requires t.WF() && i < |t.pieces| && j < |t.pieces| && i != j && |flat| == t.totalLength
    requires OnlyPiece(t, flat, flat', i)
    ensures PieceBytes(t, flat', j) == PieceBytes(t, flat, j)
  {
    if i < j {
      PiecesApart(t, i, j);
    } else {
      PiecesApart(t, j, i);
    }
    var from, to := t.Start(j), t.Start(j) + t.PieceLen(j);
    assert forall k :: from <= k < to ==> flat'[k] == flat[k];
  }

  lemma WholePiece(t: Torrent, flat: seq<u8>, i: nat, data: seq<u8>)
    requires t.WF() && i < |t.pieces| && |flat| == t.totalLength && |data| == t.PieceLen(i)
    ensures OnlyPiece(t, flat, Patch(flat, t.Start(i), data), i)
    ensures PieceBytes(t, Patch(flat, t.Start(i), data), i) == data
  {
  }

  // ---------- Peers and the hub ----------

  // Nothing that the rest of the session depends on has changed.
  ghost predicate Quiet(h: HubState, h': HubState) {
    && h'.onDisk == h.onDisk && h'.toDisk == h.toDisk
    && h'.pendingWrites == h.pendingWrites && h'.phase == h.phase
    && DoneSet(h'.pm.states) == DoneSet(h.pm.states)
    && SentLess(h, h')
  }

  lemma QuietKeeps(t: Torrent, s: Sys, h: HubState)
    requires SysInv(t, s) && HubInv(t, h) && Quiet(s.hub, h)
    ensures SysInv(t, s.(hub := h))
  {
  }

  lemma PeerIsQuiet(t: Torrent, h: HubState, step: Step, h': HubState)
    requires HubInv(t, h) && PeerNext(t, h, step, h')
    requires !step.PeerBlock? && !step.PeerRequests?
    ensures HubInv(t, h') && Quiet(h, h')
    ensures Polite(h) && !step.PeerConnects? ==> Polite(h')
  {
    match step {
      case PeerConnects(_, _) => LinkIsQuiet(t, h, step, h');
      case PeerBitfield(_, _) => BitfieldIsQuiet(t, h, step, h');
      case PeerHas(_, _) => LinkIsQuiet(t, h, step, h');
      case PeerGone(_) => LinkIsQuiet(t, h, step, h');
      case PeerChokes(peer) => ChokeKeeps(t, h, peer);
      case PeerUnchokes(peer) => UnchokeKeeps(t, h, peer, h');
      case PeerInterest(peer, interested) => InterestKeeps(t, h, peer, interested, h');
      case Pause =>
      case Resume => ResumeKeeps(t, h, h');
      case ChokeTick => TickKeeps(t, h, h');
    }
  }

  lemma LinkIsQuiet(t: Torrent, h: HubState, step: Step, h': HubState)
    requires HubInv(t, h) && PeerNext(t, h, step, h')
    requires step.PeerConnects? || step.PeerHas? || step.PeerGone?
    ensures HubInv(t, h') && Quiet(h, h')
    ensures Polite(h) && !step.PeerConnects? ==> Polite(h')
  {
    match step {
      case PeerConnects(peer, outbound) => ConnectedKeeps(t, h, peer, outbound);
      case PeerHas(peer, index) => HaveKeeps(t, h, peer, index);
      case PeerGone(peer) => DisconnectedKeeps(t, h, peer);
    }
  }

  lemma BitfieldIsQuiet(t: Torrent, h: HubState, step: Step, h': HubState)
    requires HubInv(t, h) && PeerNext(t, h, step, h') && step.PeerBitfield?
    ensures HubInv(t, h') && Quiet(h, h') && (Polite(h) ==> Polite(h'))
  {
    BitfieldKeeps(t, h, step.peer, step.bf, h');
  }

  lemma TickKeeps(t: Torrent, h: HubState, h': HubState)
    requires HubInv(t, h) && Rechoked(h, h')
    ensures HubInv(t, h') && Quiet(h, h') && (Polite(h) ==> Polite(h'))
  {
    var order :| IsOrderOf(order, InterestedPeers(h.peers)) && h' == Rechoke(h, order);
    RechokeKeeps(t, h, order);
  }

  // The hub moved; what is on disk and who vouches for it is the same.
  ghost predicate HubMoved(s: Sys, s': Sys) {
    && s' == s.(hub := s'.hub, acks := s'.acks, reports := s'.reports, recheckDone := s'.recheckDone,
                completions := s'.completions, status := s'.status)
    && s.hub.onDisk <= s'.hub.onDisk
    && (forall a :: a in s'.acks ==> a in s.acks)
  }

  lemma SafetyKept(t: Torrent, s: Sys, s': Sys)
    requires t.WF() && |s.flat| == t.totalLength && DiskSafe(t, s) && CommandsOk(t, s)
    requires HubMoved(s, s') && s'.hub.onDisk <= Vouched(s)
    requires forall c :: c in s'.hub.toDisk ==> c in s.hub.toDisk || CommandOk(t, s'.hub.onDisk, c)
    ensures DiskSafe(t, s') && CommandsOk(t, s')
  {
  }

  lemma ShorterQueue(t: Torrent, acks: seq<WriterEvent>)
    requires acks != [] && NoFailure([acks[0]])
    requires forall k: nat :: k < |acks| && NoFailure(acks[..k]) ==> AnswerOk(t, acks[k])
    ensures NoFailure(acks[1..]) ==> NoFailure(acks)
    ensures forall k: nat :: k < |acks[1..]| && NoFailure(acks[1..][..k]) ==> AnswerOk(t, acks[1..][k])
  {
    assert acks == [acks[0]] + acks[1..];
    forall k: nat | k < |acks[1..]| && NoFailure(acks[1..][..k]) ensures AnswerOk(t, acks[1..][k]) {
      assert acks[..k + 1] == [acks[0]] + acks[1..][..k];
    }
  }

  // The hub took an event, or the session is over.
  ghost predicate QueueMoved(s: Sys, s': Sys) {
    && s'.torn == s.torn
    && (s'.status == Running ==>
          && s.status == Running
          && (s'.acks == s.acks || (s.acks != [] && s'.acks == s.acks[1..] && NoFailure([s.acks[0]]))))
  }

  lemma AuthenticKept(t: Torrent, s: Sys, s': Sys)
    requires AllAuthentic(t, s) && QueueMoved(s, s')
    requires forall p, m :: p in s'.hub.peers && m in PiecesSent(s'.hub.peers[p].sent) ==> Authentic(t, m.index, m.begin, m.block)
    ensures AllAuthentic(t, s')
  {
    if s'.status == Running && s'.acks != s.acks {
      ShorterQueue(t, s.acks);
    }
  }

  // No more blocks were sent.
  ghost predicate SentLess(h: HubState, h': HubState) {
    forall p :: p in h'.peers ==> PiecesSent(h'.peers[p].sent) <= if p in h.peers then PiecesSent(h.peers[p].sent) else {}
  }

  lemma ReadQueuedKeeps(t: Torrent, s: Sys, c: DiskCommand)
    requires SysInv(t, s) && c.ReadBlock? && CommandOk(t, s.hub.onDisk, c)
    ensures SysInv(t, s.(hub := s.hub.(toDisk := s.hub.toDisk + [c])))
  {
    var s' := s.(hub := s.hub.(toDisk := s.hub.toDisk + [c]));
    WriteIndexConcat(s.hub.toDisk, [c]);
    assert WriteIndex([c]) == [];
    assert Pipeline(s') == Pipeline(s);
    SafetyKept(t, s, s');
    AuthenticKept(t, s, s');
  }

  lemma UploadRequestKeeps(t: Torrent, s: Sys, peer: Peer, index: nat, begin: nat, length: nat)
    requires SysInv(t, s)
    ensures SysInv(t, s.(hub := OnUploadRequest(t, s.hub, peer, index, begin, length)))
  {
    var h := OnUploadRequest(t, s.hub, peer, index, begin, length);
    if h.toDisk != s.hub.toDisk {
      ReadQueuedKeeps(t, s, ReadBlock(peer, index, begin, length));
    } else {
      if peer in s.hub.peers {
        SendMore(s.hub.peers[peer].sent, [Disconnect]);
      }
      QuietKeeps(t, s, h);
    }
  }

  lemma DistinctTail<T>(q: seq<T>, x: T)
    requires Distinct([x] + q)
    ensures Distinct(q) && x !in q && SetOf([x] + q) == {x} + SetOf(q)
  {
    var all := [x] + q;
    forall i | 0 <= i < |q| ensures q[i] == all[i + 1] && q[i] != x {
      assert all[0] != all[i + 1];
    }
  }

  lemma WriteAccounted(s: Sys, s': Sys, i: nat, whole: seq<u8>)
    requires Accounting(s) && i !in DoneSet(s.hub.pm.states)
    requires s' == s.(hub := s'.hub) && s'.hub.toDisk == s.hub.toDisk + [WritePiece(i, whole)]
    requires s'.hub.onDisk == s.hub.onDisk && s'.hub.pendingWrites == s.hub.pendingWrites + 1
    requires DoneSet(s'.hub.pm.states) == DoneSet(s.hub.pm.states) + {i}
    ensures Accounting(s')
  {
    WriteIndexConcat(s.hub.toDisk, [WritePiece(i, whole)]);
    assert [WritePiece(i, whole)][..0] == [];
    assert Pipeline(s') == Pipeline(s) + [i];
    assert i !in SetOf(Pipeline(s));
    DistinctAppended(Pipeline(s), i);
  }

  lemma BlockKeeps(t: Torrent, s: Sys, peer: Peer, index: nat, begin: nat, data: seq<u8>, h: HubState)
    requires SysInv(t, s) && s.status == Running && OnBlockEvent(t, s.hub, peer, index, begin, data, h)
    ensures SysInv(t, s.(hub := h))
  {
    BlockEventKeeps(t, s.hub, peer, index, begin, data, h);
    CompletedOnce(t, s.hub.pm, peer, index, begin, data);
    match OnBlock(t, s.hub.pm, peer, index, begin, data).1 {
      case Ok(PieceCompleted(i, whole)) =>
        var s' := s.(hub := h);
        WriteAccounted(s, s', i, whole);
        SafetyKept(t, s, s');
        AuthenticKept(t, s, s');
        CompleteIsAll(t, s.hub.pm);
      case _ => QuietKeeps(t, s, h);
    }
  }

  // ---------- The hub takes events ----------

  lemma AckAccounted(s: Sys, s': Sys)
    requires s.acks != [] && s'.acks == s.acks[1..] && s.acks[0].Wrote? && Accounting(s)
    requires s'.writing == s.writing && s'.hub.toDisk == s.hub.toDisk
    requires s'.hub.pm == s.hub.pm && s'.hub.onDisk == s.hub.onDisk + {s.acks[0].index}
    requires 0 < s.hub.pendingWrites ==> s'.hub.pendingWrites == s.hub.pendingWrites - 1
    ensures Accounting(s') && 0 < s.hub.pendingWrites
    ensures s'.hub.pendingWrites == 0 ==> SetOf(Pipeline(s')) == {}
  {
    TakeAck(s.acks);
    assert Pipeline(s) == [s.acks[0].index] + Pipeline(s');
    DistinctTail(Pipeline(s'), s.acks[0].index);
  }

  lemma WriteFailedKeeps(t: Torrent, seed: bool, s: Sys, s': Sys)
    requires SysInv(t, s) && s.status == Running && AckNext(t, seed, s, s') && s.acks[0].Wrote? && !s.acks[0].ok
    ensures SysInv(t, s')
  {
    SafetyKept(t, s, s');
    AuthenticKept(t, s, s');
  }

  lemma CompletionKept(t: Torrent, seed: bool, s: Sys, s': Sys)
    requires Inv(t, s.hub.pm) && s.status == Running && AckNext(t, seed, s, s') && s.acks[0].Wrote? && s.acks[0].ok
    requires Accounting(s) && PhaseOk(t, s) && RecheckOrder(t, s)
    ensures Accounting(s') && PhaseOk(t, s') && RecheckOrder(t, s')
  {
    AckAccounted(s, s');
    CompleteIsAll(t, s.hub.pm);
  }

  lemma WrittenHubKept(t: Torrent, h: HubState, i: nat, phase: Phase)
    requires HubInv(t, h) && 0 < h.pendingWrites
    ensures HubInv(t, OnWritten(h, i)) && HubInv(t, OnWritten(h, i).(phase := phase))
  {
  }

  lemma WroteKeeps(t: Torrent, seed: bool, s: Sys, s': Sys)
    requires SysInv(t, s) && s.status == Running && AckNext(t, seed, s, s') && s.acks[0].Wrote? && s.acks[0].ok
    ensures SysInv(t, s')
  {
    WroteSafe(t, seed, s, s');
    WrittenHubKept(t, s.hub, s.acks[0].index, Seed);
    CompletionKept(t, seed, s, s');
  }

  lemma WroteSafe(t: Torrent, seed: bool, s: Sys, s': Sys)
    requires s.status == Running && AckNext(t, seed, s, s') && s.acks[0].Wrote? && s.acks[0].ok
    requires t.WF() && |s.flat| == t.totalLength && DiskSafe(t, s) && CommandsOk(t, s) && AllAuthentic(t, s)
    ensures DiskSafe(t, s') && CommandsOk(t, s') && AllAuthentic(t, s')
  {
    assert s.acks[0] in s.acks;
    SafetyKept(t, s, s');
    AuthenticKept(t, s, s');
  }

  lemma UploadIsAuthentic(t: Torrent, seed: bool, s: Sys, s': Sys)
    requires AllAuthentic(t, s) && s.status == Running && AckNext(t, seed, s, s') && s.acks[0].Read?
    ensures AllAuthentic(t, s')
  {
    var Read(peer, i, begin, data) := s.acks[0];
    assert s.acks[..0] == [];
    assert AnswerOk(t, s.acks[0]);
    if data.Some? && peer in s.hub.peers {
      var sent := s.hub.peers[peer].sent;
      assert PiecesSent(sent + [Send(Piece(i, begin, data.value))]) == PiecesSent(sent) + {Piece(i, begin, data.value)};
    }
    AuthenticKept(t, s, s');
  }

  lemma ReadPhase(t: Torrent, seed: bool, s: Sys, s': Sys)
    requires HubInv(t, s.hub) && s.status == Running && AckNext(t, seed, s, s') && s.acks[0].Read?
    requires Accounting(s) && PhaseOk(t, s) && RecheckOrder(t, s)
    ensures HubInv(t, s'.hub) && Accounting(s') && PhaseOk(t, s') && RecheckOrder(t, s')
  {
    ReadHub(t, s.hub, s.acks[0], s'.hub);
    OnlyTold(t, s, s');
  }

  // An answer was passed on, and nothing else happened.
  lemma OnlyTold(t: Torrent, s: Sys, s': Sys)
    requires Accounting(s) && PhaseOk(t, s) && RecheckOrder(t, s) && s.acks != [] && s.acks[0].Read?
    requires s' == s.(acks := s.acks[1..], hub := s.hub.(peers := s'.hub.peers))
    ensures Accounting(s') && PhaseOk(t, s') && RecheckOrder(t, s')
  {
    TakeAck(s.acks);
    assert Pipeline(s') == Pipeline(s);
  }

  lemma ReadHub(t: Torrent, h: HubState, e: WriterEvent, h': HubState)
    requires HubInv(t, h) && e.Read?
    requires h' == if e.data.Some? then OnUpload(h, e.peer, e.index, e.begin, e.data.value) else h
    ensures HubInv(t, h') && h' == h.(peers := h'.peers)
  {
    if e.data.Some? {
      UploadKeeps(t, h, e.peer, e.index, e.begin, e.data.value);
    }
  }

  lemma ReadKeeps(t: Torrent, seed: bool, s: Sys, s': Sys)
    requires SysInv(t, s) && s.status == Running && AckNext(t, seed, s, s') && s.acks[0].Read?
    ensures SysInv(t, s')
  {
    ReadPhase(t, seed, s, s');
    UploadIsAuthentic(t, seed, s, s');
    SafetyKept(t, s, s');
  }

  lemma CheckedPhase(t: Torrent, seed: bool, s: Sys, s': Sys)
    requires HubInv(t, s.hub) && ReportNext(t, seed, s, s') && s.reports[0].Checked? && s.reports[0].index < |t.pieces|
    requires Accounting(s) && PhaseOk(t, s) && RecheckOrder(t, s)
    ensures HubInv(t, s'.hub) && Accounting(s') && PhaseOk(t, s') && RecheckOrder(t, s')
  {
    RecheckKeeps(t, s.hub, s.reports[0].index, s.reports[0].verified);
    CompleteIsAll(t, s.hub.pm);
    CompleteIsAll(t, s'.hub.pm);
    OnlyChecked(t, s, s', if s.reports[0].verified then {s.reports[0].index} else {});
  }

  // Pieces found on disk are complete, and nothing else happened.
  lemma OnlyChecked(t: Torrent, s: Sys, s': Sys, found: set<nat>)
    requires Accounting(s) && PhaseOk(t, s) && RecheckOrder(t, s) && s.reports != [] && s.reports[0].Checked?
    requires s' == s.(reports := s.reports[1..], hub := s'.hub)
    requires s'.hub == s.hub.(pm := s'.hub.pm, onDisk := s.hub.onDisk + found)
    requires DoneSet(s'.hub.pm.states) == DoneSet(s.hub.pm.states) + found
    requires DoneSet(s'.hub.pm.states) <= Below(|t.pieces|)
    ensures Accounting(s') && PhaseOk(t, s') && RecheckOrder(t, s')
  {
    assert Pipeline(s') == Pipeline(s);
  }

  lemma CheckedKeeps(t: Torrent, seed: bool, s: Sys, s': Sys)
    requires SysInv(t, s) && s.status == Running && ReportNext(t, seed, s, s') && s.reports[0].Checked?
    ensures SysInv(t, s')
  {
    assert s.reports[0] in s.reports;
    CheckedPhase(t, seed, s, s');
    SafetyKept(t, s, s');
    AuthenticKept(t, s, s');
  }

  lemma CheckedAllKeeps(t: Torrent, seed: bool, s: Sys, s': Sys)
    requires SysInv(t, s) && s.status == Running && ReportNext(t, seed, s, s') && s.reports[0].CheckedAll?
    ensures SysInv(t, s')
  {
    RecheckDoneKeeps(t, s.hub, s'.hub);
    assert Pipeline(s') == Pipeline(s);
    CompleteIsAll(t, s.hub.pm);
    SafetyKept(t, s, s');
    AuthenticKept(t, s, s');
  }

  // ---------- The writer ----------

  // Bytes of a piece being written changed, and nothing else did.
  lemma FlatChanged(t: Torrent, s: Sys, flat: seq<u8>, i: nat)
    requires t.WF() && |s.flat| == t.totalLength && DiskSafe(t, s)
    requires i < |t.pieces| && OnlyPiece(t, s.flat, flat, i)
    ensures forall j :: j in Vouched(s) && j != i && !(s.writing.Some? && s.writing.value.0 == j) ==>
              j < |t.pieces| && (j in s.torn || Good(t, flat, j))
  {
    forall j | j in Vouched(s) && j != i && !(s.writing.Some? && s.writing.value.0 == j)
      ensures j < |t.pieces| && (j in s.torn || Good(t, flat, j))
    {
      OtherPieces(t, s.flat, flat, i, j);
    }
  }

  lemma QueueGrows(t: Torrent, s: Sys, s': Sys)
    requires AllAuthentic(t, s) && s'.hub.peers == s.hub.peers && s'.status == s.status
    requires |s'.acks| == |s.acks| + 1 && s.acks <= s'.acks
    requires s.status == Running && NoFailure(s.acks) ==> AnswerOk(t, s'.acks[|s.acks|])
    requires NoFailure(s'.acks) ==> s'.torn == s.torn
    ensures AllAuthentic(t, s')
  {
    var e := s'.acks[|s.acks|];
    assert s'.acks == s.acks + [e];
    forall k: nat | s.status == Running && k < |s'.acks| && NoFailure(s'.acks[..k]) ensures AnswerOk(t, s'.acks[k]) {
      if k < |s.acks| {
        assert s'.acks[..k] == s.acks[..k];
      } else {
        assert s'.acks[..k] == s.acks;
      }
    }
  }

  lemma WriterBeginsKeeps(t: Torrent, s: Sys, s': Sys)
    requires SysInv(t, s) && WriterNext(t, s, WriterBegins, s')
    ensures SysInv(t, s')
  {
    var c := s.hub.toDisk[0];
    TakeCommand(s.hub.toDisk);
    assert Pipeline(s') == Pipeline(s);
    assert CommandsOk(t, s') by {
      assert c in s.hub.toDisk;
    }
    FlatChanged(t, s, s'.flat, c.index);
    assert Vouched(s') == Vouched(s) + {c.index};
    assert DiskSafe(t, s');
    AuthenticKept(t, s, s');
  }

  // A piece written moves on along the pipeline.
  lemma WriteMoves(s: Sys, ok: bool, s': Sys)
    requires s.writing.Some? && s'.writing.None? && s'.hub.toDisk == s.hub.toDisk
    requires s'.acks == s.acks + [Wrote(s.writing.value.0, ok)]
    ensures Pipeline(s') == Pipeline(s)
  {
    var e := Wrote(s.writing.value.0, ok);
    AckIndexConcat(s.acks, [e]);
    assert AckIndex([e]) == [e.index] by {
      assert [e][..0] == [];
    }
  }

  lemma WriterEndsKeeps(t: Torrent, s: Sys, ok: bool, s': Sys)
    requires SysInv(t, s) && WriterNext(t, s, WriterEnds(ok), s')
    ensures SysInv(t, s')
  {
    var (i, data) := s.writing.value;
    WriteMoves(s, ok, s');
    WholePiece(t, s.flat, i, data);
    FlatChanged(t, s, s'.flat, i);
    assert Vouched(s') == Vouched(s);
    assert DiskSafe(t, s');
    assert Wrote(i, ok) == s'.acks[|s.acks|];
    QueueGrows(t, s, s');
  }

  // When a block is read for a peer, its piece is on disk with the right hash.
  lemma ReadsAreVerified(t: Torrent, s: Sys, ok: bool, s': Sys)
    requires SysInv(t, s) && WriterNext(t, s, WriterReads(ok), s')
    ensures var c := s.hub.toDisk[0];
            && (c.index in s.torn || Good(t, s.flat, c.index))
            && (ok ==> IsSliceOf(t, s.flat, c.index, c.begin, c.length, s'.acks[|s.acks|].data))
  {
    var c := s.hub.toDisk[0];
    assert c in s.hub.toDisk;
    assert c.index in Vouched(s);
    SliceOfSlice(s.flat, t.Start(c.index), t.Start(c.index) + t.PieceLen(c.index), c.begin, c.begin + c.length);
  }

  ghost predicate IsSliceOf(t: Torrent, flat: seq<u8>, i: nat, begin: nat, length: nat, data: Option<seq<u8>>)
    requires t.WF() && i < |t.pieces| && |flat| == t.totalLength
  {
    begin + length <= t.PieceLen(i) && data == Some(PieceBytes(t, flat, i)[begin..begin + length])
  }

  lemma ReadIsAuthentic(t: Torrent, s: Sys, ok: bool, s': Sys)
    requires SysInv(t, s) && WriterNext(t, s, WriterReads(ok), s')
    ensures AllAuthentic(t, s')
  {
    var c := s.hub.toDisk[0];
    ReadsAreVerified(t, s, ok, s');
    if ok && c.index !in s.torn {
      assert IsSlice(t, c.index, PieceBytes(t, s.flat, c.index), c.begin, s'.acks[|s.acks|].data.value);
    }
    QueueGrows(t, s, s');
  }

  lemma ReadAccounted(t: Torrent, s: Sys, ok: bool, s': Sys)
    requires t.WF() && |s.flat| == t.totalLength && WriterNext(t, s, WriterReads(ok), s')
    ensures Pipeline(s') == Pipeline(s)
  {
    ReadMoves(s, s', s'.acks[|s.acks|]);
  }

  lemma ReadMoves(s: Sys, s': Sys, e: WriterEvent)
    requires s.hub.toDisk != [] && s.hub.toDisk[0].ReadBlock? && s'.hub.toDisk == s.hub.toDisk[1..]
    requires s'.acks == s.acks + [e] && e.Read? && s'.writing == s.writing
    ensures Pipeline(s') == Pipeline(s)
  {
    TakeCommand(s.hub.toDisk);
    assert s'.acks[..|s.acks|] == s.acks;
  }

  lemma ReadIsSafe(t: Torrent, s: Sys, ok: bool, s': Sys)
    requires t.WF() && |s.flat| == t.totalLength && WriterNext(t, s, WriterReads(ok), s')
    requires DiskSafe(t, s) && CommandsOk(t, s)
    ensures DiskSafe(t, s') && CommandsOk(t, s')
  {
  }

  lemma WriterReadsKeeps(t: Torrent, s: Sys, ok: bool, s': Sys)
    requires SysInv(t, s) && WriterNext(t, s, WriterReads(ok), s')
    ensures SysInv(t, s')
  {
    ReadAccounted(t, s, ok, s');
    ReadIsSafe(t, s, ok, s');
    ReadIsAuthentic(t, s, ok, s');
  }

  // ---------- The recheck ----------

  lemma CheckIsSafe(t: Torrent, s: Sys, i: nat, verified: bool, s': Sys)
    requires t.WF() && |s.flat| == t.totalLength && RecheckNext(t, s, CheckPiece(i, verified), s')
    requires DiskSafe(t, s)
    ensures DiskSafe(t, s')
  {
    assert Vouched(s') == Vouched(s) + if verified then {i} else {};
  }

  lemma CheckPieceKeeps(t: Torrent, s: Sys, i: nat, verified: bool, s': Sys)
    requires SysInv(t, s) && RecheckNext(t, s, CheckPiece(i, verified), s')
    ensures SysInv(t, s')
  {
    assert Pipeline(s') == Pipeline(s);
    CheckIsSafe(t, s, i, verified, s');
    AuthenticKept(t, s, s');
  }

  lemma ReportedKeeps(t: Torrent, s: Sys, s': Sys)
    requires SysInv(t, s) && RecheckNext(t, s, Report, s')
    ensures SysInv(t, s')
  {
  }

  // ---------- Every run ----------

  lemma InitKeeps(t: Torrent, s: Sys)
    requires Init(t, s)
    ensures SysInv(t, s)
  {
  }

  lemma WriterKeeps(t: Torrent, s: Sys, step: Step, s': Sys)
    requires SysInv(t, s) && WriterNext(t, s, step, s')
    ensures SysInv(t, s')
  {
    match step {
      case WriterBegins => WriterBeginsKeeps(t, s, s');
      case WriterEnds(ok) => WriterEndsKeeps(t, s, ok, s');
      case WriterReads(ok) => WriterReadsKeeps(t, s, ok, s');
    }
  }

  lemma AckKeeps(t: Torrent, seed: bool, s: Sys, s': Sys)
    requires SysInv(t, s) && s.status == Running && AckNext(t, seed, s, s')
    ensures SysInv(t, s')
  {
    if s.acks[0].Read? {
      ReadKeeps(t, seed, s, s');
    } else if s.acks[0].ok {
      WroteKeeps(t, seed, s, s');
    } else {
      WriteFailedKeeps(t, seed, s, s');
    }
  }

  lemma ReportKeeps(t: Torrent, seed: bool, s: Sys, s': Sys)
    requires SysInv(t, s) && s.status == Running && ReportNext(t, seed, s, s')
    ensures SysInv(t, s')
  {
    if s.reports[0].Checked? {
      CheckedKeeps(t, seed, s, s');
    } else {
      CheckedAllKeeps(t, seed, s, s');
    }
  }

  lemma PeerKeeps(t: Torrent, s: Sys, step: Step, s': Sys)
    requires SysInv(t, s) && s.status == Running && PeerNext(t, s.hub, step, s'.hub) && s' == s.(hub := s'.hub)
    ensures SysInv(t, s')
  {
    if step.PeerBlock? {
      BlockKeeps(t, s, step.peer, step.index, step.begin, step.data, s'.hub);
    } else if step.PeerRequests? {
      UploadRequestKeeps(t, s, step.peer, step.index, step.begin, step.length);
    } else {
      PeerIsQuiet(t, s.hub, step, s'.hub);
      QuietKeeps(t, s, s'.hub);
    }
  }

  lemma NextKeeps(t: Torrent, seed: bool, s: Sys, step: Step, s': Sys)
    requires SysInv(t, s) && Next(t, seed, s, step, s')
    ensures SysInv(t, s')
  {
    if step.WriterBegins? || step.WriterEnds? || step.WriterReads? {
      WriterKeeps(t, s, step, s');
    } else if step.CheckPiece? {
      CheckPieceKeeps(t, s, step.index, step.verified, s');
    } else if step.Report? {
      ReportedKeeps(t, s, s');
    } else if step.HubTakesAck? {
      AckKeeps(t, seed, s, s');
    } else if step.HubTakesReport? {
      ReportKeeps(t, seed, s, s');
    } else {
      PeerKeeps(t, s, step, s');
    }
  }

  ghost predicate Advances(s: Sys, s': Sys) {
    && s.hub.phase.Rank() <= s'.hub.phase.Rank()
    && DoneSet(s.hub.pm.states) <= DoneSet(s'.hub.pm.states) && s.hub.onDisk <= s'.hub.onDisk
    && s.completions <= s'.completions && s.torn <= s'.torn
  }

  lemma ReportAdvances(t: Torrent, seed: bool, s: Sys, s': Sys)
    requires HubInv(t, s.hub) && PhaseOk(t, s) && RecheckOrder(t, s) && ReportNext(t, seed, s, s')
    ensures Advances(s, s')
  {
    CompleteIsAll(t, s.hub.pm);
    if s.reports[0].Checked? {
      assert s.reports[0] in s.reports;
      RecheckKeeps(t, s.hub, s.reports[0].index, s.reports[0].verified);
    } else {
      RecheckDoneKeeps(t, s.hub, s'.hub);
    }
  }

  lemma PeerAdvances(t: Torrent, s: Sys, step: Step, s': Sys)
    requires HubInv(t, s.hub) && PeerNext(t, s.hub, step, s'.hub) && s' == s.(hub := s'.hub)
    ensures Advances(s, s')
  {
    if step.PeerBlock? {
      BlockEventKeeps(t, s.hub, step.peer, step.index, step.begin, step.data, s'.hub);
      CompletedOnce(t, s.hub.pm, step.peer, step.index, step.begin, step.data);
    } else if !step.PeerRequests? {
      PeerIsQuiet(t, s.hub, step, s'.hub);
    }
  }

  lemma WriterAdvances(t: Torrent, s: Sys, step: Step, s': Sys)
    requires t.WF() && |s.flat| == t.totalLength && WriterNext(t, s, step, s')
    ensures Advances(s, s')
  {
  }

  lemma AckAdvances(t: Torrent, seed: bool, s: Sys, s': Sys)
    requires AckNext(t, seed, s, s')
    ensures Advances(s, s')
  {
  }

  // The phase never goes back, and no step undoes a completion.
  lemma NextAdvances(t: Torrent, seed: bool, s: Sys, step: Step, s': Sys)
    requires HubInv(t, s.hub) && |s.flat| == t.totalLength && PhaseOk(t, s) && RecheckOrder(t, s)
    requires Next(t, seed, s, step, s')
    ensures Advances(s, s')
  {
    if step.WriterBegins? || step.WriterEnds? || step.WriterReads? {
      WriterAdvances(t, s, step, s');
    } else if step.CheckPiece? || step.Report? {
    } else if step.HubTakesAck? {
      AckAdvances(t, seed, s, s');
    } else if step.HubTakesReport? {
      ReportAdvances(t, seed, s, s');
    } else {
      PeerAdvances(t, s, step, s');
    }
  }

  // A run: each state follows from the one before by the step between them.
  ghost predicate IsRun(t: Torrent, seed: bool, states: seq<Sys>, steps: seq<Step>) {
    && |states| == |steps| + 1
    && Init(t, states[0])
    && forall k: nat :: k < |steps| ==>
         HubInv(t, states[k].hub) && |states[k].flat| == t.totalLength ==> Next(t, seed, states[k], steps[k], states[k + 1])
  }

  lemma {:induction false} RunIsSafe(t: Torrent, seed: bool, states: seq<Sys>, steps: seq<Step>, k: nat)
    requires IsRun(t, seed, states, steps) && k < |states|
    ensures SysInv(t, states[k])
    decreases k
  {
    if k == 0 {
      InitKeeps(t, states[0]);
    } else {
      RunIsSafe(t, seed, states, steps, k - 1);
      NextKeeps(t, seed, states[k - 1], steps[k - 1], states[k]);
    }
  }

  lemma StepAdvances(t: Torrent, seed: bool, states: seq<Sys>, steps: seq<Step>, k: nat)
    requires IsRun(t, seed, states, steps) && k < |steps|
    ensures Advances(states[k], states[k + 1])
  {
    RunIsSafe(t, seed, states, steps, k);
    NextAdvances(t, seed, states[k], steps[k], states[k + 1]);
  }

  lemma {:induction false} RunAdvances(t: Torrent, seed: bool, states: seq<Sys>, steps: seq<Step>, j: nat, k: nat)
    requires IsRun(t, seed, states, steps) && j <= k < |states|
    ensures Advances(states[j], states[k])
    decreases k - j
  {
    if j < k {
      RunAdvances(t, seed, states, steps, j, k - 1);
      StepAdvances(t, seed, states, steps, k - 1);
    }
  }
}
