/** What every run of the session guarantees, said without its invariant. */
module SessionRuns {
  import opened Bytes
  import opened FiniteSets
  import opened PieceSpec
  import opened HubSpec
  import opened HubInvariant
  import opened Session
  import opened SessionProof

  // Whenever the writer reads a block for a peer, and no write of its piece has
  // failed, the piece on disk has the right hash and the block is its slice.
  lemma RunReadsVerified(t: Torrent, seed: bool, states: seq<Sys>, steps: seq<Step>, k: nat)
    requires IsRun(t, seed, states, steps) && k < |steps| && steps[k].WriterReads?
    ensures t.WF() && |states[k].flat| == t.totalLength && states[k].hub.toDisk != []
    ensures var c := states[k].hub.toDisk[0];
            && c.ReadBlock? && c.index < |t.pieces| && (c.index in states[k].torn || Good(t, states[k].flat, c.index))
            && (steps[k].ok ==> IsAnswer(t, states[k].flat, c, states[k].acks, states[k + 1].acks))
  {
    RunIsSafe(t, seed, states, steps, k);
    ReadsAreVerified(t, states[k], steps[k].ok, states[k + 1]);
  }

  // The last answer, and only that one, is new: the slice of the file bytes.
  ghost predicate IsAnswer(t: Torrent, flat: seq<u8>, c: DiskCommand, before: seq<WriterEvent>, after: seq<WriterEvent>)
    requires t.WF() && |flat| == t.totalLength && c.ReadBlock? && c.index < |t.pieces|
  {
    && |after| == |before| + 1 && before <= after
    && after[|before|].Read? && after[|before|].peer == c.peer && after[|before|].index == c.index
    && after[|before|].begin == c.begin && IsSliceOf(t, flat, c.index, c.begin, c.length, after[|before|].data)
  }

  // ---------- Only what was asked for ----------

  datatype Ask = Ask(peer: Peer, index: nat, begin: nat, length: nat)

  // The step is a request that the hub has to serve: of an interested peer that
  // we do not choke, for a piece on disk, while not paused.
  ghost predicate Grants(h: HubState, step: Step) {
    && step.PeerRequests? && !h.paused
    && step.peer in h.peers && h.peers[step.peer].interested && !h.peers[step.peer].ourChoke
    && step.index in h.onDisk
  }

  ghost function Asked(states: seq<Sys>, steps: seq<Step>, k: nat): set<Ask>
    requires k <= |steps| && |states| == |steps| + 1
  {
    if k == 0 then {}
    else Asked(states, steps, k - 1) + AskOf(states[k - 1].hub, steps[k - 1])
  }

  ghost function AskOf(h: HubState, step: Step): set<Ask> {
    if Grants(h, step) then {Ask(step.peer, step.index, step.begin, step.length)} else {}
  }

  // What is to be read, was read, or was sent for a peer, the peer asked for.
  ghost predicate OnlyAsked(s: Sys, asked: set<Ask>) {
    && (forall c :: c in s.hub.toDisk && c.ReadBlock? ==> Ask(c.peer, c.index, c.begin, c.length) in asked)
    && (forall e :: e in s.acks && e.Read? && e.data.Some? ==> Ask(e.peer, e.index, e.begin, |e.data.value|) in asked)
    && SentAsked(s.hub, asked)
  }

  ghost predicate SentAsked(h: HubState, asked: set<Ask>) {
    forall p, m :: p in h.peers && m in PiecesSent(h.peers[p].sent) ==> Ask(p, m.index, m.begin, |m.block|) in asked
  }

  lemma PeerAsks(t: Torrent, s: Sys, step: Step, s': Sys, asked: set<Ask>)
    requires HubInv(t, s.hub) && PeerNext(t, s.hub, step, s'.hub) && s' == s.(hub := s'.hub) && OnlyAsked(s, asked)
    ensures OnlyAsked(s', asked + AskOf(s.hub, step))
  {
    if step.PeerBlock? {
      BlockEventKeeps(t, s.hub, step.peer, step.index, step.begin, step.data, s'.hub);
    } else if step.PeerRequests? {
      if step.peer in s.hub.peers {
        SendMore(s.hub.peers[step.peer].sent, [Disconnect]);
      }
    } else {
      PeerIsQuiet(t, s.hub, step, s'.hub);
    }
  }

  lemma AckAsks(t: Torrent, seed: bool, s: Sys, s': Sys, asked: set<Ask>)
    requires AckNext(t, seed, s, s') && OnlyAsked(s, asked)
    ensures OnlyAsked(s', asked)
  {
    assert s.acks[0] in s.acks;
    if s.acks[0].Read? && s.acks[0].data.Some? && s.acks[0].peer in s.hub.peers {
      var Read(peer, i, begin, data) := s.acks[0];
      var sent := s.hub.peers[peer].sent;
      assert PiecesSent(sent + [Send(Piece(i, begin, data.value))]) == PiecesSent(sent) + {Piece(i, begin, data.value)};
    }
  }

  lemma WriterAsks(t: Torrent, s: Sys, step: Step, s': Sys, asked: set<Ask>)
    requires t.WF() && |s.flat| == t.totalLength && WriterNext(t, s, step, s') && OnlyAsked(s, asked)
    ensures OnlyAsked(s', asked)
  {
    assert s.hub.toDisk != [] ==> s.hub.toDisk[0] in s.hub.toDisk;
  }

  lemma ReportAsks(t: Torrent, seed: bool, s: Sys, s': Sys, asked: set<Ask>)
    requires HubInv(t, s.hub) && ReportNext(t, seed, s, s') && OnlyAsked(s, asked)
    ensures OnlyAsked(s', asked)
  {
    if s.reports[0].CheckedAll? {
      RecheckDoneKeeps(t, s.hub, s'.hub);
    }
  }

  lemma NextAsks(t: Torrent, seed: bool, s: Sys, step: Step, s': Sys, asked: set<Ask>)
    requires HubInv(t, s.hub) && |s.flat| == t.totalLength && Next(t, seed, s, step, s') && OnlyAsked(s, asked)
    ensures OnlyAsked(s', asked + AskOf(s.hub, step))
  {
    if step.WriterBegins? || step.WriterEnds? || step.WriterReads? {
      WriterAsks(t, s, step, s', asked);
    } else if step.CheckPiece? || step.Report? {
    } else if step.HubTakesAck? {
      AckAsks(t, seed, s, s', asked);
    } else if step.HubTakesReport? {
      ReportAsks(t, seed, s, s', asked);
    } else {
      PeerAsks(t, s, step, s', asked);
    }
  }

  lemma OneStep(t: Torrent, seed: bool, states: seq<Sys>, steps: seq<Step>, k: nat)
    requires IsRun(t, seed, states, steps) && k < |steps|
    ensures HubInv(t, states[k].hub) && |states[k].flat| == t.totalLength
    ensures Next(t, seed, states[k], steps[k], states[k + 1])
  {
    RunIsSafe(t, seed, states, steps, k);
  }

  lemma {:induction false} RunAsks(t: Torrent, seed: bool, states: seq<Sys>, steps: seq<Step>, k: nat)
    requires IsRun(t, seed, states, steps) && k < |states|
    ensures OnlyAsked(states[k], Asked(states, steps, k))
  {
    if k > 0 {
      RunAsks(t, seed, states, steps, k - 1);
      OneStep(t, seed, states, steps, k - 1);
      NextAsks(t, seed, states[k - 1], steps[k - 1], states[k], Asked(states, steps, k - 1));
    }
  }

  lemma {:induction false} AskedBefore(states: seq<Sys>, steps: seq<Step>, k: nat, ask: Ask) returns (j: nat)
    requires k <= |steps| && |states| == |steps| + 1 && ask in Asked(states, steps, k)
    ensures j < k && Grants(states[j].hub, steps[j])
    ensures steps[j] == PeerRequests(ask.peer, ask.index, ask.begin, ask.length)
  {
    if ask in AskOf(states[k - 1].hub, steps[k - 1]) {
      j := k - 1;
    } else {
      j := AskedBefore(states, steps, k - 1, ask);
    }
  }

  // In every run, every block ever sent to a peer is a slice of bytes with the
  // hash of its piece, and just the slice the peer asked for at some step j,
  // being interested and not choked by us, when the piece was on disk.
  lemma RunServesVerified(t: Torrent, seed: bool, states: seq<Sys>, steps: seq<Step>, k: nat, p: Peer, m: Message)
    returns (j: nat)
    requires IsRun(t, seed, states, steps) && k < |states|
    requires p in states[k].hub.peers && m in PiecesSent(states[k].hub.peers[p].sent)
    ensures m.Piece? && m.index < |t.pieces| && exists whole :: IsSlice(t, m.index, whole, m.begin, m.block)
    ensures j < k && steps[j] == PeerRequests(p, m.index, m.begin, |m.block|) && Grants(states[j].hub, steps[j])
  {
    RunIsSafe(t, seed, states, steps, k);
    RunAsks(t, seed, states, steps, k);
    assert Authentic(t, m.index, m.begin, m.block);
    j := AskedBefore(states, steps, k, Ask(p, m.index, m.begin, |m.block|));
  }

  // ---------- Completion ----------

  // A session that does not seed is over when it would.
  ghost predicate SeedsOnPurpose(seed: bool, s: Sys) {
    s.status == Running && s.hub.phase == Seed ==> seed
  }

  lemma PeerPhase(t: Torrent, h: HubState, step: Step, h': HubState)
    requires HubInv(t, h) && PeerNext(t, h, step, h')
    ensures h'.phase == h.phase
  {
    if step.PeerBlock? {
      BlockEventKeeps(t, h, step.peer, step.index, step.begin, step.data, h');
    } else if !step.PeerRequests? {
      PeerIsQuiet(t, h, step, h');
    }
  }

  lemma NextSeedsOnPurpose(t: Torrent, seed: bool, s: Sys, step: Step, s': Sys)
    requires HubInv(t, s.hub) && |s.flat| == t.totalLength && Next(t, seed, s, step, s') && SeedsOnPurpose(seed, s)
    ensures SeedsOnPurpose(seed, s')
  {
    if step.HubTakesReport? || step.HubTakesAck? || step.WriterBegins? || step.WriterEnds? || step.WriterReads? {
    } else if step.CheckPiece? || step.Report? {
    } else {
      PeerPhase(t, s.hub, step, s'.hub);
    }
  }

  lemma {:induction false} RunSeedsOnPurpose(t: Torrent, seed: bool, states: seq<Sys>, steps: seq<Step>, k: nat)
    requires IsRun(t, seed, states, steps) && k < |states|
    ensures SeedsOnPurpose(seed, states[k])
  {
    if k > 0 {
      RunSeedsOnPurpose(t, seed, states, steps, k - 1);
      OneStep(t, seed, states, steps, k - 1);
      NextSeedsOnPurpose(t, seed, states[k - 1], steps[k - 1], states[k]);
    }
  }

  // Recheck and writes are over, and no piece is missing.
  ghost predicate AllIn(t: Torrent, s: Sys) {
    s.recheckDone && s.hub.pendingWrites == 0 && DoneSet(s.hub.pm.states) == Below(|t.pieces|)
  }

  // Pieces are complete exactly when they are on disk or on their way there;
  // completion is announced at most once, with every piece on disk; and it is
  // not lost: when all is in, a session that seeds is seeding, and one that
  // does not is over.
  lemma RunCompletes(t: Torrent, seed: bool, states: seq<Sys>, steps: seq<Step>, k: nat)
    requires IsRun(t, seed, states, steps) && k < |states|
    ensures var s := states[k];
            && (s.status != Failed ==> DoneSet(s.hub.pm.states) == s.hub.onDisk + SetOf(Pipeline(s))
                                       && s.hub.pendingWrites == |SetOf(Pipeline(s))|)
            && s.completions <= 1
            && (s.completions == 1 ==> s.hub.onDisk == Below(|t.pieces|))
            && (s.status == Finished ==> DoneSet(s.hub.pm.states) == Below(|t.pieces|))
            && (s.status == Running && s.hub.phase == Seed ==> seed)
            && (s.status == Running && AllIn(t, s) ==> seed && s.hub.phase == Seed)
  {
    RunIsSafe(t, seed, states, steps, k);
    RunSeedsOnPurpose(t, seed, states, steps, k);
    if states[k].status != Failed {
      DistinctSize(Pipeline(states[k]));
    }
  }

  // ---------- Bounds ----------

  // At every moment at most five blocks are on request from a peer, and at most
  // four peers may download from us.
  lemma RunBounds(t: Torrent, seed: bool, states: seq<Sys>, steps: seq<Step>, k: nat, p: Peer)
    requires IsRun(t, seed, states, steps) && k < |states|
    ensures var h := states[k].hub;
            |Own(h.pm, p)| <= 5 && Served(h) <= h.chokes.unchoked && |Served(h)| <= 4
  {
    RunIsSafe(t, seed, states, steps, k);
    AtMostFourServed(states[k].hub);
  }

  // No peer connects while blocks are on request from it: the address of an
  // incoming connection may be dialled as well.
  ghost predicate CleanConnects(states: seq<Sys>, steps: seq<Step>, k: nat)
    requires k <= |steps| && |states| == |steps| + 1
  {
    forall j: nat :: j < k && steps[j].PeerConnects? ==> Own(states[j].hub.pm, steps[j].peer) == {}
  }

  lemma PeerPolite(t: Torrent, h: HubState, step: Step, h': HubState)
    requires HubInv(t, h) && PeerNext(t, h, step, h') && Polite(h)
    ensures Polite(h') <==> (step.PeerConnects? ==> Own(h.pm, step.peer) == {})
  {
    if step.PeerBlock? {
      BlockEventKeeps(t, h, step.peer, step.index, step.begin, step.data, h');
    } else if step.PeerConnects? {
      ConnectedKeeps(t, h, step.peer, step.outbound);
    } else if !step.PeerRequests? {
      PeerIsQuiet(t, h, step, h');
    }
  }

  lemma NextPolite(t: Torrent, seed: bool, s: Sys, step: Step, s': Sys)
    requires HubInv(t, s.hub) && |s.flat| == t.totalLength && Next(t, seed, s, step, s') && Polite(s.hub)
    ensures Polite(s'.hub) <==> (step.PeerConnects? ==> Own(s.hub.pm, step.peer) == {})
  {
    if step.WriterBegins? || step.WriterEnds? || step.WriterReads? || step.CheckPiece? || step.Report? {
      assert s'.hub.pm == s.hub.pm && s'.hub.peers == s.hub.peers;
    } else if step.HubTakesAck? {
      AckPolite(t, seed, s, s');
    } else if step.HubTakesReport? {
      ReportPolite(t, seed, s, s');
    } else {
      PeerPolite(t, s.hub, step, s'.hub);
    }
  }

  lemma AckPolite(t: Torrent, seed: bool, s: Sys, s': Sys)
    requires HubInv(t, s.hub) && AckNext(t, seed, s, s') && Polite(s.hub)
    ensures Polite(s'.hub)
  {
    if s.acks[0].Read? && s.acks[0].data.Some? {
      UploadKeeps(t, s.hub, s.acks[0].peer, s.acks[0].index, s.acks[0].begin, s.acks[0].data.value);
    }
  }

  lemma ReportPolite(t: Torrent, seed: bool, s: Sys, s': Sys)
    requires HubInv(t, s.hub) && ReportNext(t, seed, s, s') && Polite(s.hub)
    ensures Polite(s'.hub)
  {
    if s.reports[0].CheckedAll? {
      RecheckDoneKeeps(t, s.hub, s'.hub);
    }
  }

  lemma {:induction false} PoliteWhileClean(t: Torrent, seed: bool, states: seq<Sys>, steps: seq<Step>, k: nat)
    requires IsRun(t, seed, states, steps) && k <= |steps| && CleanConnects(states, steps, k)
    ensures Polite(states[k].hub)
  {
    if k > 0 {
      PoliteWhileClean(t, seed, states, steps, k - 1);
      OneStep(t, seed, states, steps, k - 1);
      NextPolite(t, seed, states[k - 1], steps[k - 1], states[k]);
    }
  }

  // Up to any moment of a run no block has been on request from a peer that
  // chokes us or is gone, if and only if no peer has connected while blocks were
  // on request from it.
  lemma RunPoliteIff(t: Torrent, seed: bool, states: seq<Sys>, steps: seq<Step>, k: nat)
    requires IsRun(t, seed, states, steps) && k <= |steps|
    ensures (forall j: nat :: j <= k ==> Polite(states[j].hub)) <==> CleanConnects(states, steps, k)
  {
    if CleanConnects(states, steps, k) {
      forall j: nat | j <= k ensures Polite(states[j].hub) {
        PoliteWhileClean(t, seed, states, steps, j);
      }
    }
    if forall j: nat :: j <= k ==> Polite(states[j].hub) {
      forall j: nat | j < k && steps[j].PeerConnects? ensures Own(states[j].hub.pm, steps[j].peer) == {} {
        OneStep(t, seed, states, steps, j);
        assert Polite(states[j].hub) && Polite(states[j + 1].hub);
        NextPolite(t, seed, states[j], steps[j], states[j + 1]);
      }
    }
  }
}
