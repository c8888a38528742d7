/** Runs of the session that show why its theorems say no more than they do. */
module SessionInputs {
  import opened Wrappers
  import opened Bytes
  import opened FiniteSets
  import opened PieceSpec
  import opened PieceInvariant
  import opened ChokeSpec
  import opened HubSpec
  import opened HubInvariant
  import opened Session
  import opened SessionProof

  // A torrent of one byte, 7, with a function that tells all contents apart.
  function OneByte(): Torrent {
    Torrent(1, 1, [[7]], (s: seq<u8>) => s)
  }

  lemma OneByteIs()
    ensures OneByte().WF() && OneByte().PieceLen(0) == 1 && OneByte().Start(0) == 0
    ensures BlockCount(1) == 1 && BlockLen(1, 0) == 1 && Requestable(OneByte(), 0)
  {
    assert OneByte().WF();
  }

  lemma Longer(states: seq<Sys>, steps: seq<Step>, step: Step, s': Sys) returns (states': seq<Sys>, steps': seq<Step>)
    requires IsRun(OneByte(), false, states, steps) && HubInv(OneByte(), states[|steps|].hub)
    requires |states[|steps|].flat| == 1 && Next(OneByte(), false, states[|steps|], step, s')
    ensures IsRun(OneByte(), false, states', steps') && states' == states + [s'] && steps' == steps + [step]
    ensures HubInv(OneByte(), s'.hub)
  {
    states', steps' := states + [s'], steps + [step];
    RunIsSafe(OneByte(), false, states', steps', |steps'|);
  }

  // ---------- A block on request ----------

  function Idle(h: HubState): Sys {
    Sys(h, [0], None, {}, {}, [], map[], 0, false, [], false, 0, Running)
  }

  // A peer has connected to us; it has said that it has the piece; it has let us
  // ask, and we asked.
  function Greeted(p: Peer, known: map<Peer, set<nat>>, rarity: nat, bf: set<nat>): HubState {
    HubState(State([Missing], [rarity], known, map[], {}, 0), map[p := Link(bf, false, false, true, [])],
             {}, 0, Recheck, false, ChokeState({}, 0), [])
  }

  function Asking(p: Peer): HubState {
    HubState(State([InProgress(Progress([false], 0, None))], [1], map[p := {0}], map[p := {(0, 0)}], {(0, 0)}, 0),
             map[p := Link({0}, true, false, true, [Send(Request(0, 0, 1))])],
             {}, 0, Recheck, false, ChokeState({}, 0), [])
  }

  lemma ConnectStep(p: Peer)
    requires HubInv(OneByte(), InitialHub(OneByte()))
    ensures PeerNext(OneByte(), InitialHub(OneByte()), PeerConnects(p, false), Greeted(p, map[], 0, {}))
  {
    OneByteIs();
    var h := Connected(OneByte(), InitialHub(OneByte()), p, false);
    assert h.pm.states == [Missing] && h.pm.rarity == [0];
    assert h.pm == Greeted(p, map[], 0, {}).pm;
    assert h.peers[p].sent == [];
    assert h.peers == map[p := Link({}, false, false, true, [])];
  }

  lemma BitfieldStep(p: Peer)
    requires HubInv(OneByte(), Greeted(p, map[], 0, {}))
    ensures PeerNext(OneByte(), Greeted(p, map[], 0, {}), PeerBitfield(p, Some({0})), Greeted(p, map[p := {0}], 1, {0}))
  {
    OneByteIs();
    assert 0 in Below(1);
    var h := Greeted(p, map[], 0, {});
    PeerBitfieldInv(OneByte(), h.pm, p, {0});
    assert OnPeerBitfield(h.pm, p, {0}) == Greeted(p, map[p := {0}], 1, {0}).pm;
  }

  lemma UnchokeStep(p: Peer)
    requires HubInv(OneByte(), Greeted(p, map[p := {0}], 1, {0}))
    ensures PeerNext(OneByte(), Greeted(p, map[p := {0}], 1, {0}), PeerUnchokes(p), Asking(p))
  {
    OneByteIs();
    var t, h := OneByte(), Greeted(p, map[p := {0}], 1, {0});
    var h1 := h.(peers := h.peers[p := h.peers[p].(unchoked := true)]);
    var req := BlockRequest(0, 0, 1);
    FirstRequest(p, h1.pm);
    OneMoreRequest(t, h1, p, [], h1, req);
    assert [] + [req] == [req];
    AskedInFull(p, h1);
    NothingLeft(p);
    assert Requests(t, h1, p, [req]) == Some(Asking(p));
  }

  lemma FirstRequest(p: Peer, s: State)
    requires s == State([Missing], [1], map[p := {0}], map[], {}, 0)
    ensures Inv(OneByte(), s) && LegalPick(OneByte(), s, p, {0}, BlockRequest(0, 0, 1))
  {
    OneByteIs();
    assert 0 in Below(1);
    assert DoneSet(s.states) == {};
    assert New(OneByte(), s, {0}, 0);
  }

  lemma AskedInFull(p: Peer, h: HubState)
    requires h == Greeted(p, map[p := {0}], 1, {0}).(peers := map[p := Link({0}, true, false, true, [])])
    requires Shape(OneByte(), h.pm)
    ensures SendRequest(OneByte(), h, p, BlockRequest(0, 0, 1)) == Asking(p)
  {
    OneByteIs();
    var pm := ApplyPick(OneByte(), h.pm, p, BlockRequest(0, 0, 1));
    assert Empty(BlockCount(OneByte().PieceLen(0))) == Progress([false], 0, None) by {
      assert Empty(1).received == [false];
    }
    assert pm.states == [InProgress(Progress([false], 0, None))];
    assert Own(h.pm, p) + {(0, 0)} == {(0, 0)} && pm.pending == {(0, 0)};
    assert pm == Asking(p).pm;
    assert CancelTargets(pm, (0, 0), p) == {};
    assert SayAll(h.peers, {}, CancelMsg(BlockRequest(0, 0, 1))) == h.peers;
    assert [] + [RequestMsg(BlockRequest(0, 0, 1))] == [RequestMsg(BlockRequest(0, 0, 1))];
  }

  lemma NothingLeft(p: Peer)
    ensures Inv(OneByte(), Asking(p).pm) && NoPick(OneByte(), Asking(p).pm, p, {0})
  {
    OneByteIs();
    var s := Asking(p).pm;
    assert 0 in Below(1);
    assert DoneSet(s.states) == {} && Received(Progress([false], 0, None)) == {};
    assert (0, 0) in s.inFlight[p] && KeyInv(OneByte(), s.states, (0, 0));
    forall i: nat, k: nat ensures !FreeAt(s, i, k) && !DoubleAt(s, p, i, k) {
      if i == 0 && k == 0 {
        assert (i, BlockStart(k)) == (0, 0);
      }
    }
  }

  // Three steps to a block on request.
  lemma AskedRun(p: Peer) returns (states: seq<Sys>, steps: seq<Step>)
    ensures IsRun(OneByte(), false, states, steps) && |steps| == 3
    ensures states[3] == Idle(Asking(p)) && steps[0] == PeerConnects(p, false) && HubInv(OneByte(), Asking(p))
  {
    OneByteIs();
    InitialHubInv(OneByte());
    states, steps := [Idle(InitialHub(OneByte()))], [];
    ConnectStep(p);
    states, steps := Longer(states, steps, PeerConnects(p, false), Idle(Greeted(p, map[], 0, {})));
    BitfieldStep(p);
    states, steps := Longer(states, steps, PeerBitfield(p, Some({0})), Idle(Greeted(p, map[p := {0}], 1, {0})));
    UnchokeStep(p);
    states, steps := Longer(states, steps, PeerUnchokes(p), Idle(Asking(p)));
  }

  // The same peer is dialled as well: its link chokes us, and still we have a
  // block on request.
  lemma DialledTwice(p: Peer) returns (states: seq<Sys>, steps: seq<Step>)
    ensures IsRun(OneByte(), false, states, steps) && |steps| == 4 && !Polite(states[4].hub)
    ensures steps[0] == PeerConnects(p, false) && steps[3] == PeerConnects(p, true)
  {
    states, steps := AskedRun(p);
    var h' := Connected(OneByte(), Asking(p), p, true);
    states, steps := Longer(states, steps, PeerConnects(p, true), Idle(h'));
    assert (0, 0) in h'.pm.inFlight[p] && !h'.peers[p].unchoked;
  }

  // ---------- A read of a piece whose write failed ----------

  function Whole(p: Peer, onDisk: set<nat>, link: Link, chokes: ChokeState, toDisk: seq<DiskCommand>): HubState {
    HubState(State([Done], [1], map[p := {0}], map[p := {}], {}, 1), map[p := link],
             onDisk, 1, Recheck, false, chokes, toDisk)
  }

  function Asker(): Link {
    Link({0}, true, false, true, [Send(Request(0, 0, 1))])
  }

  function Reader(): Link {
    Link({0}, true, true, false, [Send(Request(0, 0, 1)), Send(Unchoke)])
  }

  lemma WholeInv(p: Peer)
    ensures var pm := Whole(p, {}, Asker(), ChokeState({}, 0), []).pm;
            Inv(OneByte(), pm) && NoPick(OneByte(), pm, p, {0})
  {
    OneByteIs();
    assert 0 in Below(1);
    assert DoneSet([Done]) == {0};
  }

  lemma BlockStep(p: Peer)
    requires HubInv(OneByte(), Asking(p))
    ensures PeerNext(OneByte(), Asking(p), PeerBlock(p, 0, 0, [7]), Whole(p, {}, Asker(), ChokeState({}, 0), [WritePiece(0, [7])]))
  {
    OneByteIs();
    var t, h := OneByte(), Asking(p);
    LastBlock(p);
    var h1 := AfterBlock(h, OnBlock(t, h.pm, p, 0, 0, [7]).0, PieceCompleted(0, [7]));
    assert h1 == Whole(p, {}, Asker(), ChokeState({}, 0), [WritePiece(0, [7])]);
    WholeInv(p);
    assert Requests(t, h1, p, []) == Some(h1);
  }

  lemma LastBlock(p: Peer)
    requires Shape(OneByte(), Asking(p).pm)
    ensures OnBlock(OneByte(), Asking(p).pm, p, 0, 0, [7])
         == (Whole(p, {}, Asker(), ChokeState({}, 0), []).pm, Ok(PieceCompleted(0, [7])))
  {
    OneByteIs();
    var (s', r) := OnBlock(OneByte(), Asking(p).pm, p, 0, 0, [7]);
    var prog := Store(OneByte(), 0, Progress([false], 0, None), 0, [7]);
    assert prog.data == Some([7]) && prog.receivedCount == 1 && |prog.received| == 1;
    assert s'.states == [Done];
    assert {(0, 0)} - {(0, 0)} == {};
    assert s'.inFlight == map[p := {}] && s'.pending == {};
  }

  lemma InterestStep(p: Peer)
    requires HubInv(OneByte(), Whole(p, {0}, Asker(), ChokeState({}, 0), []))
    ensures PeerNext(OneByte(), Whole(p, {0}, Asker(), ChokeState({}, 0), []), PeerInterest(p, true),
                     Whole(p, {0}, Reader(), ChokeState({p}, 1), []))
  {
    var before := Whole(p, {0}, Asker(), ChokeState({}, 0), []);
    var h := Whole(p, {0}, Asker().(interested := true), ChokeState({}, 0), []);
    assert before.(peers := before.peers[p := before.peers[p].(interested := true)]) == h;
    assert InterestedPeers(h.peers) == {p} == SetOf([p]);
    assert Window([p], MAX_UNCHOKED, 0) == [p];
    assert IsOrderOf([p], InterestedPeers(h.peers));
    var h' := Rechoke(h, [p]);
    assert {p} - {} == {p} && {} - {p} == {};
    assert h'.chokes == ChokeState({p}, 1);
    assert Asker().sent + [Send(Unchoke)] == Reader().sent;
    assert h'.peers == map[p := Reader()];
    assert Rechoked(h, h');
  }

  // The writer has the piece in hand; the recheck has seen it whole.
  function Writing(p: Peer, h: HubState, checks: map<nat, bool>, reported: nat, reports: seq<RecheckEvent>): Sys {
    Sys(h, [0], Some((0, [7])), {0}, {}, [], checks, reported, false, reports, false, 0, Running)
  }

  lemma BeginStep(p: Peer, h: HubState)
    requires HubInv(OneByte(), h) && h.toDisk == [WritePiece(0, [7])]
    ensures Next(OneByte(), false, Idle(h), WriterBegins, Writing(p, h.(toDisk := []), map[], 0, []))
  {
    OneByteIs();
    assert {} + {0} == {0};
  }

  lemma CheckSteps(p: Peer, h: HubState)
    requires HubInv(OneByte(), h)
    ensures Next(OneByte(), false, Writing(p, h, map[], 0, []), CheckPiece(0, true), Writing(p, h, map[0 := true], 0, []))
    ensures Next(OneByte(), false, Writing(p, h, map[0 := true], 0, []), Report, Writing(p, h, map[0 := true], 1, [Checked(0, true)]))
  {
    OneByteIs();
    assert [] + [Checked(0, true)] == [Checked(0, true)];
  }

  lemma ReportStep(p: Peer, h: HubState)
    requires HubInv(OneByte(), h) && h.pm.states == [Done]
    ensures Next(OneByte(), false, Writing(p, h, map[0 := true], 1, [Checked(0, true)]), HubTakesReport,
                 Writing(p, h.(onDisk := h.onDisk + {0}), map[0 := true], 1, []))
  {
    OneByteIs();
    assert MarkVerified(h.pm, 0) == h.pm;
  }

  function Torn(p: Peer, toDisk: seq<DiskCommand>, acks: seq<WriterEvent>): Sys {
    Sys(Whole(p, {0}, Reader(), ChokeState({p}, 1), toDisk), [0], None, {0}, {0}, acks, map[0 := true], 1, false, [], false, 0, Running)
  }

  lemma RequestStep(p: Peer)
    requires HubInv(OneByte(), Whole(p, {0}, Reader(), ChokeState({p}, 1), []))
    ensures PeerNext(OneByte(), Whole(p, {0}, Reader(), ChokeState({p}, 1), []), PeerRequests(p, 0, 0, 1),
                     Whole(p, {0}, Reader(), ChokeState({p}, 1), [ReadBlock(p, 0, 0, 1)]))
  {
    OneByteIs();
    assert [] + [ReadBlock(p, 0, 0, 1)] == [ReadBlock(p, 0, 0, 1)];
  }

  lemma FailStep(p: Peer)
    requires HubInv(OneByte(), Whole(p, {0}, Reader(), ChokeState({p}, 1), [ReadBlock(p, 0, 0, 1)]))
    ensures Next(OneByte(), false,
                 Writing(p, Whole(p, {0}, Reader(), ChokeState({p}, 1), [ReadBlock(p, 0, 0, 1)]), map[0 := true], 1, []),
                 WriterEnds(false), Torn(p, [ReadBlock(p, 0, 0, 1)], [Wrote(0, false)]))
  {
    OneByteIs();
    assert {} + {0} == {0} && [] + [Wrote(0, false)] == [Wrote(0, false)];
  }

  lemma ReadStep(p: Peer)
    requires HubInv(OneByte(), Whole(p, {0}, Reader(), ChokeState({p}, 1), [ReadBlock(p, 0, 0, 1)]))
    ensures Next(OneByte(), false, Torn(p, [ReadBlock(p, 0, 0, 1)], [Wrote(0, false)]), WriterReads(true),
                 Torn(p, [], [Wrote(0, false), Read(p, 0, 0, Some([0]))]))
  {
    OneByteIs();
    assert [0][0..1] == [0];
    assert [ReadBlock(p, 0, 0, 1)][1..] == [];
    assert [Wrote(0, false)] + [Read(p, 0, 0, Some([0]))] == [Wrote(0, false), Read(p, 0, 0, Some([0]))];
  }

  // The recheck finds a piece that is just being written; a peer asks for it;
  // the write fails; and the writer reads bytes that do not have the hash. The
  // hub takes the failure first, and stops.
  lemma TornRead(p: Peer) returns (states: seq<Sys>, steps: seq<Step>)
    ensures IsRun(OneByte(), false, states, steps) && |steps| == 12 && steps[11] == WriterReads(true)
    ensures OneByte().WF() && |states[11].flat| == 1 && states[11].hub.toDisk == [ReadBlock(p, 0, 0, 1)]
    ensures !Good(OneByte(), states[11].flat, 0) && states[12].acks == [Wrote(0, false), Read(p, 0, 0, Some([0]))]
  {
    OneByteIs();
    states, steps := Wanting(p);
    states, steps := Reading(p, states, steps);
    assert [0][0..1] == [0];
  }

  lemma Wanting(p: Peer) returns (states: seq<Sys>, steps: seq<Step>)
    ensures IsRun(OneByte(), false, states, steps) && |steps| == 9
    ensures states[9] == Writing(p, Whole(p, {0}, Reader(), ChokeState({p}, 1), []), map[0 := true], 1, [])
    ensures HubInv(OneByte(), states[9].hub)
  {
    states, steps := AskedRun(p);
    BlockStep(p);
    states, steps := Longer(states, steps, PeerBlock(p, 0, 0, [7]),
                            Idle(Whole(p, {}, Asker(), ChokeState({}, 0), [WritePiece(0, [7])])));
    states, steps := Checking(p, states, steps);
    InterestStep(p);
    states, steps := Longer(states, steps, PeerInterest(p, true),
                            Writing(p, Whole(p, {0}, Reader(), ChokeState({p}, 1), []), map[0 := true], 1, []));
  }

  lemma Checking(p: Peer, states0: seq<Sys>, steps0: seq<Step>) returns (states: seq<Sys>, steps: seq<Step>)
    requires IsRun(OneByte(), false, states0, steps0) && |steps0| == 4
    requires states0[4] == Idle(Whole(p, {}, Asker(), ChokeState({}, 0), [WritePiece(0, [7])]))
    requires HubInv(OneByte(), states0[4].hub)
    ensures IsRun(OneByte(), false, states, steps) && |steps| == 8
    ensures states[8] == Writing(p, Whole(p, {0}, Asker(), ChokeState({}, 0), []), map[0 := true], 1, [])
    ensures HubInv(OneByte(), states[8].hub)
  {
    var h := Whole(p, {}, Asker(), ChokeState({}, 0), []);
    BeginStep(p, h.(toDisk := [WritePiece(0, [7])]));
    states, steps := Longer(states0, steps0, WriterBegins, Writing(p, h, map[], 0, []));
    CheckSteps(p, h);
    ReportStep(p, h);
    assert {} + {0} == {0};
    states, steps := Longer(states, steps, CheckPiece(0, true), Writing(p, h, map[0 := true], 0, []));
    states, steps := Longer(states, steps, Report, Writing(p, h, map[0 := true], 1, [Checked(0, true)]));
    states, steps := Longer(states, steps, HubTakesReport, Writing(p, h.(onDisk := {0}), map[0 := true], 1, []));
  }

  lemma Reading(p: Peer, states0: seq<Sys>, steps0: seq<Step>) returns (states: seq<Sys>, steps: seq<Step>)
    requires IsRun(OneByte(), false, states0, steps0) && |steps0| == 9
    requires states0[9] == Writing(p, Whole(p, {0}, Reader(), ChokeState({p}, 1), []), map[0 := true], 1, [])
    requires HubInv(OneByte(), states0[9].hub)
    ensures IsRun(OneByte(), false, states, steps) && |steps| == 12 && steps[11] == WriterReads(true)
    ensures states[11] == Torn(p, [ReadBlock(p, 0, 0, 1)], [Wrote(0, false)])
    ensures states[12] == Torn(p, [], [Wrote(0, false), Read(p, 0, 0, Some([0]))])
  {
    var h := Whole(p, {0}, Reader(), ChokeState({p}, 1), [ReadBlock(p, 0, 0, 1)]);
    RequestStep(p);
    states, steps := Longer(states0, steps0, PeerRequests(p, 0, 0, 1), Writing(p, h, map[0 := true], 1, []));
    FailStep(p);
    ReadStep(p);
    states, steps := Longer(states, steps, WriterEnds(false), Torn(p, [ReadBlock(p, 0, 0, 1)], [Wrote(0, false)]));
    states, steps := Longer(states, steps, WriterReads(true), Torn(p, [], [Wrote(0, false), Read(p, 0, 0, Some([0]))]));
  }
}
