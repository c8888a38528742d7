/** What the piece manager does, as functions from state to state.
    A random choice of the program is an argument here; `LegalPick` says
    which values that argument may take. */
module PieceSpec {
  import opened Wrappers
  import opened Bytes
  import opened FiniteSets
  import opened Arithmetic

  /** A peer is known by its network address. */
  datatype SocketAddr = V4(ip: u32, port: u16) | V6(ip6: nat, port6: u16)
  type Peer = SocketAddr

  /** The info dictionary, as far as the download core reads it, and the hash
      function. */
  datatype Torrent = Torrent(pieceLength: nat, totalLength: nat, pieces: seq<Digest>, sha1: seq<u8> -> Digest) {
    // There are ceil(totalLength / pieceLength) pieces.
    ghost predicate WF() {
      && 0 < pieceLength
      && |pieces| <= U32_MAX
      && (if totalLength == 0 then |pieces| == 0
          else 0 < |pieces| && (|pieces| - 1) * pieceLength < totalLength <= |pieces| * pieceLength)
    }

    function Start(index: nat): nat {
      index * pieceLength
    }

    function PieceLen(index: nat): (len: nat)
      requires WF() && index < |pieces|
      ensures 0 < len <= pieceLength
      ensures Start(index) + len <= totalLength
      ensures index + 1 < |pieces| ==> len == pieceLength
      ensures index + 1 == |pieces| ==> Start(index) + len == totalLength
    {
      StartInside(index);
      if totalLength - Start(index) < pieceLength then totalLength - Start(index) else pieceLength
    }

    lemma StartInside(index: nat)
      requires WF() && index < |pieces|
      ensures Start(index) < totalLength
      ensures index + 1 < |pieces| ==> Start(index) + pieceLength <= totalLength
    {
      var last := |pieces| - 1;
      assert index * pieceLength <= last * pieceLength;
      if index < last {
        assert (index + 1) * pieceLength <= last * pieceLength;
        assert (index + 1) * pieceLength == index * pieceLength + pieceLength;
      }
    }
  }

  // Blocks are 16 KiB; the last block of a piece may be shorter.
  function BlockCount(len: nat): nat {
    CeilDiv(len, 16384)
  }

  function BlockStart(k: nat): nat {
    k * 16384
  }

  function BlockIndex(begin: nat): nat {
    begin / 16384
  }

  function BlockLen(len: nat, k: nat): nat {
    var left := if BlockStart(k) <= len then len - BlockStart(k) else 0;
    if left < 16384 then left else 16384
  }

  lemma BlockFits(len: nat, k: nat)
    requires k < BlockCount(len)
    ensures 0 < BlockLen(len, k) && BlockStart(k) + BlockLen(len, k) <= len
    ensures k + 1 < BlockCount(len) ==> BlockLen(len, k) == 16384
    ensures k + 1 == BlockCount(len) ==> BlockStart(k) + BlockLen(len, k) == len
  {
  }

  datatype Progress = Progress(received: seq<bool>, receivedCount: nat, data: Option<seq<u8>>)

  datatype PieceState = Missing | InProgress(prog: Progress) | Done

  type Key = (nat, nat)

  datatype BlockRequest = BlockRequest(piece: nat, begin: nat, length: nat) {
    function Key(): (nat, nat) {
      (piece, begin)
    }
  }

  datatype PieceEvent =
    | BlockStored
    | PieceCompleted(index: nat, data: seq<u8>)
    | PieceHashMismatch(index: nat)

  datatype EngineError = InvalidBlock(index: nat, begin: nat)

  datatype State = State(
    states: seq<PieceState>,
    rarity: seq<nat>,
    peerPieces: map<Peer, set<nat>>,
    inFlight: map<Peer, set<Key>>,
    pending: set<Key>,
    doneCount: nat)

  function Empty(blocks: nat): Progress {
    Progress(seq(blocks, _ => false), 0, None)
  }

  function Own(s: State, peer: Peer): set<Key> {
    if peer in s.inFlight then s.inFlight[peer] else {}
  }

  function DoneSet(states: seq<PieceState>): set<nat> {
    set i: nat | i < |states| && states[i].Done?
  }

  function Received(prog: Progress): set<nat> {
    set k: nat | k < |prog.received| && prog.received[k]
  }

  function Holders(peerPieces: map<Peer, set<nat>>, i: nat): set<Peer> {
    set p | p in peerPieces && i in peerPieces[p]
  }

  function Initial(t: Torrent): State {
    State(seq(|t.pieces|, _ => Missing), seq(|t.pieces|, _ => 0), map[], map[], {}, 0)
  }

  // ---------- The invariant ----------

  ghost predicate ProgressInv(t: Torrent, i: nat, prog: Progress)
    requires t.WF() && i < |t.pieces|
  {
    && |prog.received| == BlockCount(t.PieceLen(i))
    && prog.receivedCount == |Received(prog)| < |prog.received|
    && (prog.data.Some? <==> 0 < prog.receivedCount)
    && (prog.data.Some? ==> |prog.data.value| == t.PieceLen(i))
  }

  ghost predicate KeyInv(t: Torrent, states: seq<PieceState>, key: Key)
    requires t.WF() && |states| == |t.pieces|
  {
    && key.0 < |states|
    && !states[key.0].Missing?
    && BlockIndex(key.1) < BlockCount(t.PieceLen(key.0))
    && key.1 == BlockStart(BlockIndex(key.1))
  }

  ghost predicate Shape(t: Torrent, s: State) {
    && t.WF()
    && |s.states| == |s.rarity| == |t.pieces|
    && forall i: nat :: i < |s.states| && s.states[i].InProgress? ==> ProgressInv(t, i, s.states[i].prog)
  }

  ghost predicate Counts(s: State) {
    && s.doneCount == |DoneSet(s.states)|
    && (forall p :: p in s.peerPieces ==> s.peerPieces[p] <= Below(|s.rarity|))
  }

  // The rarity of a piece is the number of peers known to have it.
  ghost predicate RarityExact(s: State) {
    forall i: nat :: i < |s.rarity| ==> s.rarity[i] == |Holders(s.peerPieces, i)|
  }

  ghost predicate Flight(t: Torrent, s: State)
    requires Shape(t, s)
  {
    && (forall p, key :: p in s.inFlight && key in s.inFlight[p] ==> KeyInv(t, s.states, key))
    && (forall key :: key in s.pending ==> exists p :: p in s.inFlight && key in s.inFlight[p])
  }

  ghost predicate Inv(t: Torrent, s: State) {
    Shape(t, s) && Counts(s) && Flight(t, s)
  }

  // Every requested block has one holder, and `pending` lists just those.
  ghost predicate Exact(s: State) {
    && (forall p, q, key :: p in s.inFlight && q in s.inFlight && key in s.inFlight[p] && key in s.inFlight[q] ==> p == q)
    && (forall p, key :: p in s.inFlight && key in s.inFlight[p] ==> key in s.pending)
  }

  // ---------- Peers come, announce pieces, and go ----------

  // No piece of the peer is known.
  predicate Unmapped(s: State, peer: Peer) {
    peer !in s.peerPieces || s.peerPieces[peer] == {}
  }

  function OnPeerBitfield(s: State, peer: Peer, bf: set<nat>): State {
    s.(rarity := seq(|s.rarity|, i requires 0 <= i < |s.rarity| => if i in bf then s.rarity[i] + 1 else s.rarity[i]),
       peerPieces := s.peerPieces[peer := bf])
  }

  function OnPeerHave(s: State, peer: Peer, index: nat): State {
    if peer !in s.peerPieces || index in s.peerPieces[peer] || |s.rarity| <= index then s
    else s.(peerPieces := s.peerPieces[peer := s.peerPieces[peer] + {index}],
            rarity := s.rarity[index := s.rarity[index] + 1])
  }

  function Release(s: State, peer: Peer): State {
    if peer !in s.inFlight then s
    else s.(inFlight := s.inFlight[peer := {}], pending := s.pending - s.inFlight[peer])
  }

  function ForgetPieces(s: State, peer: Peer): State {
    if peer !in s.peerPieces then s
    else
      var bf := s.peerPieces[peer];
      s.(rarity := seq(|s.rarity|, i requires 0 <= i < |s.rarity| =>
           if i in bf && 0 < s.rarity[i] then s.rarity[i] - 1 else s.rarity[i]),
         peerPieces := s.peerPieces - {peer})
  }

  function OnPeerDisconnected(s: State, peer: Peer): State {
    var r := Release(ForgetPieces(s, peer), peer);
    r.(inFlight := r.inFlight - {peer})
  }

  // ---------- A block arrives ----------

  function DropRequest(s: State, peer: Peer, key: Key): State {
    s.(inFlight := if peer in s.inFlight then s.inFlight[peer := s.inFlight[peer] - {key}] else s.inFlight,
       pending := s.pending - {key})
  }

  function Store(t: Torrent, i: nat, prog: Progress, begin: nat, data: seq<u8>): Progress
    requires t.WF() && i < |t.pieces| && ProgressInv(t, i, prog)
    requires 0 < |data| && begin + |data| <= t.PieceLen(i)
  {
    var buf := if prog.data.Some? then prog.data.value else Zeros(t.PieceLen(i));
    Progress(prog.received[BlockIndex(begin) := true], prog.receivedCount + 1,
             Some(Patch(buf, begin, data)))
  }

  // A piece with one more block: it may be whole now, and pass the hash or not.
  function Settle(t: Torrent, i: nat, prog: Progress): (PieceState, PieceEvent)
    requires i < |t.pieces| && prog.data.Some?
  {
    if prog.receivedCount < |prog.received| then (InProgress(prog), BlockStored)
    else if t.sha1(prog.data.value) == t.pieces[i] then (Done, PieceCompleted(i, prog.data.value))
    else (InProgress(Empty(|prog.received|)), PieceHashMismatch(i))
  }

  function OnBlock(t: Torrent, s: State, peer: Peer, index: nat, begin: nat, data: seq<u8>)
    : (State, Result<PieceEvent, EngineError>)
    requires Shape(t, s)
  {
    var s1 := DropRequest(s, peer, (index, begin));
    if |data| == 0 || |s.states| <= index then (s1, Err(InvalidBlock(index, begin)))
    else if begin + |data| > t.PieceLen(index) then (s1, Err(InvalidBlock(index, begin)))
    else if !s.states[index].InProgress? then (s1, Ok(BlockStored))
    else
      var prog := s.states[index].prog;
      var k := BlockIndex(begin);
      if prog.received[k] then (s1, Ok(BlockStored))
      else if |data| != BlockLen(t.PieceLen(index), k) then (s1, Ok(BlockStored))
      else
        var (st, ev) := Settle(t, index, Store(t, index, prog, begin, data));
        (s1.(states := s1.states[index := st], doneCount := if st.Done? then s1.doneCount + 1 else s1.doneCount), Ok(ev))
  }

  function MarkVerified(s: State, index: nat): State {
    if index < |s.states| && !s.states[index].Done? then
      s.(states := s.states[index := Done], doneCount := s.doneCount + 1)
    else s
  }

  function IsComplete(t: Torrent, s: State): bool {
    s.doneCount == |t.pieces|
  }

  // ---------- Choosing the next block to request ----------

  ghost predicate Requestable(t: Torrent, i: nat)
    requires t.WF() && i < |t.pieces|
  {
    t.PieceLen(i) <= U32_MAX
  }

  // Block k of piece i has still to be received.
  ghost predicate Wanted(t: Torrent, s: State, i: nat, k: nat)
    requires Shape(t, s)
  {
    && i < |s.states|
    && match s.states[i]
       case Missing => k < BlockCount(t.PieceLen(i))
       case InProgress(prog) => k < |prog.received| && !prog.received[k]
       case Done => false
  }

  predicate FreeAt(s: State, i: nat, k: nat) {
    && i < |s.states|
    && s.states[i].InProgress?
    && k < |s.states[i].prog.received|
    && !s.states[i].prog.received[k]
    && (i, BlockStart(k)) !in s.pending
  }

  predicate DoubleAt(s: State, peer: Peer, i: nat, k: nat) {
    && i < |s.states|
    && s.states[i].InProgress?
    && k < |s.states[i].prog.received|
    && !s.states[i].prog.received[k]
    && (i, BlockStart(k)) in s.pending
    && (i, BlockStart(k)) !in Own(s, peer)
  }

  ghost predicate FirstFree(s: State, i: nat, k: nat) {
    FreeAt(s, i, k) && forall j: nat :: FreeAt(s, i, j) ==> k <= j
  }

  ghost predicate FirstDouble(s: State, peer: Peer, i: nat, k: nat) {
    DoubleAt(s, peer, i, k) && forall j: nat :: DoubleAt(s, peer, i, j) ==> k <= j
  }

  ghost predicate Offered(t: Torrent, s: State, bf: set<nat>, i: nat)
    requires Shape(t, s)
  {
    i < |s.states| && i in bf && Requestable(t, i)
  }

  ghost predicate Partial(t: Torrent, s: State, bf: set<nat>, i: nat)
    requires Shape(t, s)
  {
    Offered(t, s, bf, i) && exists k: nat :: FreeAt(s, i, k)
  }

  ghost predicate New(t: Torrent, s: State, bf: set<nat>, i: nat)
    requires Shape(t, s)
  {
    Offered(t, s, bf, i) && s.states[i].Missing?
  }

  ghost predicate Endgame(t: Torrent, s: State, peer: Peer, bf: set<nat>, i: nat)
    requires Shape(t, s)
  {
    Offered(t, s, bf, i) && exists k: nat :: DoubleAt(s, peer, i, k)
  }

  ghost predicate PartialPick(t: Torrent, s: State, bf: set<nat>, req: BlockRequest)
    requires Shape(t, s)
  {
    && Partial(t, s, bf, req.piece)
    && (forall j: nat :: Partial(t, s, bf, j) ==> s.rarity[req.piece] <= s.rarity[j])
    && FirstFree(s, req.piece, BlockIndex(req.begin))
  }

  ghost predicate NewPick(t: Torrent, s: State, bf: set<nat>, req: BlockRequest)
    requires Shape(t, s)
  {
    && New(t, s, bf, req.piece)
    && (forall j: nat :: New(t, s, bf, j) ==> s.rarity[req.piece] <= s.rarity[j])
    && req.begin == 0
  }

  ghost predicate EndgamePick(t: Torrent, s: State, peer: Peer, bf: set<nat>, req: BlockRequest)
    requires Shape(t, s)
  {
    && Offered(t, s, bf, req.piece)
    && FirstDouble(s, peer, req.piece, BlockIndex(req.begin))
  }

  // Some block can be had without asking for it twice.
  ghost predicate AnyPartial(t: Torrent, s: State, bf: set<nat>)
    requires Shape(t, s)
  {
    exists i: nat :: Partial(t, s, bf, i)
  }

  ghost predicate AnyNew(t: Torrent, s: State, bf: set<nat>)
    requires Shape(t, s)
  {
    exists i: nat :: New(t, s, bf, i)
  }

  ghost predicate LegalPick(t: Torrent, s: State, peer: Peer, bf: set<nat>, req: BlockRequest)
    requires Shape(t, s)
  {
    && req.begin == BlockStart(BlockIndex(req.begin))
    && req.piece < |s.states|
    && req.length == BlockLen(t.PieceLen(req.piece), BlockIndex(req.begin))
    && (if AnyPartial(t, s, bf) then PartialPick(t, s, bf, req)
        else if AnyNew(t, s, bf) then NewPick(t, s, bf, req)
        else EndgamePick(t, s, peer, bf, req))
  }

  ghost predicate NoPick(t: Torrent, s: State, peer: Peer, bf: set<nat>)
    requires Shape(t, s)
  {
    && !AnyPartial(t, s, bf)
    && !AnyNew(t, s, bf)
    && forall i: nat :: !Endgame(t, s, peer, bf, i)
  }

  function ApplyPick(t: Torrent, s: State, peer: Peer, req: BlockRequest): State
    requires Shape(t, s) && req.piece < |s.states|
  {
    s.(states := if s.states[req.piece].Missing?
                 then s.states[req.piece := InProgress(Empty(BlockCount(t.PieceLen(req.piece))))]
                 else s.states,
       inFlight := s.inFlight[peer := Own(s, peer) + {req.Key()}],
       pending := s.pending + {req.Key()})
  }

  function CancelTargets(s: State, key: Key, except: Peer): set<Peer> {
    set p | p in s.inFlight && p != except && key in s.inFlight[p]
  }
}
