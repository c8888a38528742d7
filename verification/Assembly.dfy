/** Putting a piece together, described without buffers: a piece keeps the
    first block that arrived for each block number since it was last started,
    and is complete when there is one for every number. */
module Assembly {
  import opened Wrappers
  import opened Bytes
  import opened FiniteSets
  import opened PieceSpec
  import opened PieceInvariant

  datatype Piece = Unstarted | Collecting(blocks: map<nat, seq<u8>>) | Finished

  function Concat(blocks: map<nat, seq<u8>>, n: nat): seq<u8> {
    if n == 0 then [] else Concat(blocks, n - 1) + (if n - 1 in blocks then blocks[n - 1] else [])
  }

  // What becomes of a piece with these blocks.
  function Verdict(t: Torrent, i: nat, blocks: map<nat, seq<u8>>): (Piece, PieceEvent)
    requires t.WF() && i < |t.pieces|
  {
    var whole := Concat(blocks, BlockCount(t.PieceLen(i)));
    if |blocks| < BlockCount(t.PieceLen(i)) then (Collecting(blocks), BlockStored)
    else if t.sha1(whole) == t.pieces[i] then (Finished, PieceCompleted(i, whole))
    else (Collecting(map[]), PieceHashMismatch(i))
  }

  function Collect(t: Torrent, i: nat, piece: Piece, k: nat, data: seq<u8>): (Piece, PieceEvent)
    requires t.WF() && i < |t.pieces|
  {
    if !piece.Collecting? || k in piece.blocks || |data| != BlockLen(t.PieceLen(i), k) then (piece, BlockStored)
    else Verdict(t, i, piece.blocks[k := data])
  }

  // The piece that a state of the piece manager stands for.
  ghost function Block(t: Torrent, i: nat, data: seq<u8>, k: nat): seq<u8>
    requires t.WF() && i < |t.pieces| && |data| == t.PieceLen(i) && k < BlockCount(|data|)
  {
    BlockFits(|data|, k);
    data[BlockStart(k)..BlockStart(k) + BlockLen(|data|, k)]
  }

  ghost function Blocks(t: Torrent, i: nat, received: set<nat>, data: Option<seq<u8>>): map<nat, seq<u8>>
    requires t.WF() && i < |t.pieces| && received <= Below(BlockCount(t.PieceLen(i)))
    requires received == {} || (data.Some? && |data.value| == t.PieceLen(i))
  {
    map k | k in received :: Block(t, i, data.value, k)
  }

  ghost function Abstract(t: Torrent, i: nat, st: PieceState): Piece
    requires t.WF() && i < |t.pieces|
    requires st.InProgress? ==> ProgressInv(t, i, st.prog)
  {
    match st
    case Missing => Unstarted
    case Done => Finished
    case InProgress(prog) => Collecting(Blocks(t, i, Received(prog), prog.data))
  }

  // Where block k of a piece begins, or the end of the piece.
  function Edge(len: nat, k: nat): (e: nat)
    ensures e <= len
  {
    if BlockStart(k) < len then BlockStart(k) else len
  }

  lemma EdgesInOrder(len: nat, k: nat)
    ensures Edge(len, k) <= Edge(len, k + 1)
  {
  }

  function Between(data: seq<u8>, k: nat): seq<u8> {
    EdgesInOrder(|data|, k);
    data[Edge(|data|, k)..Edge(|data|, k + 1)]
  }

  lemma BlockAtEdges(t: Torrent, i: nat, data: seq<u8>, k: nat)
    requires t.WF() && i < |t.pieces| && |data| == t.PieceLen(i) && k < BlockCount(|data|)
    ensures Block(t, i, data, k) == Between(data, k)
  {
    BlockFits(|data|, k);
  }

  lemma {:induction false} ConcatIsPrefix(data: seq<u8>, blocks: map<nat, seq<u8>>, n: nat)
    requires forall k: nat :: k < n ==> k in blocks && blocks[k] == Between(data, k)
    ensures Concat(blocks, n) == data[..Edge(|data|, n)]
    decreases n
  {
    if n > 0 {
      EdgesInOrder(|data|, n - 1);
      ConcatIsPrefix(data, blocks, n - 1);
      LongerPrefix(data, Edge(|data|, n - 1), Edge(|data|, n));
    }
  }

  lemma ConcatIsData(t: Torrent, i: nat, data: seq<u8>, blocks: map<nat, seq<u8>>)
    requires t.WF() && i < |t.pieces| && |data| == t.PieceLen(i)
    requires forall k: nat :: k < BlockCount(|data|) ==> k in blocks && blocks[k] == Block(t, i, data, k)
    ensures Concat(blocks, BlockCount(|data|)) == data
  {
    forall k: nat | k < BlockCount(|data|) ensures blocks[k] == Between(data, k) {
      BlockAtEdges(t, i, data, k);
    }
    ConcatIsPrefix(data, blocks, BlockCount(|data|));
    LongerPrefix(data, 0, |data|);
  }

  lemma LongerPrefix<T>(s: seq<T>, a: nat, b: nat)
    requires a <= b <= |s|
    ensures s[..a] + s[a..b] == s[..b] && s[..|s|] == s
  {
  }

  lemma BlocksApart(len: nat, j: nat, k: nat)
    requires j < BlockCount(len) && k < BlockCount(len) && j != k
    ensures BlockStart(j) + BlockLen(len, j) <= len && BlockStart(k) + BlockLen(len, k) <= len
    ensures BlockStart(j) + BlockLen(len, j) <= BlockStart(k) || BlockStart(k) + BlockLen(len, k) <= BlockStart(j)
  {
    BlockFits(len, j);
    BlockFits(len, k);
  }

  // Storing an aligned block leaves the bytes of all other blocks alone.
  lemma StoreElsewhere(t: Torrent, i: nat, prog: Progress, k: nat, data: seq<u8>, j: nat)
    requires t.WF() && i < |t.pieces| && ProgressInv(t, i, prog) && k < |prog.received|
    requires |data| == BlockLen(t.PieceLen(i), k) && 0 < |data| && BlockStart(k) + |data| <= t.PieceLen(i)
    requires j in Received(prog) && j != k && prog.data.Some?
    ensures Block(t, i, Store(t, i, prog, BlockStart(k), data).data.value, j) == Block(t, i, prog.data.value, j)
  {
    BlocksApart(t.PieceLen(i), j, k);
    PatchElsewhere(prog.data.value, BlockStart(k), data, BlockStart(j), BlockStart(j) + BlockLen(t.PieceLen(i), j));
  }

  lemma StoredBlock(t: Torrent, i: nat, prog: Progress, k: nat, data: seq<u8>)
    requires t.WF() && i < |t.pieces| && ProgressInv(t, i, prog) && k < |prog.received|
    requires |data| == BlockLen(t.PieceLen(i), k) && 0 < |data| && BlockStart(k) + |data| <= t.PieceLen(i)
    ensures Block(t, i, Store(t, i, prog, BlockStart(k), data).data.value, k) == data
  {
  }

  lemma StoreAbstract(t: Torrent, i: nat, prog: Progress, k: nat, data: seq<u8>)
    requires t.WF() && i < |t.pieces| && ProgressInv(t, i, prog) && k < |prog.received| && !prog.received[k]
    requires |data| == BlockLen(t.PieceLen(i), k) && 0 < |data| && BlockStart(k) + |data| <= t.PieceLen(i)
    ensures var stored := Store(t, i, prog, BlockStart(k), data);
            && |stored.data.value| == t.PieceLen(i) && |stored.received| == BlockCount(t.PieceLen(i))
            && Received(stored) == Received(prog) + {k}
            && Blocks(t, i, Received(prog), prog.data)[k := data] == Blocks(t, i, Received(stored), stored.data)
  {
    var stored := Store(t, i, prog, BlockStart(k), data);
    StoreInv(t, i, prog, BlockStart(k), data);
    StoredBlock(t, i, prog, k, data);
    forall j | j in Received(prog) ensures Block(t, i, stored.data.value, j) == Block(t, i, prog.data.value, j) {
      StoreElsewhere(t, i, prog, k, data, j);
    }
  }

  // The number of blocks collected, and their concatenation once all are in.
  lemma CollectedBlocks(t: Torrent, i: nat, prog: Progress)
    requires t.WF() && i < |t.pieces| && prog.data.Some? && |prog.data.value| == t.PieceLen(i)
    requires |prog.received| == BlockCount(t.PieceLen(i))
    requires Received(prog) <= Below(|prog.received|)
    ensures var blocks := Blocks(t, i, Received(prog), prog.data);
            && |blocks| == |Received(prog)| <= |prog.received|
            && (|blocks| == |prog.received| ==> Concat(blocks, |prog.received|) == prog.data.value)
  {
    var blocks := Blocks(t, i, Received(prog), prog.data);
    assert blocks.Keys == Received(prog);
    assert |blocks| == |blocks.Keys|;
    ReceivedAll(prog);
    if |blocks| == |prog.received| {
      forall k: nat | k < |prog.received| ensures k in blocks && blocks[k] == Block(t, i, prog.data.value, k) {
        assert k in Received(prog);
      }
      ConcatIsData(t, i, prog.data.value, blocks);
    }
  }

  lemma SettleAbstract(t: Torrent, i: nat, stored: Progress)
    requires t.WF() && i < |t.pieces| && stored.data.Some? && |stored.data.value| == t.PieceLen(i)
    requires 0 < stored.receivedCount == |Received(stored)| <= |stored.received| == BlockCount(t.PieceLen(i))
    ensures Received(stored) <= Below(|stored.received|)
    ensures var (st, ev) := Settle(t, i, stored);
            && (st.InProgress? ==> ProgressInv(t, i, st.prog))
            && (Abstract(t, i, st), ev) == Verdict(t, i, Blocks(t, i, Received(stored), stored.data))
  {
    CollectedBlocks(t, i, stored);
    if stored.receivedCount == |stored.received| && t.sha1(stored.data.value) != t.pieces[i] {
      EmptyProgress(t, i);
      assert Received(Empty(|stored.received|)) == {};
      assert Blocks(t, i, {}, None) == map[];
    }
  }

  lemma SettleRefines(t: Torrent, i: nat, prog: Progress, k: nat, data: seq<u8>)
    requires t.WF() && i < |t.pieces| && ProgressInv(t, i, prog) && k < |prog.received| && !prog.received[k]
    requires |data| == BlockLen(t.PieceLen(i), k) && 0 < |data| && BlockStart(k) + |data| <= t.PieceLen(i)
    ensures var (st, ev) := Settle(t, i, Store(t, i, prog, BlockStart(k), data));
            && (st.InProgress? ==> ProgressInv(t, i, st.prog))
            && (Abstract(t, i, st), ev) == Collect(t, i, Abstract(t, i, InProgress(prog)), k, data)
  {
    StoreInv(t, i, prog, BlockStart(k), data);
    StoreAbstract(t, i, prog, k, data);
    SettleAbstract(t, i, Store(t, i, prog, BlockStart(k), data));
  }

  // An aligned block that fits its piece does to the buffers what it does to
  // the abstract piece, and touches no other piece.
  lemma BlockRefines(t: Torrent, s: State, peer: Peer, index: nat, begin: nat, data: seq<u8>)
    requires Inv(t, s) && begin == BlockStart(BlockIndex(begin))
    requires 0 < |data| && index < |s.states| && begin + |data| <= t.PieceLen(index)
    ensures var (s', ev) := OnBlock(t, s, peer, index, begin, data);
            && |s'.states| == |s.states|
            && (s'.states[index].InProgress? ==> ProgressInv(t, index, s'.states[index].prog))
            && ev.Ok?
            && (Abstract(t, index, s'.states[index]), ev.value)
                 == Collect(t, index, Abstract(t, index, s.states[index]), BlockIndex(begin), data)
            && forall j: nat :: j < |s.states| && j != index ==> s'.states[j] == s.states[j]
  {
    var (s', ev) := OnBlock(t, s, peer, index, begin, data);
    var k := BlockIndex(begin);
    if s.states[index].InProgress? && !s.states[index].prog.received[k] && |data| == BlockLen(t.PieceLen(index), k) {
      SettleRefines(t, index, s.states[index].prog, k, data);
    }
  }
}

/** Pieces over whole runs: what was assembled is what a reference assembler,
    fed with the same operations, has assembled. */
module AssemblyRuns {
  import opened Wrappers
  import opened Bytes
  import opened PieceSpec
  import opened PieceInvariant
  import opened PieceTheorems
  import opened Assembly
  import opened FiniteSets

  // A block that lies inside its piece; others are refused.
  predicate Inside(t: Torrent, i: nat, begin: nat, data: seq<u8>)
    requires t.WF() && i < |t.pieces|
  {
    data != [] && begin + |data| <= t.PieceLen(i)
  }

  // What one operation does to piece i of the reference assembler.
  function Assemble(t: Torrent, i: nat, piece: Piece, op: Op): Piece
    requires t.WF() && i < |t.pieces|
  {
    match op
    case Pick(_, _, req) => if req.piece == i && piece.Unstarted? then Collecting(map[]) else piece
    case Verified(index) => if index == i then Finished else piece
    case Block(_, index, begin, data) =>
      if index == i && Inside(t, i, begin, data) then Collect(t, i, piece, BlockIndex(begin), data).0 else piece
    case _ => piece
  }

  function Assembled(t: Torrent, i: nat, ops: seq<Op>): Piece
    requires t.WF() && i < |t.pieces|
  {
    if ops == [] then Unstarted
    else Assemble(t, i, Assembled(t, i, ops[..|ops| - 1]), ops[|ops| - 1])
  }

  // Blocks for piece i start where a block starts.
  ghost predicate Aligned(i: nat, op: Op) {
    op.Block? && op.index == i ==> op.begin == BlockStart(BlockIndex(op.begin))
  }

  lemma PickAssembles(t: Torrent, i: nat, s: State, peer: Peer, bf: set<nat>, req: BlockRequest)
    requires Inv(t, s) && i < |t.pieces| && LegalPick(t, s, peer, bf, req)
    ensures var s' := ApplyPick(t, s, peer, req);
            && (s'.states[i].InProgress? ==> ProgressInv(t, i, s'.states[i].prog))
            && Abstract(t, i, s'.states[i]) == Assemble(t, i, Abstract(t, i, s.states[i]), Pick(peer, bf, req))
  {
    EmptyAbstract(t, i);
  }

  // A piece just started has no blocks.
  lemma EmptyAbstract(t: Torrent, i: nat)
    requires t.WF() && i < |t.pieces|
    ensures var prog := Empty(BlockCount(t.PieceLen(i)));
            ProgressInv(t, i, prog) && Abstract(t, i, InProgress(prog)) == Collecting(map[])
  {
    EmptyProgress(t, i);
    assert Received(Empty(BlockCount(t.PieceLen(i)))) == {};
    assert Blocks(t, i, {}, None) == map[];
  }

  lemma BlockAssembles(t: Torrent, i: nat, s: State, peer: Peer, index: nat, begin: nat, data: seq<u8>)
    requires Inv(t, s) && i < |t.pieces| && Aligned(i, Block(peer, index, begin, data))
    ensures var s' := OnBlock(t, s, peer, index, begin, data).0;
            && |s'.states| == |s.states|
            && (s'.states[i].InProgress? ==> ProgressInv(t, i, s'.states[i].prog))
            && Abstract(t, i, s'.states[i]) == Assemble(t, i, Abstract(t, i, s.states[i]), Block(peer, index, begin, data))
  {
    if index == i && Inside(t, i, begin, data) {
      BlockRefines(t, s, peer, index, begin, data);
    }
  }

  lemma StepAssembles(t: Torrent, i: nat, s: State, op: Op)
    requires Inv(t, s) && Allowed(t, s, op) && i < |t.pieces| && Aligned(i, op)
    ensures Abstract(t, i, Step(t, s, op).states[i]) == Assemble(t, i, Abstract(t, i, s.states[i]), op)
  {
    match op {
      case Pick(peer, bf, req) => PickAssembles(t, i, s, peer, bf, req);
      case Block(peer, index, begin, data) => BlockAssembles(t, i, s, peer, index, begin, data);
      case _ =>
    }
  }

  // After every run a piece is what the reference assembler made of it.
  lemma {:induction false} RunAssembles(t: Torrent, i: nat, ops: seq<Op>)
    requires t.WF() && i < |t.pieces| && Run(t, ops).Some? && forall op :: op in ops ==> Aligned(i, op)
    ensures Abstract(t, i, Run(t, ops).value.states[i]) == Assembled(t, i, ops)
  {
    if ops != [] {
      var last := |ops| - 1;
      assert forall op :: op in ops[..last] ==> op in ops;
      RunAssembles(t, i, ops[..last]);
      StepAssembles(t, i, Run(t, ops[..last]).value, ops[last]);
    }
  }

  lemma CollectCompletes(t: Torrent, i: nat, piece: Piece, k: nat, data: seq<u8>, whole: seq<u8>)
    requires t.WF() && i < |t.pieces| && Collect(t, i, piece, k, data).1 == PieceCompleted(i, whole)
    ensures piece.Collecting? && k !in piece.blocks
    ensures var blocks := piece.blocks[k := data];
            var n := BlockCount(t.PieceLen(i));
            n <= |blocks| && whole == Concat(blocks, n) && t.sha1(whole) == t.pieces[i]
  {
  }

  // Blocks have the numbers and the lengths of the blocks of the piece.
  ghost predicate BlocksFit(t: Torrent, i: nat, blocks: map<nat, seq<u8>>)
    requires t.WF() && i < |t.pieces|
  {
    forall k :: k in blocks ==> k < BlockCount(t.PieceLen(i)) && |blocks[k]| == BlockLen(t.PieceLen(i), k)
  }

  lemma {:induction false} AssembledFits(t: Torrent, i: nat, ops: seq<Op>)
    requires t.WF() && i < |t.pieces|
    ensures Assembled(t, i, ops).Collecting? ==> BlocksFit(t, i, Assembled(t, i, ops).blocks)
  {
    if ops != [] {
      AssembledFits(t, i, ops[..|ops| - 1]);
    }
  }

  lemma AllBlocks(t: Torrent, i: nat, blocks: map<nat, seq<u8>>)
    requires t.WF() && i < |t.pieces| && BlocksFit(t, i, blocks) && BlockCount(t.PieceLen(i)) <= |blocks|
    ensures blocks.Keys == Below(BlockCount(t.PieceLen(i)))
  {
    assert |blocks| == |blocks.Keys|;
    FullSize(blocks.Keys, BlockCount(t.PieceLen(i)));
  }

  // The data of a piece completed at the end of any run is the concatenation of
  // the first block that was accepted for each number since it was last started;
  // there is one for every number.
  lemma CompletedIsAssembled(t: Torrent, i: nat, ops: seq<Op>, peer: Peer, begin: nat, data: seq<u8>, whole: seq<u8>)
    requires t.WF() && i < |t.pieces| && Run(t, ops).Some? && forall op :: op in ops ==> Aligned(i, op)
    requires begin == BlockStart(BlockIndex(begin))
    requires OnBlock(t, Run(t, ops).value, peer, i, begin, data).1 == Ok(PieceCompleted(i, whole))
    ensures Assembled(t, i, ops).Collecting? && BlockIndex(begin) !in Assembled(t, i, ops).blocks
    ensures var blocks := Assembled(t, i, ops).blocks[BlockIndex(begin) := data];
            var n := BlockCount(t.PieceLen(i));
            blocks.Keys == Below(n) && whole == Concat(blocks, n) && t.sha1(whole) == t.pieces[i]
  {
    var piece, k := Assembled(t, i, ops), BlockIndex(begin);
    assert Inside(t, i, begin, data) && Collect(t, i, piece, k, data).1 == PieceCompleted(i, whole) by {
      RunAssembles(t, i, ops);
      BlockRefines(t, Run(t, ops).value, peer, i, begin, data);
    }
    CollectCompletes(t, i, piece, k, data, whole);
    AssembledFits(t, i, ops);
    AllBlocks(t, i, piece.blocks[k := data]);
  }
}

/** Blocks that start anywhere: the buffer of a piece is what the accepted blocks
    leave when they are laid one over the other. */
module Placement {
  import opened Wrappers
  import opened Bytes
  import opened PieceSpec
  import opened PieceInvariant
  import opened PieceTheorems
  import opened Assembly
  import opened AssemblyRuns
  import opened FiniteSets

  datatype Placed = Placed(begin: nat, data: seq<u8>)

  /** The blocks accepted since the piece was last started, in their order. */
  datatype Log = Fresh | Open(blocks: seq<Placed>) | Closed

  function Laid(len: nat, blocks: seq<Placed>): (bytes: seq<u8>)
    ensures |bytes| == len
  {
    if blocks == [] then Zeros(len)
    else
      var last := blocks[|blocks| - 1];
      var under := Laid(len, blocks[..|blocks| - 1]);
      if last.begin + |last.data| <= len then Patch(under, last.begin, last.data) else under
  }

  function Numbers(blocks: seq<Placed>): set<nat> {
    set b | b in blocks :: BlockIndex(b.begin)
  }

  function Accept(t: Torrent, i: nat, log: Log, begin: nat, data: seq<u8>): (Log, PieceEvent)
    requires t.WF() && i < |t.pieces|
  {
    if !log.Open? || BlockIndex(begin) in Numbers(log.blocks) || |data| != BlockLen(t.PieceLen(i), BlockIndex(begin)) then
      (log, BlockStored)
    else
      var blocks := log.blocks + [Placed(begin, data)];
      var whole := Laid(t.PieceLen(i), blocks);
      if |blocks| < BlockCount(t.PieceLen(i)) then (Open(blocks), BlockStored)
      else if t.sha1(whole) == t.pieces[i] then (Closed, PieceCompleted(i, whole))
      else (Open([]), PieceHashMismatch(i))
  }

  function Record(t: Torrent, i: nat, log: Log, op: Op): Log
    requires t.WF() && i < |t.pieces|
  {
    match op
    case Pick(_, _, req) => if req.piece == i && log.Fresh? then Open([]) else log
    case Verified(index) => if index == i then Closed else log
    case Block(_, index, begin, data) =>
      if index == i && Inside(t, i, begin, data) then Accept(t, i, log, begin, data).0 else log
    case _ => log
  }

  function Recorded(t: Torrent, i: nat, ops: seq<Op>): Log
    requires t.WF() && i < |t.pieces|
  {
    if ops == [] then Fresh else Record(t, i, Recorded(t, i, ops[..|ops| - 1]), ops[|ops| - 1])
  }

  // The piece manager has just what the log says.
  ghost predicate Stands(t: Torrent, i: nat, st: PieceState, log: Log)
    requires t.WF() && i < |t.pieces|
  {
    match st
    case Missing => log == Fresh
    case Done => log == Closed
    case InProgress(prog) =>
      && log.Open? && Received(prog) == Numbers(log.blocks) && prog.receivedCount == |log.blocks|
      && prog.data == if log.blocks == [] then None else Some(Laid(t.PieceLen(i), log.blocks))
  }

  lemma OneMoreLaid(len: nat, blocks: seq<Placed>, begin: nat, data: seq<u8>)
    requires begin + |data| <= len
    ensures Laid(len, blocks + [Placed(begin, data)]) == Patch(Laid(len, blocks), begin, data)
    ensures Numbers(blocks + [Placed(begin, data)]) == Numbers(blocks) + {BlockIndex(begin)}
  {
    assert (blocks + [Placed(begin, data)])[..|blocks|] == blocks;
  }

  lemma StoreLays(t: Torrent, i: nat, prog: Progress, log: Log, begin: nat, data: seq<u8>)
    requires t.WF() && i < |t.pieces| && ProgressInv(t, i, prog) && Stands(t, i, InProgress(prog), log)
    requires 0 < |data| && begin + |data| <= t.PieceLen(i) && !prog.received[BlockIndex(begin)]
    ensures var p' := Store(t, i, prog, begin, data);
            var blocks := log.blocks + [Placed(begin, data)];
            && Received(p') == Numbers(blocks) && p'.receivedCount == |blocks| && |p'.received| == BlockCount(t.PieceLen(i))
            && p'.data == Some(Laid(t.PieceLen(i), blocks))
  {
    StoreInv(t, i, prog, begin, data);
    OneMoreLaid(t.PieceLen(i), log.blocks, begin, data);
  }

  lemma SettleLays(t: Torrent, i: nat, prog: Progress, log: Log, begin: nat, data: seq<u8>)
    requires t.WF() && i < |t.pieces| && ProgressInv(t, i, prog) && Stands(t, i, InProgress(prog), log)
    requires 0 < |data| && begin + |data| <= t.PieceLen(i) && !prog.received[BlockIndex(begin)]
    requires |data| == BlockLen(t.PieceLen(i), BlockIndex(begin))
    ensures var (st, ev) := Settle(t, i, Store(t, i, prog, begin, data));
            Stands(t, i, st, Accept(t, i, log, begin, data).0) && ev == Accept(t, i, log, begin, data).1
  {
    StoreLays(t, i, prog, log, begin, data);
    assert BlockIndex(begin) !in Received(prog);
    EmptyLays(t, i);
  }

  // One block, wherever it starts and whoever sends it.
  lemma BlockLays(t: Torrent, s: State, peer: Peer, i: nat, begin: nat, data: seq<u8>, log: Log)
    requires Inv(t, s) && i < |t.pieces| && Inside(t, i, begin, data) && Stands(t, i, s.states[i], log)
    ensures var (s', r) := OnBlock(t, s, peer, i, begin, data);
            && |s'.states| == |s.states| && Stands(t, i, s'.states[i], Accept(t, i, log, begin, data).0)
            && r == Ok(Accept(t, i, log, begin, data).1)
  {
    if s.states[i].InProgress? {
      var prog := s.states[i].prog;
      assert BlockIndex(begin) in Received(prog) <==> prog.received[BlockIndex(begin)];
      if Acceptable(t, s, i, begin, data) {
        SettleLays(t, i, prog, log, begin, data);
      }
    }
  }

  lemma OtherBlock(t: Torrent, s: State, peer: Peer, index: nat, begin: nat, data: seq<u8>, i: nat)
    requires Inv(t, s) && i < |t.pieces| && (index != i || !Inside(t, i, begin, data))
    ensures var s' := OnBlock(t, s, peer, index, begin, data).0; |s'.states| == |s.states| && s'.states[i] == s.states[i]
  {
  }

  lemma PickLays(t: Torrent, i: nat, s: State, peer: Peer, bf: set<nat>, req: BlockRequest, log: Log)
    requires Inv(t, s) && i < |t.pieces| && LegalPick(t, s, peer, bf, req) && Stands(t, i, s.states[i], log)
    ensures var s' := ApplyPick(t, s, peer, req);
            |s'.states| == |s.states| && Stands(t, i, s'.states[i], Record(t, i, log, Pick(peer, bf, req)))
  {
    EmptyLays(t, i);
  }

  lemma EmptyLays(t: Torrent, i: nat)
    requires t.WF() && i < |t.pieces|
    ensures Stands(t, i, InProgress(Empty(BlockCount(t.PieceLen(i)))), Open([]))
  {
    assert Received(Empty(BlockCount(t.PieceLen(i)))) == {} == Numbers([]);
  }

  lemma StepLays(t: Torrent, i: nat, s: State, op: Op, log: Log)
    requires Inv(t, s) && Allowed(t, s, op) && i < |t.pieces| && Stands(t, i, s.states[i], log)
    ensures Stands(t, i, Step(t, s, op).states[i], Record(t, i, log, op))
  {
    match op {
      case Pick(peer, bf, req) => PickLays(t, i, s, peer, bf, req, log);
      case Block(peer, index, begin, data) =>
        if index == i && Inside(t, i, begin, data) {
          BlockLays(t, s, peer, i, begin, data, log);
        } else {
          OtherBlock(t, s, peer, index, begin, data, i);
        }
      case _ =>
    }
  }

  // After every run, with blocks that start anywhere, a piece is what its log
  // says.
  lemma {:induction false} RunLays(t: Torrent, i: nat, ops: seq<Op>)
    requires t.WF() && i < |t.pieces| && Run(t, ops).Some?
    ensures Stands(t, i, Run(t, ops).value.states[i], Recorded(t, i, ops))
  {
    if ops != [] {
      var last := |ops| - 1;
      RunLays(t, i, ops[..last]);
      StepLays(t, i, Run(t, ops[..last]).value, ops[last], Recorded(t, i, ops[..last]));
    }
  }

  // What byte p is under these blocks: that of the last one that covers it.
  lemma {:induction false} LaidAt(len: nat, blocks: seq<Placed>, k: nat, p: nat)
    requires k < |blocks| && blocks[k].begin <= p < blocks[k].begin + |blocks[k].data| && blocks[k].begin + |blocks[k].data| <= len
    requires forall j :: k < j < |blocks| ==> !(blocks[j].begin <= p < blocks[j].begin + |blocks[j].data|)
    ensures Laid(len, blocks)[p] == blocks[k].data[p - blocks[k].begin]
  {
    var last := |blocks| - 1;
    if k < last {
      LaidAt(len, blocks[..last], k, p);
    }
  }

  lemma CompletedLog(t: Torrent, i: nat, s: State, peer: Peer, begin: nat, data: seq<u8>, log: Log, whole: seq<u8>)
    requires Inv(t, s) && i < |t.pieces| && Stands(t, i, s.states[i], log)
    requires OnBlock(t, s, peer, i, begin, data).1 == Ok(PieceCompleted(i, whole))
    ensures log.Open?
    ensures var blocks := log.blocks + [Placed(begin, data)];
            && whole == Laid(t.PieceLen(i), blocks) && t.sha1(whole) == t.pieces[i]
            && Numbers(blocks) == Below(BlockCount(t.PieceLen(i))) && |blocks| == BlockCount(t.PieceLen(i))
  {
    InsideIfCompleted(t, s, peer, i, begin, data, whole);
    BlockLays(t, s, peer, i, begin, data, log);
    AcceptCompletes(t, i, log, begin, data, whole);
    AllNumbers(t, i, s.states[i].prog, log, begin, data);
  }

  lemma InsideIfCompleted(t: Torrent, s: State, peer: Peer, i: nat, begin: nat, data: seq<u8>, whole: seq<u8>)
    requires Inv(t, s) && i < |t.pieces| && OnBlock(t, s, peer, i, begin, data).1 == Ok(PieceCompleted(i, whole))
    ensures Inside(t, i, begin, data) && s.states[i].InProgress? && !s.states[i].prog.received[BlockIndex(begin)]
  {
  }

  lemma AcceptCompletes(t: Torrent, i: nat, log: Log, begin: nat, data: seq<u8>, whole: seq<u8>)
    requires t.WF() && i < |t.pieces| && Accept(t, i, log, begin, data).1 == PieceCompleted(i, whole)
    ensures log.Open?
    ensures var blocks := log.blocks + [Placed(begin, data)];
            whole == Laid(t.PieceLen(i), blocks) && t.sha1(whole) == t.pieces[i] && BlockCount(t.PieceLen(i)) <= |blocks|
  {
  }

  // The data of a piece completed after any run is what the accepted blocks
  // leave; there was one for every number, and none was accepted twice. Where
  // they start at whole blocks, it is their concatenation.
  lemma CompletedIsLaid(t: Torrent, i: nat, ops: seq<Op>, peer: Peer, begin: nat, data: seq<u8>, whole: seq<u8>)
    requires t.WF() && i < |t.pieces| && Run(t, ops).Some?
    requires OnBlock(t, Run(t, ops).value, peer, i, begin, data).1 == Ok(PieceCompleted(i, whole))
    ensures Recorded(t, i, ops).Open?
    ensures var blocks := Recorded(t, i, ops).blocks + [Placed(begin, data)];
            && whole == Laid(t.PieceLen(i), blocks) && t.sha1(whole) == t.pieces[i]
            && Numbers(blocks) == Below(BlockCount(t.PieceLen(i))) && |blocks| == BlockCount(t.PieceLen(i))
    ensures (forall op :: op in ops ==> Aligned(i, op)) && begin == BlockStart(BlockIndex(begin)) ==>
              && Assembled(t, i, ops).Collecting?
              && whole == Concat(Assembled(t, i, ops).blocks[BlockIndex(begin) := data], BlockCount(t.PieceLen(i)))
  {
    RunLays(t, i, ops);
    CompletedLog(t, i, Run(t, ops).value, peer, begin, data, Recorded(t, i, ops), whole);
    if (forall op :: op in ops ==> Aligned(i, op)) && begin == BlockStart(BlockIndex(begin)) {
      CompletedIsAssembled(t, i, ops, peer, begin, data, whole);
    }
  }

  lemma AllNumbers(t: Torrent, i: nat, prog: Progress, log: Log, begin: nat, data: seq<u8>)
    requires t.WF() && i < |t.pieces| && ProgressInv(t, i, prog) && Stands(t, i, InProgress(prog), log)
    requires 0 < |data| && begin + |data| <= t.PieceLen(i) && !prog.received[BlockIndex(begin)]
    requires BlockCount(t.PieceLen(i)) <= |log.blocks| + 1
    ensures var blocks := log.blocks + [Placed(begin, data)];
            Numbers(blocks) == Below(BlockCount(t.PieceLen(i))) && |blocks| == BlockCount(t.PieceLen(i))
  {
    StoreInv(t, i, prog, begin, data);
    StoreLays(t, i, prog, log, begin, data);
    FullSize(Received(Store(t, i, prog, begin, data)), BlockCount(t.PieceLen(i)));
  }
}
