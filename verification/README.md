# A model of the download core of rust-torrent

rust-torrent is a BitTorrent engine in Rust. This project models, in Dafny, the
parts of it that everything else relies on, and proves what they promise.

* **The session** (`Session.dfy`, `SessionProof.dfy`, `SessionRuns.dfy`,
  `SessionInputs.dfy`): the hub, the disk writer that takes its commands first in,
  first out, and the recheck of the data already on disk, as one state machine.
  Every step of every part may come at any time; peers may send anything. Proved
  over all runs: that a peer is served verified bytes only, and just those it asked
  for, when a download counts as complete, that nothing is counted twice or lost,
  and that the phase only moves forward.
* **The hub** (`HubSpec.dfy`, `HubInvariant.dfy`, `Hub.dfy`): each handler as a
  method of a class, proved against a relation between states. **The piece
  manager** (`PieceSpec.dfy`, `PieceInvariant.dfy`, `PieceTheorems.dfy`,
  `Assembly.dfy`, `PieceManager.dfy`): rarity counters, requests in flight,
  the three-stage picker, and the assembly of pieces.
* **Choking** (`Choke.dfy`), **storage** over many files (`Storage.dfy`), and
  **peer exchange** (`Pex.dfy`).
* **Bencode** (`BencodeSpec.dfy`, `BencodeTheorems.dfy`, `BencodeDecode.dfy`,
  `Bencode.dfy`): the grammar as functions, the parser with its cursors and the
  encoder with its buffer as methods. **The peer wire** (`WireSpec.dfy`,
  `PeerWire.dfy`, `Bitfield.dfy`). **The metadata exchange** of magnet links
  (`MetadataSpec.dfy`, `Magnet.dfy`).
* **The hash table** (`XorMetric.dfy`, `Nodes.dfy`, `RoutingSpec.dfy`,
  `Routing.dfy`, `LookupSpec.dfy`, `LookupTheorems.dfy`, `Lookup.dfy`): the
  Kademlia routing table and the iterative search.

## How it is modelled

What the program keeps in an object it updates is a class here; its methods are
proved equal to functions (or, where the program's choice is free, to relations)
on the state, and the theorems are lemmas about those. `Wrappers.dfy` holds the
shared vocabulary.

* SHA-1 is an arbitrary function, a field of the torrent. Random choices and the
  order of hash maps are free: a claim holds for every choice.
* A torrent is well formed: it has as many hashes as its length demands. A peer
  may be dialled while it is connected, and events of it may come at any time, from
  either connection or after both are gone. In the model of the peer exchange an
  address joins only when it is not connected.
* The session takes the files of the torrent as one run of bytes. `Storage.dfy`
  proves that they are, whatever was on disk before, if and only if no entry but
  an empty one shares its path with a later one; the code does not check it.
* Indices, offsets and lengths are unbounded; as in the code, blocks are requested
  only of pieces whose length fits 32 bits. The cursor of the choke manager is a
  64-bit word and wraps.
* Failing reads and writes, deadlines and the network are inputs. A search of
  the hash table is given, for each round, the sends that fail and whatever
  arrives before the deadline.
* Bytes are numbers below 256; bit operations are written with division, as in
  `BitfieldSpec.Low`. A node id is its 20 bytes, a distance the pair of the XOR
  of the first 16 and of the last 4.
* Where the code does not do what one would expect, the code is followed, and
  lemmas say exactly when the expected property holds, and show an input for which
  it fails: blocks that nobody requested are taken (`TakenIff`,
  `UnrequestedIsTaken`), so that the books of requests can differ
  (`ExactIffOrderly`, `OtherPeerAnswers`); a peer that is dialled while it is
  connected has blocks on request though its new link chokes us (`RunPoliteIff`,
  `DialledTwice`), and its pieces count twice (`RarityIffAnnounced`,
  `CountedTwice`); entries with one path share a file (`PatchIffSeparate`,
  `OnePathTwice`); the bencode decoder takes dictionaries with keys out of order
  (`ReencodeIffOrdered`, `UnorderedIsAccepted`); the routing table keeps the old
  address of a node that moved (`UpsertStores`, `OldAddressStays`), and `replace`
  does not check where the new node belongs (`ReplaceKeepsIff`,
  `ReplaceBySelfBreaks`); two candidates of a search at one address can both be
  asked (`AskedTwiceIff`, `AlwaysTwiceIff`, `OneAddressTwice`); an address that
  comes and goes between two flushes of the peer exchange is reported both ways
  (`FlushAgreesIff`, `StaleAddress`); at the wrap of its cursor, choking can skip
  a peer (`EveryoneGetsATurnIff`, `WrapSkips`).

## Model

| member | source | states |
|---|---|---|
| `PieceSpec.Torrent.PieceLen` | crates/engine/src/piece_manager.rs:310-313 | Every piece length is positive and at most `piece_length`; the pieces lie end to end and end at `total_length` |
| `PieceSpec.BlockFits` | crates/engine/src/piece_manager.rs:461-473 | The blocks of a piece lie end to end, 16 KiB each but the last, and end with the piece |
| `PieceInvariant.InitialInv` | crates/engine/src/piece_manager.rs:86-98 | A new manager satisfies the invariant |
| `PieceInvariant.PeerBitfieldInv` | crates/engine/src/piece_manager.rs:130-137 | A bitfield keeps the invariant, whoever sends it and when; where `rarity[i]` is the number of peers known to have piece i, it stays so if and only if no piece of that peer was known |
| `PieceInvariant.PeerHaveInv` | crates/engine/src/piece_manager.rs:140-152 | So does a Have: repeated, of an unknown peer or out of range, it changes nothing |
| `PieceInvariant.ReleaseInv` | crates/engine/src/piece_manager.rs:155-161 | Releasing a peer keeps the invariant, leaves the peer without requests, and keeps requests single-owner if they were |
| `PieceInvariant.PeerDisconnectedInv` | crates/engine/src/piece_manager.rs:164-174 | A disconnected peer leaves neither pieces nor requests behind; exact counters stay exact |
| `PieceInvariant.DropRequestInv` | crates/engine/src/piece_manager.rs:189-193 | Taking one request off keeps every pending block in the in-flight set of some peer; where requests were single-owner they stay so if and only if nobody but this peer had it on request |
| `PieceInvariant.StoreInv` | crates/engine/src/piece_manager.rs:220-231 | A stored block is one more received block, the buffer keeps the length of the piece |
| `PieceInvariant.OnBlockInv` | crates/engine/src/piece_manager.rs:182-254 | Any block from any peer, requested or not, keeps the invariant: the number of complete pieces exact, `pending` within the in-flight sets, keys aligned and of started pieces only |
| `PieceInvariant.MarkVerifiedInv` | crates/engine/src/piece_manager.rs:263-269 | Marking a piece verified keeps the invariant, whatever state it was in |
| `PieceInvariant.PickIsWanted` | crates/engine/src/piece_manager.rs:322-423 | What is picked is a block not yet received of a piece the peer has, inside that piece |
| `PieceInvariant.PickIsDouble` | crates/engine/src/piece_manager.rs:112-127 | A block in `pending` is picked exactly when no started or new piece offered has a free block, and then it is not one of the peer's own requests |
| `PieceInvariant.ApplyPickInv` | crates/engine/src/piece_manager.rs:112-127 | Recording a pick keeps the invariant; requests stay single-owner if and only if the block was not on request |
| `PieceTheorems.NoStarvation` | crates/engine/src/piece_manager.rs:112-127 | The picker gives a peer nothing if and only if every block still missing from the pieces it offers is on request from that same peer |
| `PieceTheorems.PickDecreases` | crates/engine/src/piece_manager.rs:322-423 | Every pick, even one repeating the peer's own request, decreases the number of needed blocks outside `pending` plus those outside the peer's own set |
| `PieceTheorems.CompletedOnce` | crates/engine/src/piece_manager.rs:182-254 | A piece is handed over only if it was not complete before, whole and with the right hash; no other event changes the set of complete pieces |
| `PieceTheorems.DoneStays` | crates/engine/src/piece_manager.rs:112-269 | No operation takes a piece out of the complete ones |
| `PieceTheorems.CompletedAtMostOnce` | crates/engine/src/piece_manager.rs:182-254 | Over any run of any operations, `PieceCompleted` comes at most once per piece |
| `PieceTheorems.ExactIffOrderly` | crates/engine/src/piece_manager.rs:112-254 | All along a run the in-flight sets are pairwise disjoint and `pending` is exactly their union, if and only if no block is requested while it is on request and none arrives from one peer while it is on request from others alone |
| `PieceTheorems.OtherPeerAnswers` | crates/engine/src/piece_manager.rs:112-193 | A run in which it fails: a block arrives from another peer than the one asked |
| `PieceTheorems.RarityIffAnnounced` | crates/engine/src/piece_manager.rs:130-174 | All along a run `rarity[i]` is the number of peers known to have piece i, if and only if no peer sends a bitfield while pieces of it are known |
| `PieceTheorems.CountedTwice` | crates/engine/src/piece_manager.rs:130-137 | Two bitfields of one peer, as input |
| `PieceTheorems.TakenIff` | crates/engine/src/piece_manager.rs:182-254 | A block is taken if and only if its piece is started, it lies inside it, its number was not received and it has the length of that block: who was asked for it, and who sends it, plays no part |
| `PieceTheorems.UnrequestedIsTaken` | crates/engine/src/piece_manager.rs:182-254 | A run after which nothing is on request from anyone, and a block that is taken all the same |
| `Assembly.ConcatIsData` | crates/engine/src/piece_manager.rs:227-237 | The blocks of a full buffer concatenate to the buffer |
| `Assembly.StoreElsewhere` | crates/engine/src/piece_manager.rs:227-231 | Storing an aligned block changes no byte of another block |
| `Assembly.SettleRefines` | crates/engine/src/piece_manager.rs:227-253 | Completing or failing a piece agrees with the reference assembler, which knows no buffers |
| `Placement.BlockLays` | crates/engine/src/piece_manager.rs:182-254 | A block, wherever it starts, does to the piece what it does to the log of accepted blocks: the first for each number since the last start is laid over those before it |
| `Placement.RunLays` | crates/engine/src/piece_manager.rs:112-269 | After any run of any operations, a piece is what its log says |
| `Placement.LaidAt` | crates/engine/src/piece_manager.rs:227-230 | Where blocks overlap, the last one laid counts |
| `Placement.CompletedIsLaid` | crates/engine/src/piece_manager.rs:227-242 | At the end of any run, the data of a completed piece is what the accepted blocks leave, one for every number since the piece was last started, and has its hash; where they start at multiples of 16 KiB it is their concatenation |
| `PieceManagement.PieceManager.constructor` | crates/engine/src/piece_manager.rs:86-98 | Starts in the initial state of the specification |
| `PieceManagement.PieceManager.OnPeerBitfield` | crates/engine/src/piece_manager.rs:130-137 | New state is the specified one, invariant kept |
| `PieceManagement.PieceManager.OnPeerHave` | crates/engine/src/piece_manager.rs:140-152 | New state is the specified one, invariant kept |
| `PieceManagement.PieceManager.ReleaseInFlight` | crates/engine/src/piece_manager.rs:155-161 | New state is the specified one, invariant kept |
| `PieceManagement.PieceManager.OnPeerDisconnected` | crates/engine/src/piece_manager.rs:164-174 | New state is the specified one, invariant kept |
| `PieceManagement.PieceManager.OnBlockReceived` | crates/engine/src/piece_manager.rs:182-254 | New state and event are the specified ones, for valid, late, duplicate, unaligned and malformed blocks alike |
| `PieceManagement.PieceManager.IsComplete` | crates/engine/src/piece_manager.rs:257-259 | True exactly when every piece is complete |
| `PieceManagement.PieceManager.MarkVerified` | crates/engine/src/piece_manager.rs:263-269 | New state is the specified one, invariant kept |
| `PieceManagement.PieceManager.InFlightCount` | crates/engine/src/piece_manager.rs:293-295 | The number of blocks on request from the peer |
| `PieceManagement.PieceManager.FreeBlock` | crates/engine/src/piece_manager.rs:322-342 | The first block of a started piece that is neither received nor on request, or nothing if there is none |
| `PieceManagement.PieceManager.PickRarest` | crates/engine/src/piece_manager.rs:445-450 | One of the candidates of least rarity; nothing only without candidates |
| `PieceManagement.PieceManager.PickPartial` | crates/engine/src/piece_manager.rs:346-356 | A block of a rarest started piece with a free block; nothing exactly if there is no such piece |
| `PieceManagement.PieceManager.PickNew` | crates/engine/src/piece_manager.rs:360-377 | Block 0 of a rarest untouched piece, which is started; nothing exactly if there is no such piece |
| `PieceManagement.PieceManager.PickEndgame` | crates/engine/src/piece_manager.rs:381-423 | A block on request from others but not from this peer; nothing exactly if there is none |
| `PieceManagement.PieceManager.NextBlockRequest` | crates/engine/src/piece_manager.rs:112-127 | The three stages in order; what is returned is a legal pick and recorded, and nothing is returned only when no stage has a block |
| `PieceManagement.PieceManager.CancelTargets` | crates/engine/src/piece_manager.rs:298-305 | Exactly the other peers that have the block on request |
| `ChokeSpec.DiffIsExact` | crates/engine/src/choke.rs:49-69 | The decision turns the old unchoked set into the new one, repeats nothing, and the new set holds at most `max_unchoked` of the interested |
| `ChokeSpec.EveryoneGetsATurnIff` | crates/engine/src/choke.rs:49-69 | For a fixed list of n distinct peers and limit m, each peer is unchoked within the next k = ceil(n/m) calls if and only if the cursor does not wrap before the last of them starts or n + 2^64 mod n peers fit into k windows |
| `ChokeSpec.NobodyWaitsLonger` | crates/engine/src/choke.rs:49-69 | Wherever the cursor stands, wrapping or not, each of them is unchoked within 2 * ceil(n/m) calls |
| `ChokeSpec.WrapSkips` | crates/engine/src/choke.rs:35-61 | A new manager can come to miss that: of three peers, one at a time, one is not unchoked in three calls |
| `ChokeSpec.InWindow` | crates/engine/src/choke.rs:49-60 | A peer at a position covered by the window is chosen |
| `Choking.ChokeManager.constructor` | crates/engine/src/choke.rs:35-41 | Nobody is unchoked at first |
| `Choking.ChokeManager.Recompute` | crates/engine/src/choke.rs:49-69 | New state and decision are the specified ones |
| `StorageSpec.JoinOverlay` | crates/engine/src/storage.rs:103-126 | Writing each file its part of the data is writing the data to the concatenation of the files |
| `StorageSpec.OverlayAppend` | crates/engine/src/storage.rs:103-126 | A write across a boundary splits into a write to each side |
| `StorageSpec.OverlayIsPatch` | crates/engine/src/storage.rs:103-126 | Within bounds, such a write replaces exactly `[start, end)` |
| `StorageSpec.JoinAt` | crates/engine/src/storage.rs:53-99 | File i stands in the concatenation at the sum of the lengths before it |
| `FileTheorems.LastDecides` | crates/engine/src/storage.rs:53-99 | Opened on a disk of any contents, a file has the length of the last entry with its path |
| `FileTheorems.OpenIsFull` | crates/engine/src/storage.rs:53-99 | So where paths are separate, every file has the length of its entry |
| `FileTheorems.PutIsPatch` | crates/engine/src/storage.rs:103-126 | Writing each file its part, extending or not, replaces `[start, end)` of the concatenation and nothing else, where paths are separate |
| `FileTheorems.GetIsSlice` | crates/engine/src/storage.rs:166-192 | Filling each file's part of a zeroed buffer gives the slice of the concatenation, zero past the end |
| `FileTheorems.PatchIffSeparate` | crates/engine/src/storage.rs:53-126 | Every write to the opened files replaces its range of the concatenation and nothing else, on any disk, if and only if no entry but an empty one shares its path with a later one |
| `FileTheorems.SharedFile` | crates/engine/src/storage.rs:53-126 | With a non-empty entry that does, some write to its first byte changes more, or the files are no concatenation at all |
| `FileTheorems.OnePathTwice` | crates/engine/src/storage.rs:53-126 | Two entries of one byte with one path, as input |
| `Storage.FileSystem.CreatePreallocated` | crates/engine/src/storage.rs:226-235 | The file is opened or created, its contents kept, and brought to the length |
| `Storage.FileSystem.WriteAll` | crates/engine/src/storage.rs:112-124 | The bytes are written in place; past the end, the file grows |
| `Storage.FileSystem.ReadExactAt` | crates/engine/src/storage.rs:168-189 | Fills the part of the buffer, or fails at the end of the file |
| `Storage.DiskStorage.constructor` | crates/engine/src/storage.rs:53-99 | The entries are opened in turn; if their paths are separate, they lie end to end with the given lengths |
| `Storage.DiskStorage.WriteSlice` | crates/engine/src/storage.rs:112-124 | One file gets exactly the bytes of the range that are its own |
| `Storage.DiskStorage.ReadSlice` | crates/engine/src/storage.rs:168-189 | One file fills exactly the part of the output that it holds, or the read fails |
| `Storage.DiskStorage.WritePiece` | crates/engine/src/storage.rs:103-126 | Fails, changing nothing, exactly if it would run past the end; otherwise the files change as specified, whatever they are, and where they are whole their concatenation changes in `[start, end)` to the data and nowhere else |
| `Storage.DiskStorage.ReadRange` | crates/engine/src/storage.rs:166-192 | What the files hold, or the error at a file too short; where they are whole, the slice of the concatenation, across any number of file boundaries, zero past the end |
| `Storage.DiskStorage.ReadPiece` | crates/engine/src/storage.rs:130-137 | What the files hold of the piece, shorter for the last one, or the error at a file too short; where they are whole, the slice of the piece |
| `Storage.DiskStorage.ReadBlock` | crates/engine/src/storage.rs:144-162 | Fails on an empty block or one that does not fit its piece; otherwise what the files hold of it, or the error at a file too short; where they are whole, the slice asked for |
| `HubInvariant.AtMostFourServed` | crates/engine/src/session.rs:2326-2346 | The peers that may download from us are within the choke manager's set, at most four |
| `HubInvariant.SendRequestKeeps` | crates/engine/src/session.rs:2418-2442 | One more request keeps the invariant of the hub, at most five blocks per peer, and leaves none at a peer that chokes us |
| `HubInvariant.RefilledKeeps` | crates/engine/src/session.rs:2402-2444 | Refilling keeps it, and sends nothing but requests and cancels |
| `HubInvariant.RefilledAllKeeps` | crates/engine/src/session.rs:2266-2285 | So does greeting and refilling every peer in any order |
| `HubInvariant.ConnectedKeeps` | crates/engine/src/session.rs:1604-1646 | So does a new link, to a connected peer even; it leaves requests at a peer that chokes us if and only if some were on request from it |
| `HubInvariant.BitfieldKeeps` | crates/engine/src/session.rs:1844-1869 | So does a bitfield, good or bad, of any peer at any time |
| `HubInvariant.HaveKeeps` | crates/engine/src/session.rs:1870-1877 | So does a Have |
| `HubInvariant.ChokeKeeps` | crates/engine/src/session.rs:1878-1886 | So does a choke, after which the peer holds no request |
| `HubInvariant.UnchokeKeeps` | crates/engine/src/session.rs:1887-1892 | So does an unchoke |
| `HubInvariant.RechokeKeeps` | crates/engine/src/session.rs:2326-2346 | Recomputing chokes keeps the links we serve within the manager's set |
| `HubInvariant.InterestKeeps` | crates/engine/src/session.rs:1893-1905 | So does a change of interest |
| `HubInvariant.BlockEventKeeps` | crates/engine/src/session.rs:1912-1942 | So does a block, whatever it completes |
| `HubInvariant.DisconnectedKeeps` | crates/engine/src/session.rs:1949-1958 | So does the end of a connection |
| `HubInvariant.RecheckKeeps` | crates/engine/src/session.rs:1741-1752 | A checked piece keeps it, and becomes complete if verified |
| `HubInvariant.RecheckDoneKeeps` | crates/engine/src/session.rs:1753-1773 | The end of the recheck keeps it, and moves to seeding exactly if all pieces are complete |
| `HubInvariant.ResumeKeeps` | crates/engine/src/session.rs:2349-2354 | So does resuming |
| `Hubs.Hub.constructor` | crates/engine/src/session.rs:641-894 | The hub starts in the recheck phase with nothing known |
| `Hubs.Hub.RequestOne` | crates/engine/src/session.rs:2418-2442 | One round of the refill loop: a legal pick is recorded, cancelled with the others and sent, and the measure decreases; or the picker has nothing |
| `Hubs.Hub.Refill` | crates/engine/src/session.rs:2402-2444 | Ends, with the pipeline full or nothing left to pick; paused, choked and unknown peers are left alone |
| `Hubs.Hub.RefillAll` | crates/engine/src/session.rs:2266-2285 | Greets and refills every peer once, in whatever order |
| `Hubs.Hub.OnPeerConnected` | crates/engine/src/session.rs:1604-1646 | New state is the specified one, invariant kept |
| `Hubs.Hub.OnPeerBitfield` | crates/engine/src/session.rs:1844-1869 | New state is among the specified ones, invariant kept |
| `Hubs.Hub.OnPeerHave` | crates/engine/src/session.rs:1870-1877 | New state is the specified one, invariant kept |
| `Hubs.Hub.OnPeerChoke` | crates/engine/src/session.rs:1878-1886 | New state is the specified one; the peer holds no request |
| `Hubs.Hub.OnPeerUnchoke` | crates/engine/src/session.rs:1887-1892 | New state is among the specified ones, invariant kept |
| `Hubs.Hub.RecomputeChokes` | crates/engine/src/session.rs:2326-2346 | New state is the specified one for some order of the interested peers |
| `Hubs.Hub.OnPeerInterest` | crates/engine/src/session.rs:1893-1905 | New state is among the specified ones, invariant kept |
| `Hubs.Hub.OnRequest` | crates/engine/src/session.rs:2358-2399 | Queues a read only for an interested, unchoked peer, a sound range and a piece on disk; a bad range ends the connection |
| `Hubs.Hub.OnPeerBlock` | crates/engine/src/session.rs:1912-1942 | New state is among the specified ones; a completed piece is queued for writing and counted |
| `Hubs.Hub.OnPeerDisconnected` | crates/engine/src/session.rs:1949-1958 | New state is the specified one, invariant kept |
| `Hubs.Hub.OnDiskWritten` | crates/engine/src/session.rs:1701-1716 | New state is the specified one; true exactly if all pieces are complete and no write is outstanding |
| `Hubs.Hub.OnBlockRead` | crates/engine/src/session.rs:1717-1740 | The block goes to the peer if it is still there |
| `Hubs.Hub.OnPieceChecked` | crates/engine/src/session.rs:1741-1752 | New state is the specified one, invariant kept |
| `Hubs.Hub.OnAllChecked` | crates/engine/src/session.rs:1753-1773 | New state is among the specified ones; the session is over exactly if all is there and it does not seed |
| `Hubs.Hub.OnResumed` | crates/engine/src/session.rs:2349-2354 | New state is among the specified ones, invariant kept |
| `SessionProof.InitKeeps` | crates/engine/src/session.rs:946-983 | The system starts in its invariant |
| `SessionProof.BlockKeeps` | crates/engine/src/session.rs:1912-1942 | A block event keeps the accounting: a completed piece is new and enters the pipeline to the disk once |
| `SessionProof.AckAccounted` | crates/engine/src/session.rs:1701-1716 | An acknowledgement takes one piece off the pipeline and never makes the counter negative |
| `SessionProof.WriterBeginsKeeps` | crates/engine/src/session.rs:2497-2515 | While a piece is being written its bytes are arbitrary, and the invariant holds |
| `SessionProof.WriterEndsKeeps` | crates/engine/src/session.rs:2497-2515 | A finished write leaves the piece with the right hash; a failed one is remembered |
| `SessionProof.WriterReadsKeeps` | crates/engine/src/session.rs:2516-2540 | A read keeps the invariant |
| `SessionProof.ReadsAreVerified` | crates/engine/src/session.rs:2516-2540 | Whenever the writer reads a block, the piece on disk has the right hash (or a write of it failed) and the answer is the slice asked for |
| `SessionProof.CheckPieceKeeps` | crates/engine/src/session.rs:904-941 | Checking a piece at any moment, even while the writer works on it, keeps the invariant |
| `SessionProof.NextKeeps` | crates/engine/src/session.rs:946-1029 | Every step of hub, writer and recheck, in any interleaving, keeps the invariant |
| `SessionProof.NextAdvances` | crates/engine/src/session.rs:1695-1808 | No step moves the phase back or takes a piece off the complete ones or off the disk |
| `SessionProof.RunIsSafe` | crates/engine/src/session.rs:946-1029 | The invariant holds in every state of every run |
| `SessionProof.RunAdvances` | crates/engine/src/session.rs:1695-1808 | Over any stretch of a run the phase never goes back and completions are never undone |
| `SessionRuns.RunReadsVerified` | crates/engine/src/session.rs:2488-2552 | In every run, whenever the writer reads a block, its piece has the right hash on disk unless a write of that very piece has failed, and the answer is exactly the slice requested |
| `SessionRuns.NextAsks` | crates/engine/src/session.rs:2358-2399 | No step reads, or sends, a block that its peer did not ask for |
| `SessionRuns.RunServesVerified` | crates/engine/src/session.rs:1717-1740 | In every run, every block ever sent to a peer is a slice of bytes with the hash of its piece, and just the slice that this peer asked for at some earlier step, interested and not choked, when the piece was on disk |
| `SessionRuns.RunSeedsOnPurpose` | crates/engine/src/session.rs:1753-1773 | A session that is running is in the seeding phase only if it was asked to seed |
| `SessionRuns.RunCompletes` | crates/engine/src/session.rs:984-998 | In every run the complete pieces are those on disk plus those in the pipeline and `pending_writes` counts the latter; completion is announced at most once, with every piece on disk; and it is never lost: once recheck and writes are over and no piece is missing, a session that seeds is seeding, and one that does not is over |
| `SessionRuns.RunBounds` | crates/engine/src/session.rs:2326-2444 | At every moment at most five blocks are on request from a peer, and at most four peers may download from us |
| `SessionRuns.RunPoliteIff` | crates/engine/src/session.rs:1604-1646 | Up to any moment of a run no block has been on request from a peer that chokes us or is gone, if and only if no peer has connected while blocks were on request from it |
| `SessionInputs.DialledTwice` | crates/engine/src/session.rs:1400-1414 | A run in which one does: a peer that connected to us is dialled as well |
| `SessionInputs.TornRead` | crates/engine/src/session.rs:2488-2552 | A run in which the writer reads a block of a piece whose write has failed: the recheck saw it whole while it was written |
| `Decimal.PrintNatIsCanonical` | crates/bencode/src/lib.rs:100-131 | A printed number has no leading zero and reads back |
| `Decimal.CanonicalIsPrinted` | crates/bencode/src/lib.rs:214-262 | Digits without a leading zero are what their number prints as |
| `BencodeTheorems.ParsePrintInt` | crates/bencode/src/lib.rs:214-262 | Every 64-bit integer, the least included, is read back from its print, wherever it stands |
| `BencodeTheorems.ParsedInt` | crates/bencode/src/lib.rs:214-262 | An integer is accepted only in the form it prints in |
| `BencodeTheorems.ParsePrintBytes` | crates/bencode/src/lib.rs:267-293 | Every byte string is read back from its print |
| `BencodeTheorems.ParsedBytes` | crates/bencode/src/lib.rs:267-293 | A byte string is accepted only in the form it prints in |
| `BencodeTheorems.ParsePrint` | crates/bencode/src/lib.rs:134-210 | Every value within range and depth is read back from its print, anywhere in any input, with the position behind it |
| `BencodeTheorems.PrintParsed` | crates/bencode/src/lib.rs:134-210 | Whatever the parser accepts is the print of the value it returns, which is within range and depth |
| `BencodeDecode.InsertWorks` | crates/bencode/src/lib.rs:31-32 | Inserting into an ordered map keeps it ordered and changes just that key |
| `BencodeDecode.CollectWorks` | crates/bencode/src/lib.rs:166-170 | Collected entries have increasing keys, and entries that have them already stay as they are |
| `BencodeDecode.NormalizeIsCanonical` | crates/bencode/src/lib.rs:134-179 | Decoded values have increasing keys throughout |
| `BencodeDecode.DecodeOfEncode` | crates/bencode/src/lib.rs:65-131 | `decode(encode(v) + rest) == (v, len)` for every value nested at most 128 deep and any rest |
| `BencodeDecode.EncodeIsInjective` | crates/bencode/src/lib.rs:94-131 | Different values print differently, however deep they nest |
| `BencodeDecode.PrefixIsRejected` | crates/bencode/src/lib.rs:65-68 | Every strict prefix of an encoding is rejected, however deep the value nests |
| `BencodeDecode.ParseIsLocal` | crates/bencode/src/lib.rs:134-210 | A successful parse depends only on the bytes it consumes: it shifts with them, and may start at a smaller depth |
| `BencodeDecode.DecodeIsLocal` | crates/bencode/src/lib.rs:65-68 | A successful decode consumes at least one byte and at most all, is unchanged by appended bytes, and works on the consumed bytes alone |
| `BencodeDecode.ReencodeIffOrdered` | crates/bencode/src/lib.rs:185-210 | Re-encoding gives back the consumed bytes if and only if every dictionary among them has strictly increasing keys |
| `BencodeDecode.UnorderedIsAccepted` | crates/bencode/src/lib.rs:196-204 | An input with keys out of order that decodes and does not re-encode to itself |
| `BencodeDecode.SpanDecodes` | crates/bencode/src/lib.rs:78-90 | The span of each value of the top dictionary decodes by itself to that value and is fully consumed |
| `BencodeDecode.TopDictAgrees` | crates/bencode/src/lib.rs:78-90 | With and without spans, the same keys have the same values; the last of equal keys wins |
| `Bencode.ParseNat` | crates/bencode/src/lib.rs:244-246 | The number written by the digits unless it exceeds the word |
| `Bencode.SkipDigits` | crates/bencode/src/lib.rs:220-223 | Stops behind the run of digits |
| `Bencode.ParseInt` | crates/bencode/src/lib.rs:214-262 | Value, position and every error are those of the specification |
| `Bencode.ParseBytes` | crates/bencode/src/lib.rs:267-293 | Value, position and every error are those of the specification, for lengths of any size |
| `Bencode.ParseList` | crates/bencode/src/lib.rs:148-165 | The list loop computes the specified parse |
| `Bencode.ParseDict` | crates/bencode/src/lib.rs:185-210 | The dictionary loop computes the specified entries with their spans |
| `Bencode.ParseValue` | crates/bencode/src/lib.rs:134-179 | The recursive descent computes the specified parse, normalized |
| `Bencode.CollectMap` | crates/bencode/src/lib.rs:166-170 | Folding entries into the ordered map |
| `Bencode.Decode` | crates/bencode/src/lib.rs:65-68 | Result is the specified one |
| `Bencode.DecodeTopDictWithSpans` | crates/bencode/src/lib.rs:78-90 | Result is the specified one |
| `Bencode.EncodeInto` | crates/bencode/src/lib.rs:100-131 | Appends exactly the print of the value to what was there |
| `Bencode.Encode` | crates/bencode/src/lib.rs:94-98 | The print of the value |
| `WireTheorems.ParseOfPayload` | crates/peer-wire/src/lib.rs:356-417 | Every message with an id is read back from its id and payload |
| `WireTheorems.ReadFrame` | crates/peer-wire/src/lib.rs:281-353 | A frame within the limit is consumed exactly, whatever its id, so that the stream stays aligned |
| `WireTheorems.ReadOfWritten` | crates/peer-wire/src/lib.rs:281-444 | A written message followed by anything is read back, and just its bytes consumed, if and only if it is within the size limit |
| `WireTheorems.DeliveredAsSent` | crates/engine/src/session.rs:2772-2805 | Any sequence of messages and unknown frames written back to back is delivered as the same sequence of messages, and the rest of the stream is read from its start |
| `WireTheorems.WrittenOfRead` | crates/peer-wire/src/lib.rs:281-353 | A message read consumes four bytes and its length, and re-encodes to the same bytes unless a message without payload was sent with one |
| `PeerWire.ReadMessage` | crates/peer-wire/src/lib.rs:281-353 | Message, error and remaining stream are the specified ones |
| `PeerWire.WriteMessage` | crates/peer-wire/src/lib.rs:422-444 | Appends exactly the frame of the message |
| `PeerWire.PeerReader` | crates/engine/src/session.rs:2772-2805 | Delivers the messages up to the first error, skipping unknown ones |
| `BitfieldSpec.LowBitsAreClear` | crates/peer-wire/src/lib.rs:459-469 | The padding mask test says exactly that no spare bit is set |
| `BitfieldSpec.CountIsCardinality` | crates/peer-wire/src/lib.rs:501-513 | In a well-formed map the ones counted are the pieces, and all n are set exactly if every piece is there |
| `BitfieldSpec.PiecesDetermineBytes` | crates/peer-wire/src/lib.rs:521-523 | Two well-formed maps of the same pieces are the same bytes |
| `Bitfields.Bitfield.FromWire` | crates/peer-wire/src/lib.rs:459-469 | Accepted if and only if of the right length and without padding bits; the error says which |
| `Bitfields.Bitfield.Empty` | crates/peer-wire/src/lib.rs:472-477 | The empty set |
| `Bitfields.Bitfield.Has` | crates/peer-wire/src/lib.rs:480-483 | Membership, false out of range |
| `Bitfields.Bitfield.Insert` | crates/peer-wire/src/lib.rs:487-492 | Adds the piece, and nothing out of range |
| `Bitfields.Bitfield.IsEmpty` | crates/peer-wire/src/lib.rs:495-497 | The set is empty |
| `Bitfields.Bitfield.CountSet` | crates/peer-wire/src/lib.rs:508-513 | The size of the set |
| `Bitfields.Bitfield.IsFull` | crates/peer-wire/src/lib.rs:501-504 | There are pieces and the set has all of them |
| `Bitfields.Bitfield.WireBytes` | crates/peer-wire/src/lib.rs:521-523 | Well-formed bytes of the same set |
| `MetadataTheorems.ParseOfEncode` | crates/ext-metadata/src/lib.rs:229-291 | Every message is parsed back from its encoding, data with its raw tail included |
| `MetadataTheorems.OnPieceKeeps` | crates/ext-metadata/src/lib.rs:496-516 | The buffer holds all pieces before the next; bytes are released only with the announced length and the expected hash |
| `MetadataTheorems.ReleasedOnce` | crates/ext-metadata/src/lib.rs:459-517 | Whatever a peer sends, bytes come out at most once, have the announced length and the expected hash, and are the pieces taken in order |
| `MetadataTheorems.RoundIsExact` | crates/engine/src/session.rs:2070-2100 | Through the real encoding both ways, one round hands the collector the piece it asked for |
| `MetadataTheorems.HonestRound` | crates/ext-metadata/src/lib.rs:478-516 | Round k with an honest server adds piece k; the last one is round ceil(n/16384) |
| `MetadataTheorems.HonestExchange` | crates/ext-metadata/src/lib.rs:382-408 | The exchange with an honest server ends after ceil(n/16384) rounds with exactly its bytes, or with a hash mismatch exactly if they do not have the hash |
| `ExtMetadata.MetadataCollector.New` | crates/ext-metadata/src/lib.rs:440-473 | A size from 1 to 4 MiB starts a collector at piece 0; any other is an error |
| `ExtMetadata.MetadataCollector.Start` | crates/ext-metadata/src/lib.rs:468-473 | The fields of a new collector |
| `ExtMetadata.MetadataCollector.NextRequest` | crates/ext-metadata/src/lib.rs:478-487 | The next piece and its length, nothing when all are there |
| `ExtMetadata.MetadataCollector.OnPiece` | crates/ext-metadata/src/lib.rs:496-516 | New state and result are the specified ones, for every piece number and length |
| `MagnetTheorems.EventKeeps` | crates/engine/src/session.rs:1966-2262 | Every event of the metadata phase keeps the invariant; once there, the info bytes stay |
| `MagnetTheorems.FirstMetadataWins` | crates/engine/src/session.rs:2176-2262 | In every run the info bytes have the hash of the link and can be used, and nothing later replaces them |
| `MagnetTheorems.AsksForNext` | crates/engine/src/session.rs:2004-2160 | A collector starts or moves on exactly with one request for its next piece, told to its peer |
| `MagnetTheorems.FailureDisconnects` | crates/engine/src/session.rs:2105-2172 | A collector that ends without bytes costs its peer the connection |
| `MagnetTheorems.ServedIsSlice` | crates/engine/src/session.rs:2070-2100 | A request is answered with the slice of the verified bytes, 16 KiB or up to the end, or rejected exactly without bytes or past the end |
| `Magnets.MagnetHub.OnConnected` | crates/engine/src/session.rs:1604-1624 | A new peer has no collector |
| `Magnets.MagnetHub.OnDisconnected` | crates/engine/src/session.rs:1949-1958 | A peer that leaves takes its collector along |
| `Magnets.MagnetHub.OnExtHandshake` | crates/engine/src/session.rs:2004-2066 | New state and messages are the specified ones: the first request, or a disconnect while the info is still wanted |
| `Magnets.MagnetHub.OnExtended` | crates/engine/src/session.rs:1966-2000 | A payload is parsed and dispatched as specified; one that does not parse ends the connection while the info is still wanted |
| `Magnets.MagnetHub.OnMetadataPiece` | crates/engine/src/session.rs:2105-2160 | New state and messages are the specified ones: the next request, completion, or a disconnect |
| `Magnets.MagnetHub.MetadataComplete` | crates/engine/src/session.rs:2176-2185 | The first usable bytes are taken and all collectors dropped |
| `Magnets.MagnetHub.OnMetadataReject` | crates/engine/src/session.rs:2164-2172 | The collector is dropped and its peer disconnected |
| `Magnets.MagnetHub.ServeMetadataRequest` | crates/engine/src/session.rs:2070-2100 | The encoded answer of the specification is sent |
| `XorMetric.LessIsNumeric` | crates/dht/src/routing.rs:140-154 | Ordering the pairs of 128 and 32 bits orders the 160-bit numbers |
| `XorMetric.DistanceIsInjective` | crates/dht/src/routing.rs:145-154 | Different ids lie at different distances from any target |
| `XorMetric.HighestBit` | crates/dht/src/routing.rs:157-164 | The number of leading zeros places the value between two powers of two |
| `XorMetric.BucketIsDyadic` | crates/dht/src/routing.rs:131-137 | An id is of bucket i if and only if its distance from us is at least 2^i and less than 2^(i+1), and of none exactly if it is ours |
| `RoutingTheorems.TableIsDyadic` | crates/dht/src/routing.rs:20-32 | Bucket i holds ids in that range only, no id stands twice in the table, ours does not stand there |
| `RoutingTheorems.UpsertKeeps` | crates/dht/src/routing.rs:49-65 | Inserting or refreshing keeps the invariant of the table |
| `RoutingTheorems.RefreshKeeps` | crates/dht/src/routing.rs:69-80 | So does refreshing |
| `RoutingTheorems.EvictKeeps` | crates/dht/src/routing.rs:97-102 | So does evicting, which removes exactly that id |
| `RoutingTheorems.ReplaceKeepsIff` | crates/dht/src/routing.rs:83-94 | Replacing keeps it if and only if the new node belongs to the bucket of the old one and is not there already (or the old one is not there) |
| `RoutingTheorems.ReplaceBySelfBreaks` | crates/dht/src/routing.rs:83-94 | Replacing any node by our own id breaks it |
| `RoutingTheorems.StepKeeps` | crates/dht/src/routing.rs:49-102 | Every such operation keeps sizes, ranges and the order of last contact |
| `RoutingTheorems.RunKeeps` | crates/dht/src/routing.rs:49-102 | After any sequence of operations: at most 8 nodes a bucket, each in its range, ordered by last contact |
| `RoutingTheorems.FullReportsOldest` | crates/dht/src/routing.rs:61-64 | `Full` comes exactly if the bucket has eight other nodes, and names the one heard from longest ago |
| `RoutingTheorems.UpsertStores` | crates/dht/src/routing.rs:49-65 | After a message the table holds what it held, and the node at its address if and only if its id belongs to a bucket that has room and does not know it |
| `RoutingTheorems.OldAddressStays` | crates/dht/src/routing.rs:54-59 | So a node that moved is kept at its old address |
| `RoutingTheorems.ClosestIsTheNearest` | crates/dht/src/routing.rs:107-116 | A list has min(count, len) members in strictly increasing distance, each nearer than every member left out, if and only if it is the one returned |
| `Sorting.TakeIsLeast` | crates/dht/src/routing.rs:114-115 | Sorting and taking gives the least elements in order |
| `Routing.RoutingTable.constructor` | crates/dht/src/routing.rs:36-41 | 160 empty buckets |
| `Routing.RoutingTable.Upsert` | crates/dht/src/routing.rs:49-65 | New buckets and outcome are the specified ones |
| `Routing.RoutingTable.Refresh` | crates/dht/src/routing.rs:69-80 | New buckets are the specified ones |
| `Routing.RoutingTable.Replace` | crates/dht/src/routing.rs:83-94 | New buckets are the specified ones |
| `Routing.RoutingTable.Evict` | crates/dht/src/routing.rs:97-102 | New buckets are the specified ones |
| `Routing.RoutingTable.Closest` | crates/dht/src/routing.rs:107-116 | The nearest members, as stated above |
| `Routing.RoutingTable.Len` | crates/dht/src/routing.rs:120-122 | The number of nodes |
| `LookupTheorems.MergeIsNearest` | crates/dht/src/lib.rs:487-501 | After merging, the candidates are the nearest sixteen of the old ones and of the unknown, unasked nodes of the answer, sorted; distinct addresses stay distinct |
| `LookupTheorems.ReceiveWorks` | crates/dht/src/lib.rs:433-463 | An answer adds peers only if it is from the node asked under its number, and adds none twice |
| `LookupTheorems.EndRoundRests` | crates/dht/src/lib.rs:470-479 | After a round the candidates are sorted, at most sixteen and disjoint from all addresses asked |
| `LookupTheorems.EveryRound` | crates/dht/src/lib.rs:394-418 | Every round asks the nearest unasked candidates, as many as three or the budget allow, and knows what was asked before |
| `LookupTheorems.NotAskedAgain` | crates/dht/src/lib.rs:391-418 | No address asked in one round is asked in a later one |
| `LookupTheorems.AskedTwiceIff` | crates/dht/src/lib.rs:391-418 | A search asks an address twice if and only if in some round two of the nearest candidates that it has room for share one; never if all candidates at the start differ in address |
| `LookupTheorems.AlwaysTwiceIff` | crates/dht/src/lib.rs:391-418 | Every network makes it do so if and only if two of the candidates that the first round has room for share an address |
| `LookupTheorems.BudgetIsSpent` | crates/dht/src/lib.rs:378-482 | Whatever the network answers, queries and remaining budget add up to the budget, and a search that is not cut off ends without candidates or without budget |
| `LookupTheorems.PeersAreSentOnce` | crates/dht/src/lib.rs:455-461 | Every peer is reported at most once, and none that was reported before |
| `LookupTheorems.PeersAreBrought` | crates/dht/src/lib.rs:433-461 | Every peer reported came in an answer of a node that was asked |
| `LookupTheorems.SearchIsTidy` | crates/dht/src/lib.rs:433-463 | Whatever the network sends meanwhile, the routing table keeps its invariant, and tokens are gained only from nodes that were asked |
| `SearchTheorems.SearchFromTable` | crates/dht/src/lib.rs:378-482 | From any routing table: at most 96 queries, every peer once and none reported before, tokens only of nodes asked, and the table in order at the end |
| `SearchTheorems.OneAddressTwice` | crates/dht/src/lib.rs:394-408 | From an empty table that heard of one address under two ids, any search asks that address twice in its first round |
| `DhtLookup.MergeCandidates` | crates/dht/src/lib.rs:487-501 | Candidates are the specified ones |
| `DhtLookup.PickRound` | crates/dht/src/lib.rs:396-409 | The round and the budget left are the specified ones; the budget never goes below zero |
| `DhtLookup.NoteAnswer` | crates/dht/src/lib.rs:435-461 | The sender, its token and the nodes it names are noted as specified, candidates and peers too |
| `DhtLookup.ReceiveRound` | crates/dht/src/lib.rs:424-469 | The state after the datagrams of a round, answers, queries and others, is the specified one |
| `DhtLookup.Lookup` | crates/dht/src/lib.rs:378-482 | Ends for every behaviour of the network, with the specified rounds, peers and result |
| `PexTheorems.FlushAgreesIff` | crates/engine/src/session.rs:1489-1544 | After a flush a receiver that drops and then adds has the hub's list if and only if every address reported both ways is connected; one that adds first, if and only if none is |
| `PexTheorems.FirstFlushAgrees` | crates/engine/src/session.rs:1489-1518 | The first message is the whole list |
| `PexTheorems.FlushKeeps` | crates/engine/src/session.rs:1489-1544 | A flush makes every receiver agree if no address both joined and left since the last one |
| `PexTheorems.EventKeeps` | crates/engine/src/session.rs:1461-1544 | Joining, leaving, declaring and flushing keep what outboxes and receivers say about each address |
| `PexTheorems.AgreesAfterEveryFlush` | crates/engine/src/session.rs:1461-1544 | In every run in which no address both joins and leaves between two flushes, every receiver has after every flush exactly the connected IPv4 peers with a port, except itself and us |
| `PexTheorems.AgreesFromTheStart` | crates/engine/src/session.rs:1461-1544 | So it is from a hub without peers |
| `PexTheorems.StaleAddress` | crates/engine/src/session.rs:1461-1544 | Otherwise not: an address that joins and leaves between two flushes stays on the list of a receiver though it is not connected |
| `Pex.PexHub.Register` | crates/engine/src/session.rs:1604-1624 | The new peer is noted in every other outbox |
| `Pex.PexHub.PeerAdded` | crates/engine/src/session.rs:1461-1473 | Outboxes are the specified ones |
| `Pex.PexHub.Disconnected` | crates/engine/src/session.rs:1949-1956 | The peer that left is noted in every other outbox |
| `Pex.PexHub.PeerDropped` | crates/engine/src/session.rs:1476-1485 | Outboxes are the specified ones |
| `Pex.PexHub.OnExtHandshake` | crates/engine/src/session.rs:2015-2023 | An outbox is opened once |
| `Pex.PexHub.FlushPex` | crates/engine/src/session.rs:1489-1544 | Messages and outboxes are the specified ones |

## Left out

- Hubs.Hub.constructor: builds the fields of the download core; timers, channels, the queue of addresses, announces and progress are left out.
- Hubs.Hub.OnPeerConnected: the pool of connections, the queue of addresses, the limit of fifty and the eviction of idle seeds are not modelled; a peer simply connects.
- Magnets.MagnetHub.MetadataComplete: takes the parsing of the info dictionary as an arbitrary test of the bytes; building the torrent, replaying the bitfields kept until then and starting the recheck are left out, and the session model starts from a known torrent.
- MagnetTheorems.EventKeeps: of the end of the metadata phase it covers the info bytes and the collectors only, for the same reason.
- Magnets.MagnetHub.OnMetadataPiece: holds the collectors of the peers as values of a map; the class `MetadataCollector` is the one that updates in place.
- Pex.PexHub.FlushPex: messages are sets of addresses; their order, the seed flags and the encoding are left out, and so is the limit of 1000 entries at the receiver.
- LookupTheorems.AskedTwiceIff: reads its condition off the rounds; what can be told from the start are two bounds, `AlwaysTwiceIff` and that different addresses are never asked twice. In between it depends on the network, which can move candidates between rounds.
- DhtLookup.ReceiveRound: the replies sent to queries of other nodes are left out.
- DhtLookup.Lookup: the replies to queries of other nodes that arrive meanwhile are left out, and so are the times at which tokens were received.
- Bencode.ParseBytes: takes the largest machine word as a parameter, at least the length of the input.
- Bitfields.Bitfield.FromWire: the bytes 0 to 255 are numbers, so `&`, `|` and `count_ones` are written as arithmetic on single bits.
- Progress reports, byte counters (`verified_bytes` may count a piece twice), announces to trackers, NAT mapping and the packed piece states.
- Tokio, sockets, timeouts, keep-alives and task spawning: replaced by steps in any order. The handshake of 68 bytes and the extension handshake are plain fields.
- The daemon, the command line and the user interface; KRPC, PEX, tracker, magnet and torrent file formats, which repeat the bencode round trip with field lookups.
- Creation of directories, checks of paths, paths that name one file by links or letter case, and the read path of other systems than Unix. SHA-1 itself.
- That a download ever finishes: requests have no timeout, and a cancel does not clear what other peers have in flight.
