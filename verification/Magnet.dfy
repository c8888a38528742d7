/** The hub before it knows the info dictionary: a collector for each peer that
    offers it, until one of them has gathered bytes that can be used. */
module MagnetSpec {
  import opened Wrappers
  import opened Bytes
  import opened MetadataSpec
  import opened PieceSpec

  const OUR_UT_METADATA_ID: u8 := 1

  /** What the link says: the hash, the hash function, and which bytes parse to
      an info dictionary with pieces. */
  datatype Link = Link(infoHash: Digest, sha1: seq<u8> -> Digest, usable: seq<u8> -> bool)

  /** What a peer says of itself: its number for metadata messages, if it knows
      them, and the size of the info dictionary, if it has it. */
  datatype Handshake = Handshake(utId: Option<u8>, size: Option<nat>)

  datatype MagnetLink = MagnetLink(utId: Option<u8>, collector: Option<Collector>)

  datatype Command = SendExtended(extId: u8, payload: seq<u8>) | Disconnect

  /** `told` lists the commands given to the tasks of the peers so far. */
  datatype Magnet = Magnet(peers: map<Peer, MagnetLink>, info: Option<seq<u8>>, told: seq<(Peer, Command)>)

  // A handshake or message that could not be parsed is None.
  datatype MagnetEvent =
    | Connects(peer: Peer)
    | Greets(peer: Peer, hs: Option<Handshake>)
    | Says(peer: Peer, payload: seq<u8>)
    | Gone(peer: Peer)

  ghost predicate MagnetInv(l: Link, m: Magnet) {
    && (forall p :: p in m.peers && m.peers[p].collector.Some? ==>
          CollectorInv(m.peers[p].collector.value) && m.peers[p].collector.value.expected == l.infoHash && m.info.None?)
    && (m.info.Some? ==> l.sha1(m.info.value) == l.infoHash && l.usable(m.info.value))
  }

  function Tell(m: Magnet, peer: Peer, cmd: Command): Magnet {
    if peer in m.peers then m.(told := m.told + [(peer, cmd)]) else m
  }

  function SetCollector(m: Magnet, peer: Peer, c: Option<Collector>): Magnet {
    if peer in m.peers then m.(peers := m.peers[peer := m.peers[peer].(collector := c)]) else m
  }

  // A peer that is of no use for the info dictionary is let go while it is
  // still wanted.
  function OnExtHandshake(l: Link, m: Magnet, peer: Peer, hs: Option<Handshake>): Magnet {
    if hs.None? then (if m.info.None? then Tell(m, peer, Disconnect) else m)
    else
      var h := hs.value;
      var known := if peer in m.peers then m.(peers := m.peers[peer := m.peers[peer].(utId := h.utId)]) else m;
      if m.info.Some? then known
      else if h.utId.None? || h.size.None? || NewCollector(h.size.value, l.infoHash).Err? then Tell(known, peer, Disconnect)
      else
        SetCollector(Tell(known, peer, SendExtended(h.utId.value, Encode(Request(0)))), peer,
                     Some(NewCollector(h.size.value, l.infoHash).value))
  }

  // The first usable bytes win; the collectors of all peers are dropped.
  function Complete(l: Link, m: Magnet, bytes: seq<u8>): Magnet {
    if m.info.Some? || !l.usable(bytes) then m
    else m.(peers := map p | p in m.peers :: m.peers[p].(collector := None), info := Some(bytes))
  }

  function AskId(link: MagnetLink): u8 {
    if link.utId.Some? then link.utId.value else OUR_UT_METADATA_ID
  }

  function OnMetadataPiece(l: Link, m: Magnet, peer: Peer, piece: u32, data: seq<u8>): Magnet
    requires MagnetInv(l, m)
  {
    if peer !in m.peers || m.peers[peer].collector.None? then m
    else
      var (c, r) := OnPiece(m.peers[peer].collector.value, l.sha1, piece, data);
      if r.Err? then Tell(SetCollector(m, peer, None), peer, Disconnect)
      else if r.value.Some? then Complete(l, SetCollector(m, peer, None), r.value.value)
      else
        var next := NextRequest(c);
        if next.None? || next.value.0 > U32_MAX then Tell(SetCollector(m, peer, None), peer, Disconnect)
        else
          Tell(SetCollector(m, peer, Some(c)), peer,
               SendExtended(AskId(m.peers[peer]), Encode(Request(next.value.0))))
  }

  function OnMetadataReject(m: Magnet, peer: Peer): Magnet {
    if peer in m.peers && m.peers[peer].collector.Some? then Tell(SetCollector(m, peer, None), peer, Disconnect) else m
  }

  function OnExtended(l: Link, m: Magnet, peer: Peer, payload: seq<u8>): Magnet
    requires MagnetInv(l, m)
  {
    match Parse(payload)
    case Err(_) => if m.info.None? then Tell(m, peer, Disconnect) else m
    case Ok(Request(piece)) => Tell(m, peer, SendExtended(OUR_UT_METADATA_ID, Encode(Serve(m.info, piece))))
    case Ok(Data(piece, data)) => OnMetadataPiece(l, m, peer, piece, data)
    case Ok(Reject(_)) => OnMetadataReject(m, peer)
  }

  function OnEvent(l: Link, m: Magnet, ev: MagnetEvent): Magnet
    requires MagnetInv(l, m)
  {
    match ev
    case Connects(peer) => m.(peers := m.peers[peer := MagnetLink(None, None)])
    case Greets(peer, hs) => OnExtHandshake(l, m, peer, hs)
    case Says(peer, payload) => OnExtended(l, m, peer, payload)
    case Gone(peer) => m.(peers := m.peers - {peer})
  }
}

/** What the hub holds to, whatever its peers send. */
module MagnetTheorems {
  import opened Wrappers
  import opened Bytes
  import opened MetadataSpec
  import opened MetadataTheorems
  import opened PieceSpec
  import opened MagnetSpec

  lemma PieceKeeps(l: Link, m: Magnet, peer: Peer, piece: u32, data: seq<u8>)
    requires MagnetInv(l, m)
    ensures MagnetInv(l, OnMetadataPiece(l, m, peer, piece, data))
    ensures m.info.Some? ==> OnMetadataPiece(l, m, peer, piece, data) == m
  {
    if peer in m.peers && m.peers[peer].collector.Some? {
      OnPieceKeeps(m.peers[peer].collector.value, l.sha1, piece, data);
    }
  }

  // The info bytes have the hash of the link, and once there they stay.
  lemma EventKeeps(l: Link, m: Magnet, ev: MagnetEvent)
    requires MagnetInv(l, m)
    ensures MagnetInv(l, OnEvent(l, m, ev))
    ensures m.info.Some? ==> OnEvent(l, m, ev).info == m.info
  {
    if ev.Says? && Parse(ev.payload).Ok? && Parse(ev.payload).value.Data? {
      PieceKeeps(l, m, ev.peer, Parse(ev.payload).value.piece, Parse(ev.payload).value.data);
    }
  }

  function RunEvents(l: Link, m: Magnet, events: seq<MagnetEvent>): (r: Magnet)
    requires MagnetInv(l, m)
    ensures MagnetInv(l, r)
    decreases |events|
  {
    if events == [] then m
    else
      EventKeeps(l, m, events[0]);
      RunEvents(l, OnEvent(l, m, events[0]), events[1..])
  }

  // Whatever peers send, in any order: what the hub takes for the info
  // dictionary has the hash of the link, and is never replaced.
  lemma {:induction false} FirstMetadataWins(l: Link, events: seq<MagnetEvent>, more: seq<MagnetEvent>)
    ensures var m := RunEvents(l, Magnet(map[], None, []), events);
            m.info.Some? ==> && l.sha1(m.info.value) == l.infoHash && l.usable(m.info.value)
                             && RunEvents(l, m, more).info == m.info
  {
    var m := RunEvents(l, Magnet(map[], None, []), events);
    if m.info.Some? {
      Settled(l, m, more);
    }
  }

  lemma {:induction false} Settled(l: Link, m: Magnet, events: seq<MagnetEvent>)
    requires MagnetInv(l, m) && m.info.Some?
    ensures RunEvents(l, m, events).info == m.info
    decreases |events|
  {
    if events != [] {
      EventKeeps(l, m, events[0]);
      Settled(l, OnEvent(l, m, events[0]), events[1..]);
    }
  }

  ghost function CollectorAt(m: Magnet, p: Peer): Option<Collector> {
    if p in m.peers then m.peers[p].collector else None
  }

  // A collector starts or moves on exactly with a request for its next piece,
  // which is told to its peer and is the only thing told.
  lemma AsksForNext(l: Link, m: Magnet, ev: MagnetEvent, p: Peer)
    requires MagnetInv(l, m) && CollectorAt(OnEvent(l, m, ev), p).Some?
    requires CollectorAt(OnEvent(l, m, ev), p) != CollectorAt(m, p)
    ensures var m' := OnEvent(l, m, ev);
            var c := m'.peers[p].collector.value;
            && ev.peer == p && c.nextPiece <= U32_MAX && NextRequest(c).Some?
            && m'.told == m.told + [(p, SendExtended(AskId(m'.peers[p]), Encode(Request(c.nextPiece))))]
  {
  }

  // And one that ends without bytes costs its peer the connection.
  lemma FailureDisconnects(l: Link, m: Magnet, peer: Peer, payload: seq<u8>)
    requires MagnetInv(l, m) && CollectorAt(m, peer).Some?
    requires CollectorAt(OnExtended(l, m, peer, payload), peer).None?
    ensures var m' := OnExtended(l, m, peer, payload);
            || (Parse(payload).Ok? && Parse(payload).value.Data?
                && OnPiece(m.peers[peer].collector.value, l.sha1, Parse(payload).value.piece, Parse(payload).value.data).1.Ok?)
            || m'.told == m.told + [(peer, Disconnect)]
  {
  }

  // Every piece served is the slice of those bytes that was asked for.
  lemma ServedIsSlice(l: Link, m: Magnet, piece: u32)
    requires MagnetInv(l, m)
    ensures match Serve(m.info, piece)
            case Data(p, data) =>
              && p == piece && m.info.Some? && l.sha1(m.info.value) == l.infoHash
              && data != [] && PieceStart(p) + |data| <= |m.info.value|
              && data == m.info.value[PieceStart(p)..PieceStart(p) + |data|]
              && (|data| == METADATA_PIECE_LEN || PieceStart(p) + |data| == |m.info.value|)
            case Reject(p) => p == piece && (m.info.None? || PieceCount(|m.info.value|) <= p)
            case Request(_) => false
  {
  }
}

module Magnets {
  import opened Wrappers
  import opened Bytes
  import opened MetadataSpec
  import opened PieceSpec
  import opened MagnetSpec
  import opened MagnetTheorems

  class MagnetHub {
    const link: Link
    var peers: map<Peer, MagnetLink>
    var info: Option<seq<u8>>
    var told: seq<(Peer, Command)>

    ghost function Model(): Magnet
      reads this
    {
      Magnet(peers, info, told)
    }

    ghost predicate Valid()
      reads this
    {
      MagnetInv(link, Model())
    }

    constructor (link: Link)
      ensures Valid() && this.link == link && Model() == Magnet(map[], None, [])
    {
      this.link := link;
      peers, info, told := map[], None, [];
    }

    method Tell(peer: Peer, cmd: Command)
      modifies this`told
      ensures Model() == MagnetSpec.Tell(old(Model()), peer, cmd)
    {
      if peer in peers {
        told := told + [(peer, cmd)];
      }
    }

    method OnExtHandshake(peer: Peer, hs: Option<Handshake>)
      requires Valid()
      modifies this
      ensures Valid() && Model() == OnEvent(link, old(Model()), Greets(peer, hs))
    {
      EventKeeps(link, Model(), Greets(peer, hs));
      if hs.None? {
        if info.None? {
          Tell(peer, Disconnect);
        }
        return;
      }
      var utId, size := hs.value.utId, hs.value.size;
      if peer in peers {
        peers := peers[peer := peers[peer].(utId := utId)];
      }
      if info.Some? {
        return;
      }
      if utId.None? || size.None? {
        Tell(peer, Disconnect);
        return;
      }
      var collector := NewCollector(size.value, link.infoHash);
      if collector.Err? {
        Tell(peer, Disconnect);
        return;
      }
      Tell(peer, SendExtended(utId.value, Encode(Request(0))));
      if peer in peers {
        peers := peers[peer := peers[peer].(collector := Some(collector.value))];
      }
    }

    method OnExtended(peer: Peer, payload: seq<u8>)
      requires Valid()
      modifies this
      ensures Valid() && Model() == OnEvent(link, old(Model()), Says(peer, payload))
    {
      EventKeeps(link, Model(), Says(peer, payload));
      var msg := Parse(payload);
      match msg {
        case Err(_) =>
          if info.None? {
            Tell(peer, Disconnect);
          }
        case Ok(Request(piece)) => ServeMetadataRequest(peer, piece);
        case Ok(Data(piece, data)) => OnMetadataPiece(peer, piece, data);
        case Ok(Reject(_)) => OnMetadataReject(peer);
      }
    }

    method OnMetadataPiece(peer: Peer, piece: u32, data: seq<u8>)
      requires Valid()
      modifies this
      ensures Valid() && Model() == MagnetSpec.OnMetadataPiece(link, old(Model()), peer, piece, data)
    {
      PieceKeeps(link, Model(), peer, piece, data);
      if peer !in peers || peers[peer].collector.None? {
        return;
      }
      var (c, r) := OnPiece(peers[peer].collector.value, link.sha1, piece, data);
      match r {
        case Ok(None) =>
          var next := NextRequest(c);
          if next.Some? && next.value.0 <= U32_MAX {
            peers := peers[peer := peers[peer].(collector := Some(c))];
            Tell(peer, SendExtended(AskId(peers[peer]), Encode(Request(next.value.0))));
          } else {
            peers := peers[peer := peers[peer].(collector := None)];
            Tell(peer, Disconnect);
          }
        case Ok(Some(verified)) =>
          peers := peers[peer := peers[peer].(collector := None)];
          MetadataComplete(verified);
        case Err(_) =>
          peers := peers[peer := peers[peer].(collector := None)];
          Tell(peer, Disconnect);
      }
    }

    method MetadataComplete(bytes: seq<u8>)
      modifies this`peers, this`info
      ensures Model() == Complete(link, old(Model()), bytes)
    {
      if info.Some? {
        return;
      }
      if link.usable(bytes) {
        info := Some(bytes);
        peers := map p | p in peers :: peers[p].(collector := None);
      }
    }

    method OnMetadataReject(peer: Peer)
      requires Valid()
      modifies this`peers, this`told
      ensures Valid() && Model() == MagnetSpec.OnMetadataReject(old(Model()), peer)
    {
      if peer in peers && peers[peer].collector.Some? {
        peers := peers[peer := peers[peer].(collector := None)];
        Tell(peer, Disconnect);
      }
    }

    method ServeMetadataRequest(peer: Peer, piece: u32)
      requires Valid()
      modifies this`told
      ensures Valid()
      ensures Model() == MagnetSpec.Tell(old(Model()), peer, SendExtended(OUR_UT_METADATA_ID, Encode(Serve(info, piece))))
    {
      var reply := Reject(piece);
      if info.Some? {
        var start := piece * METADATA_PIECE_LEN;
        if start < |info.value| {
          var end := if start + METADATA_PIECE_LEN < |info.value| then start + METADATA_PIECE_LEN else |info.value|;
          reply := Data(piece, info.value[start..end]);
        }
      }
      Tell(peer, SendExtended(OUR_UT_METADATA_ID, Encode(reply)));
    }

    method OnConnected(peer: Peer)
      requires Valid()
      modifies this`peers
      ensures Valid() && Model() == OnEvent(link, old(Model()), Connects(peer))
    {
      peers := peers[peer := MagnetLink(None, None)];
    }

    method OnDisconnected(peer: Peer)
      requires Valid()
      modifies this`peers
      ensures Valid() && Model() == OnEvent(link, old(Model()), Gone(peer))
    {
      peers := peers - {peer};
    }
  }
}
