/** Telling peers about each other: an outbox per peer that understands it, sent
    on every flush; the first message is the whole list, later ones are changes. */
module PexSpec {
  import opened Wrappers
  import opened PieceSpec

  /** A message, as sets of addresses. */
  datatype PexUpdate = PexUpdate(added: set<Peer>, dropped: set<Peer>)

  datatype Outbox = Outbox(fullSent: bool, added: set<Peer>, dropped: set<Peer>)

  datatype PexLink = PexLink(outbox: Option<Outbox>, sent: seq<PexUpdate>)

  type Links = map<Peer, PexLink>

  // Addresses that are told to others: IPv4, with a port, and not our own.
  predicate Eligible(isSelf: Peer -> bool, a: Peer) {
    a.V4? && a.port != 0 && !isSelf(a)
  }

  // What p should know.
  function Visible(isSelf: Peer -> bool, links: Links, p: Peer): set<Peer> {
    set a | a in links && a != p && Eligible(isSelf, a)
  }

  // ---------- Changes of the swarm ----------

  function NoteAdded(link: PexLink, a: Peer): PexLink {
    if link.outbox.None? then link
    else link.(outbox := Some(link.outbox.value.(added := link.outbox.value.added + {a})))
  }

  function NoteDropped(link: PexLink, a: Peer): PexLink {
    if link.outbox.None? then link
    else link.(outbox := Some(link.outbox.value.(dropped := link.outbox.value.dropped + {a})))
  }

  function PeerAdded(isSelf: Peer -> bool, links: Links, addr: Peer): Links {
    if !Eligible(isSelf, addr) then links
    else map p | p in links :: if p == addr then links[p] else NoteAdded(links[p], addr)
  }

  function PeerDropped(links: Links, addr: Peer): Links {
    if !addr.V4? then links
    else map p | p in links :: if p == addr then links[p] else NoteDropped(links[p], addr)
  }

  function Join(isSelf: Peer -> bool, links: Links, addr: Peer): Links {
    PeerAdded(isSelf, links[addr := PexLink(None, [])], addr)
  }

  function Leave(links: Links, addr: Peer): Links {
    PeerDropped(links, addr) - {addr}
  }

  function Declare(links: Links, p: Peer): Links {
    if p in links && links[p].outbox.None? then links[p := links[p].(outbox := Some(Outbox(false, {}, {})))]
    else links
  }

  // ---------- Flushing ----------

  function FlushLink(link: PexLink, all: set<Peer>): PexLink {
    if link.outbox.None? then link
    else
      var o := link.outbox.value;
      if !o.fullSent then PexLink(Some(Outbox(true, {}, {})), link.sent + [PexUpdate(all, {})])
      else if o.added != {} || o.dropped != {} then
        PexLink(Some(Outbox(true, {}, {})), link.sent + [PexUpdate(o.added, o.dropped)])
      else link
  }

  function Flush(isSelf: Peer -> bool, links: Links): Links {
    map p | p in links :: FlushLink(links[p], Visible(isSelf, links, p))
  }

  // ---------- The receiver ----------

  // The first message is the whole list; from then on drops, then additions.
  function Replica(sent: seq<PexUpdate>): set<Peer> {
    if sent == [] then {}
    else
      var last := sent[|sent| - 1];
      (Replica(sent[..|sent| - 1]) - last.dropped) + last.added
  }
}

/** When a receiver knows what the hub knows. */
module PexTheorems {
  import opened Wrappers
  import opened PieceSpec
  import opened PexSpec

  /** The hub with what happened since the last flush. */
  datatype Swarm = Swarm(links: Links, joined: set<Peer>, left: set<Peer>)

  datatype PexEvent = Joined(peer: Peer) | Left(peer: Peer) | Declared(peer: Peer) | Flushed

  // What a receiver's list and the pending changes say about each address.
  ghost predicate LinkInv(isSelf: Peer -> bool, s: Swarm, p: Peer)
    requires p in s.links
  {
    var l := s.links[p];
    if l.outbox.None? || !l.outbox.value.fullSent then l.sent == []
    else
      var o := l.outbox.value;
      && o.added <= s.joined && o.dropped <= s.left
      && (forall a :: a in o.added || a in Replica(l.sent) ==> Eligible(isSelf, a) && a != p)
      && (forall a :: Eligible(isSelf, a) && a != p ==> Told(a in o.added, a in o.dropped, a in Replica(l.sent), a in s.links))
  }

  ghost predicate Told(added: bool, dropped: bool, known: bool, there: bool) {
    && (added && !dropped ==> there)
    && (dropped && !added ==> !there)
    && (!added && !dropped ==> (known <==> there))
  }

  ghost predicate SwarmInv(isSelf: Peer -> bool, s: Swarm) {
    forall p :: p in s.links ==> LinkInv(isSelf, s, p)
  }

  ghost predicate FullSent(s: Swarm, p: Peer) {
    p in s.links && s.links[p].outbox.Some? && s.links[p].outbox.value.fullSent
  }

  // A peer joins only if it is not connected.
  ghost predicate Legal(s: Swarm, ev: PexEvent) {
    && (ev.Joined? ==> ev.peer !in s.links)
    && (ev.Flushed? ==> s.joined !! s.left)
  }

  function After(isSelf: Peer -> bool, s: Swarm, ev: PexEvent): Swarm {
    match ev
    case Joined(peer) => Swarm(Join(isSelf, s.links, peer), s.joined + {peer}, s.left)
    case Left(peer) => Swarm(Leave(s.links, peer), s.joined, s.left + {peer})
    case Declared(peer) => s.(links := Declare(s.links, peer))
    case Flushed => Swarm(Flush(isSelf, s.links), {}, {})
  }

  lemma ReplicaOfOne(sent: seq<PexUpdate>, u: PexUpdate)
    ensures Replica(sent + [u]) == (Replica(sent) - u.dropped) + u.added
  {
  }

  lemma FlushKeepsPeers(isSelf: Peer -> bool, links: Links, p: Peer)
    ensures Visible(isSelf, Flush(isSelf, links), p) == Visible(isSelf, links, p)
  {
  }

  // After a flush a receiver that had the whole list agrees with the hub
  // exactly if every address reported both ways is connected now; one that
  // applies the additions first, exactly if none of them is.
  lemma FlushAgreesIff(isSelf: Peer -> bool, s: Swarm, p: Peer)
    requires p in s.links && LinkInv(isSelf, s, p) && FullSent(s, p)
    ensures var o := s.links[p].outbox.value;
            var known, all := Replica(s.links[p].sent), Visible(isSelf, s.links, p);
            && (Replica(Flush(isSelf, s.links)[p].sent) == all <==> forall a :: a in o.added * o.dropped ==> a in s.links)
            && ((known + o.added) - o.dropped == all <==> forall a :: a in o.added * o.dropped ==> a !in s.links)
  {
  }

  lemma FirstFlushAgrees(isSelf: Peer -> bool, s: Swarm, p: Peer)
    requires p in s.links && LinkInv(isSelf, s, p) && s.links[p].outbox.Some? && !FullSent(s, p)
    ensures Replica(Flush(isSelf, s.links)[p].sent) == Visible(isSelf, s.links, p)
  {
  }

  lemma JoinKeeps(isSelf: Peer -> bool, s: Swarm, addr: Peer)
    requires SwarmInv(isSelf, s) && addr !in s.links
    ensures SwarmInv(isSelf, After(isSelf, s, Joined(addr)))
  {
  }

  lemma LeaveKeeps(isSelf: Peer -> bool, s: Swarm, addr: Peer)
    requires SwarmInv(isSelf, s)
    ensures SwarmInv(isSelf, After(isSelf, s, Left(addr)))
  {
  }

  lemma DeclareKeeps(isSelf: Peer -> bool, s: Swarm, addr: Peer)
    requires SwarmInv(isSelf, s)
    ensures SwarmInv(isSelf, After(isSelf, s, Declared(addr)))
  {
  }

  lemma FlushKeeps(isSelf: Peer -> bool, s: Swarm)
    requires SwarmInv(isSelf, s) && s.joined !! s.left
    ensures SwarmInv(isSelf, After(isSelf, s, Flushed))
    ensures Agrees(isSelf, After(isSelf, s, Flushed).links)
  {
    var r := After(isSelf, s, Flushed);
    forall p | p in r.links
      ensures LinkInv(isSelf, r, p)
      ensures r.links[p].outbox.Some? ==> Replica(r.links[p].sent) == Visible(isSelf, r.links, p) {
      assert LinkInv(isSelf, s, p);
      FlushKeepsPeers(isSelf, s.links, p);
      if FullSent(s, p) {
        var o := s.links[p].outbox.value;
        assert o.added * o.dropped == {};
        FlushAgreesIff(isSelf, s, p);
      } else if s.links[p].outbox.Some? {
        FirstFlushAgrees(isSelf, s, p);
      }
    }
  }

  // Every receiver has exactly the connected IPv4 peers with a port, except
  // itself and us.
  ghost predicate Agrees(isSelf: Peer -> bool, links: Links) {
    forall p :: p in links && links[p].outbox.Some? ==> Replica(links[p].sent) == Visible(isSelf, links, p)
  }

  lemma EventKeeps(isSelf: Peer -> bool, s: Swarm, ev: PexEvent)
    requires SwarmInv(isSelf, s) && Legal(s, ev)
    ensures SwarmInv(isSelf, After(isSelf, s, ev))
  {
    match ev {
      case Joined(peer) => JoinKeeps(isSelf, s, peer);
      case Left(peer) => LeaveKeeps(isSelf, s, peer);
      case Declared(peer) => DeclareKeeps(isSelf, s, peer);
      case Flushed => FlushKeeps(isSelf, s);
    }
  }

  ghost predicate LegalRun(isSelf: Peer -> bool, s: Swarm, events: seq<PexEvent>)
    decreases |events|
  {
    events != [] ==> Legal(s, events[0]) && LegalRun(isSelf, After(isSelf, s, events[0]), events[1..])
  }

  ghost function Ran(isSelf: Peer -> bool, s: Swarm, events: seq<PexEvent>): Swarm
    decreases |events|
  {
    if events == [] then s else Ran(isSelf, After(isSelf, s, events[0]), events[1..])
  }

  // In a run in which no address both joins and leaves between two flushes,
  // every receiver agrees with the hub after every flush.
  lemma {:induction false} AgreesAfterEveryFlush(isSelf: Peer -> bool, s: Swarm, events: seq<PexEvent>, i: nat)
    requires SwarmInv(isSelf, s) && LegalRun(isSelf, s, events) && i < |events| && events[i].Flushed?
    ensures Agrees(isSelf, Ran(isSelf, s, events[..i + 1]).links)
    decreases |events|
  {
    var next := After(isSelf, s, events[0]);
    assert events[..i + 1][1..] == events[1..][..i];
    if i == 0 {
      FlushKeeps(isSelf, s);
      assert Ran(isSelf, next, events[1..][..0]) == next;
    } else {
      EventKeeps(isSelf, s, events[0]);
      AgreesAfterEveryFlush(isSelf, next, events[1..], i - 1);
      assert events[1..][..i] == events[1..][..i - 1 + 1];
    }
  }

  // From a hub without peers.
  lemma AgreesFromTheStart(isSelf: Peer -> bool, events: seq<PexEvent>, i: nat)
    requires LegalRun(isSelf, NoPeers(), events) && i < |events| && events[i].Flushed?
    ensures Agrees(isSelf, Ran(isSelf, NoPeers(), events[..i + 1]).links)
  {
    AgreesAfterEveryFlush(isSelf, NoPeers(), events, i);
  }

  function NoPeers(): Swarm {
    Swarm(map[], {}, {})
  }

  // A receiver has the whole list; then `a` comes and goes, and a flush follows.
  function ComeAndGo(p: Peer, a: Peer): seq<PexEvent> {
    [Joined(p), Declared(p), Flushed, Joined(a), Left(a), Flushed]
  }

  lemma {:induction false} RanLast(isSelf: Peer -> bool, s: Swarm, events: seq<PexEvent>, ev: PexEvent)
    ensures Ran(isSelf, s, events + [ev]) == After(isSelf, Ran(isSelf, s, events), ev)
    decreases |events|
  {
    if events == [] {
      assert [ev][1..] == [] && [] + [ev] == [ev];
    } else {
      assert (events + [ev])[1..] == events[1..] + [ev];
      RanLast(isSelf, After(isSelf, s, events[0]), events[1..], ev);
    }
  }

  lemma {:induction false} RanTwice(isSelf: Peer -> bool, s: Swarm, events: seq<PexEvent>, more: seq<PexEvent>)
    ensures Ran(isSelf, s, events + more) == Ran(isSelf, Ran(isSelf, s, events), more)
    decreases |more|
  {
    if more == [] {
      assert events + more == events;
    } else {
      RanLast(isSelf, s, events, more[0]);
      assert events + more == (events + [more[0]]) + more[1..];
      RanTwice(isSelf, s, events + [more[0]], more[1..]);
    }
  }

  // The receiver is left with an address that is not connected.
  lemma StaleAddress(isSelf: Peer -> bool, p: Peer, a: Peer)
    requires p != a && Eligible(isSelf, a)
    ensures var links := Ran(isSelf, NoPeers(), ComeAndGo(p, a)).links;
            && p in links && links[p].outbox.Some? && a in Replica(links[p].sent)
            && a !in links && !Agrees(isSelf, links)
  {
    var full := PexLink(Some(Outbox(true, {}, {})), [PexUpdate({}, {})]);
    var first, rest := [Joined(p), Declared(p), Flushed], [Joined(a), Left(a), Flushed];
    assert ComeAndGo(p, a) == first + rest;
    RanTwice(isSelf, NoPeers(), first, rest);
    assert Ran(isSelf, NoPeers(), first) == Swarm(map[p := full], {}, {}) by {
      FirstList(isSelf, p, full);
    }
    CameAndWent(isSelf, p, a, full);
  }

  lemma FirstList(isSelf: Peer -> bool, p: Peer, full: PexLink)
    requires full == PexLink(Some(Outbox(true, {}, {})), [PexUpdate({}, {})])
    ensures Ran(isSelf, NoPeers(), [Joined(p), Declared(p), Flushed]) == Swarm(map[p := full], {}, {})
  {
    var joined := After(isSelf, NoPeers(), Joined(p));
    assert joined.links == map[p := PexLink(None, [])];
    var declared := After(isSelf, joined, Declared(p));
    assert declared.links == map[p := PexLink(Some(Outbox(false, {}, {})), [])];
    assert Visible(isSelf, declared.links, p) == {};
    var flushed := After(isSelf, declared, Flushed);
    assert FlushLink(declared.links[p], {}) == full by {
      assert declared.links[p].sent + [PexUpdate({}, {})] == full.sent;
    }
    assert flushed.links == map[p := full];
    RanOfThree(isSelf, NoPeers(), Joined(p), Declared(p), Flushed);
  }

  lemma RanOfThree(isSelf: Peer -> bool, s: Swarm, a: PexEvent, b: PexEvent, c: PexEvent)
    ensures Ran(isSelf, s, [a, b, c]) == After(isSelf, After(isSelf, After(isSelf, s, a), b), c)
  {
    RanLast(isSelf, s, [], a);
    RanLast(isSelf, s, [a], b);
    RanLast(isSelf, s, [a, b], c);
    assert [] + [a] == [a] && [a] + [b] == [a, b] && [a, b] + [c] == [a, b, c];
  }

  lemma CameAndWent(isSelf: Peer -> bool, p: Peer, a: Peer, full: PexLink)
    requires p != a && Eligible(isSelf, a) && full == PexLink(Some(Outbox(true, {}, {})), [PexUpdate({}, {})])
    ensures var links := Ran(isSelf, Swarm(map[p := full], {}, {}), [Joined(a), Left(a), Flushed]).links;
            && p in links && links[p].outbox.Some? && a in Replica(links[p].sent)
            && a !in links && !Agrees(isSelf, links)
  {
    var start := Swarm(map[p := full], {}, {});
    assert full.outbox.value.added + {a} == {a} && full.outbox.value.dropped + {a} == {a};
    var came := After(isSelf, start, Joined(a));
    assert came.links[p] == full.(outbox := Some(Outbox(true, {a}, {})));
    var went := After(isSelf, came, Left(a));
    assert went.links[p] == full.(outbox := Some(Outbox(true, {a}, {a}))) && a !in went.links;
    var links := After(isSelf, went, Flushed).links;
    assert links[p].sent == [PexUpdate({}, {})] + [PexUpdate({a}, {a})];
    ReplicaOfOne([PexUpdate({}, {})], PexUpdate({a}, {a}));
    RanOfThree(isSelf, start, Joined(a), Left(a), Flushed);
  }
}

/** The hub's side of it. */
module Pex {
  import opened Wrappers
  import opened PieceSpec
  import opened PexSpec

  class PexHub {
    const isSelf: Peer -> bool
    var links: Links

    constructor (isSelf: Peer -> bool)
      ensures this.isSelf == isSelf && links == map[]
    {
      this.isSelf := isSelf;
      links := map[];
    }

    method Register(addr: Peer)
      modifies this
      ensures links == Join(isSelf, old(links), addr)
    {
      links := links[addr := PexLink(None, [])];
      PeerAdded(addr);
    }

    method PeerAdded(addr: Peer)
      modifies this
      ensures links == PexSpec.PeerAdded(isSelf, old(links), addr)
    {
      if !addr.V4? || addr.port == 0 || isSelf(addr) {
        return;
      }
      ghost var before := links;
      var rest := links.Keys;
      while rest != {}
        invariant rest <= links.Keys == before.Keys
        invariant forall p :: p in links ==>
                    links[p] == if p in rest || p == addr then before[p] else NoteAdded(before[p], addr)
        decreases |rest|
      {
        var other :| other in rest;
        rest := rest - {other};
        if other != addr && links[other].outbox.Some? {
          var o := links[other].outbox.value;
          links := links[other := links[other].(outbox := Some(o.(added := o.added + {addr})))];
        }
      }
    }

    method Disconnected(addr: Peer)
      modifies this
      ensures links == Leave(old(links), addr)
    {
      PeerDropped(addr);
      links := links - {addr};
    }

    method PeerDropped(addr: Peer)
      modifies this
      ensures links == PexSpec.PeerDropped(old(links), addr)
    {
      if !addr.V4? {
        return;
      }
      ghost var before := links;
      var rest := links.Keys;
      while rest != {}
        invariant rest <= links.Keys == before.Keys
        invariant forall p :: p in links ==>
                    links[p] == if p in rest || p == addr then before[p] else NoteDropped(before[p], addr)
        decreases |rest|
      {
        var other :| other in rest;
        rest := rest - {other};
        if other != addr && links[other].outbox.Some? {
          var o := links[other].outbox.value;
          links := links[other := links[other].(outbox := Some(o.(dropped := o.dropped + {addr})))];
        }
      }
    }

    method OnExtHandshake(p: Peer, utPex: bool)
      modifies this
      ensures links == if utPex then Declare(old(links), p) else old(links)
    {
      if p in links && utPex && links[p].outbox.None? {
        links := links[p := links[p].(outbox := Some(Outbox(false, {}, {})))];
      }
    }

    method FlushPex()
      modifies this
      ensures links == Flush(isSelf, old(links))
    {
      ghost var before := links;
      var fullLists := map p | p in links && links[p].outbox.Some? && !links[p].outbox.value.fullSent ::
                         set a | a in links && a != p && a.V4? && a.port != 0 && !isSelf(a);
      var rest := links.Keys;
      while rest != {}
        invariant rest <= links.Keys == before.Keys
        invariant forall p :: p in links ==>
                    links[p] == if p in rest then before[p] else FlushLink(before[p], Visible(isSelf, before, p))
        decreases |rest|
      {
        var p :| p in rest;
        rest := rest - {p};
        if links[p].outbox.Some? {
          var o := links[p].outbox.value;
          if p in fullLists {
            assert fullLists[p] == Visible(isSelf, before, p);
            links := links[p := PexLink(Some(Outbox(true, {}, {})), links[p].sent + [PexUpdate(fullLists[p], {})])];
          } else if o.added != {} || o.dropped != {} {
            links := links[p := PexLink(Some(Outbox(o.fullSent, {}, {})), links[p].sent + [PexUpdate(o.added, o.dropped)])];
          }
        }
      }
    }
  }
}
