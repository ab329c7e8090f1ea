/**
 * Peers with their connections and the group that keeps them, in a dictionary by host-port and
 * in a heap by rank (tchannel/tornado/peer.py and tchannel/peer_strategy.py).
 */
module PeerGroup {
  import opened Wrappers
  import opened Heaps
  import opened HostPorts
  import opened PeerHeap

  // ---------- a peer's connections ----------

  /** All incoming connections come before all outgoing ones. */
  predicate Arranged(cs: seq<Connection>) {
    forall i, j | 0 <= i < j < |cs| :: cs[i].direction == Outgoing ==> cs[j].direction == Outgoing
  }

  predicate Unique(cs: seq<Connection>) { forall i, j | 0 <= i < j < |cs| :: cs[i] != cs[j] }

  /** `incoming_connections`: up to the first that is not incoming. */
  function TakeIncoming(cs: seq<Connection>): seq<Connection> {
    if cs == [] || cs[0].direction != Incoming then [] else [cs[0]] + TakeIncoming(cs[1..])
  }

  /** `outgoing_connections`: from the first outgoing one on. */
  function DropToOutgoing(cs: seq<Connection>): seq<Connection> {
    if cs == [] || cs[0].direction == Outgoing then cs else DropToOutgoing(cs[1..])
  }

  lemma {:induction false} OutgoingFromHere(cs: seq<Connection>)
    requires Arranged(cs) && cs != [] && cs[0].direction == Outgoing
    ensures forall c | c in cs :: c.direction == Outgoing
  {
    forall c | c in cs ensures c.direction == Outgoing {
      var i :| 0 <= i < |cs| && cs[i] == c;
    }
  }

  lemma {:induction false} ArrangedRest(cs: seq<Connection>)
    requires Arranged(cs) && cs != []
    ensures Arranged(cs[1..])
  {
    assert forall i | 0 <= i < |cs[1..]| :: cs[1..][i] == cs[i + 1];
  }

  lemma {:induction false} OneMoreIncoming(cs: seq<Connection>, taken: seq<Connection>, dropped: seq<Connection>)
    requires cs != [] && cs[0].direction == Incoming && taken + dropped == cs[1..]
    requires forall c | c in taken :: c.direction == Incoming
    ensures [cs[0]] + taken + dropped == cs
    ensures forall c | c in [cs[0]] + taken :: c.direction == Incoming
  {
    assert [cs[0]] + taken + dropped == [cs[0]] + cs[1..];
  }

  /** The two views divide the connections, and neither holds one of the other direction. */
  lemma {:induction false} ViewsPartition(cs: seq<Connection>)
    requires Arranged(cs)
    ensures TakeIncoming(cs) + DropToOutgoing(cs) == cs
    ensures forall c | c in TakeIncoming(cs) :: c.direction == Incoming
    ensures forall c | c in DropToOutgoing(cs) :: c.direction == Outgoing
  {
    if cs == [] {
    } else if cs[0].direction == Incoming {
      ArrangedRest(cs);
      ViewsPartition(cs[1..]);
      OneMoreIncoming(cs, TakeIncoming(cs[1..]), DropToOutgoing(cs[1..]));
    } else {
      OutgoingFromHere(cs);
    }
  }

  /** Without the arrangement one of the views is wrong. */
  lemma {:induction false} ViewsNeedArrangement(cs: seq<Connection>)
    requires forall c | c in TakeIncoming(cs) :: c.direction == Incoming
    requires forall c | c in DropToOutgoing(cs) :: c.direction == Outgoing
    requires TakeIncoming(cs) + DropToOutgoing(cs) == cs
    ensures Arranged(cs)
  {
    var n := |TakeIncoming(cs)|;
    assert forall k | 0 <= k < n :: cs[k] == TakeIncoming(cs)[k];
    forall i, j | 0 <= i < j < |cs| && cs[i].direction == Outgoing ensures cs[j].direction == Outgoing {
      assert cs[j] == DropToOutgoing(cs)[j - n];
    }
  }

  function HasIncoming(cs: seq<Connection>): bool { cs != [] && cs[0].direction == Incoming }

  /** `connect` on a connected peer: the first connection is incoming if any is. */
  lemma {:induction false} FirstIsIncoming(cs: seq<Connection>)
    requires Arranged(cs)
    ensures HasIncoming(cs) <==> exists c :: c in cs && c.direction == Incoming
  {
    if c :| c in cs && c.direction == Incoming {
      var i :| 0 <= i < |cs| && cs[i] == c;
    }
  }

  function TotalPendings(cs: seq<Connection>): (n: nat)
    reads cs`totalOutboundPendings
  {
    if cs == [] then 0 else cs[0].totalOutboundPendings + TotalPendings(cs[1..])
  }

  lemma {:induction false} TotalsAddUp(a: seq<Connection>, b: seq<Connection>)
    ensures TotalPendings(a + b) == TotalPendings(a) + TotalPendings(b)
  {
    if a == [] {
      assert a + b == b;
    } else {
      TotalsAddUp(a[1..], b);
      assert (a + b)[1..] == a[1..] + b;
    }
  }

  /** The total of one connection is its own count. */
  lemma {:induction false} TotalOfOne(c: Connection)
    ensures TotalPendings([c]) == c.totalOutboundPendings
  {
    assert [c][1..] == [];
  }

  lemma {:induction false} TotalAround(cs: seq<Connection>, i: nat)
    requires i < |cs|
    ensures TotalPendings(cs) == TotalPendings(cs[..i]) + cs[i].totalOutboundPendings + TotalPendings(cs[i + 1..])
  {
    assert cs[..i] + ([cs[i]] + cs[i + 1..]) == cs;
    TotalsAddUp(cs[..i], [cs[i]] + cs[i + 1..]);
  }

  /** When the count of one connection changes, the total of those it is among moves by as much. */
  method SetCount(conn: Connection, pendings: nat, ghost cs: seq<Connection>)
    requires Unique(cs)
    modifies conn`totalOutboundPendings
    ensures conn.totalOutboundPendings == pendings
    ensures TotalPendings(cs)
         == old(TotalPendings(cs)) + (if conn in cs then pendings - old(conn.totalOutboundPendings) else 0)
  {
    ghost var i: nat := 0;
    if conn in cs {
      i :| i < |cs| && cs[i] == conn;
      TotalAround(cs, i);
    }
    conn.totalOutboundPendings := pendings;
    if conn in cs { TotalAround(cs, i); }
  }

  // ---------- ranks ----------

  const MAX_SIZE := 0x7FFF_FFFF_FFFF_FFFF
  const TIERS := [MAX_SIZE, MAX_SIZE / 2, 0]

  /** PreferIncomingCalculator.get_rank; lower is better. */
  function Rank(peer: Peer): int
    reads peer`connections, peer.connections`totalOutboundPendings
  {
    if peer.connections == [] then TIERS[0]
    else if !HasIncoming(peer.connections) then TIERS[1] + TotalPendings(peer.connections)
    else TIERS[2] + TotalPendings(peer.connections)
  }

  // ---------- the group ----------

  datatype Lookup = Found(peer: Peer) | BadHostPort | KeyError

  /** What `connect` hands out: a connection, the attempt under way, or a new attempt. */
  datatype Connecting = Ready(conn: Connection) | Joined | Started

  class PeerGroup {
    const heap: PeerHeap
    var peers: map<string, Peer>
    ghost var pool: set<Peer>
    ghost var conns: set<Connection>

    /** What holds of a peer in the dictionary. */
    ghost predicate Known(hostport: string, p: Peer)
      reads this, heap, p
    {
      && p in pool && p.hostport == hostport
      && (p.index == -1 <==> p !in heap.Members())
      && p.hasCallback == (p in heap.Members())
    }

    /** What holds of a peer in the heap. */
    ghost predicate Listed(p: Peer)
      reads this
    {
      p in pool && p.hostport in peers && peers[p.hostport] == p
    }

    /** What holds of every peer there ever was. */
    ghost predicate Tidy(p: Peer)
      reads this, p, p.connections
    {
      && Arranged(p.connections) && Unique(p.connections)
      && forall c | c in p.connections :: c in conns && c.reportsTo == p
    }

    /** Coherent, except that the rank of one peer may be out of date. */
    ghost predicate CoherentBut(stale: Peer?)
      reads this, heap, pool, conns
    {
      && heap.Members() <= pool
      && heap.Valid() && IsHeap(heap.entries)
      && (forall p, c | p in pool && c in p.connections :: c in conns)
      && (forall p {:trigger Tidy(p)} | p in pool :: Tidy(p))
      && (forall c | c in conns :: c.reportsTo != null && c.reportsTo in pool)
      && (forall hp {:trigger peers[hp]} | hp in peers :: peers[hp] in pool && Known(hp, peers[hp]))
      && (forall p | p in heap.Members() :: Listed(p))
      && (forall p | p in pool && (p in heap.Members() || p.hasCallback) && p != stale :: p.rank == Rank(p))
    }

    /**
     * Heap peers are in the dictionary under the name they print, a known peer's index is -1
     * exactly when it is not in the heap, the rank of every peer that is or was in the heap is the
     * calculator's current value, and the heap is one. Peers that have left the group keep their
     * connections arranged.
     */
    ghost predicate Coherent()
      reads this, heap, pool, conns
    {
      CoherentBut(null)
    }

    constructor ()
      ensures Coherent() && peers == map[] && heap.peers == [] && fresh(heap)
    {
      heap := new PeerHeap();
      peers, pool, conns := map[], {}, {};
    }

    /**
     * A removed peer still calls back, with the index at which it left the heap. Where that is
     * beyond the end of the heap, moving it raises; elsewhere it finds nothing out of place.
     */
    ghost predicate Stranded(peer: Peer)
      reads heap, peer
    {
      peer.hasCallback && 0 < peer.index && |heap.peers| <= peer.index
    }

    /** `_update_heap`, the callback of a peer that is or was in the heap: all was well but for its rank. */
    method UpdateHeap(peer: Peer) returns (ok: bool)
      requires CoherentBut(peer) && peer.hasCallback
      modifies heap`peers, heap`entries, heap.Members()`index, peer`rank
      ensures Coherent() && heap.Members() == old(heap.Members()) && peer.rank == Rank(peer)
      ensures ok <==> !(old(Stranded(peer)) && peer.rank != old(peer.rank))
    {
      var rank := Rank(peer);
      if rank == peer.rank { return true; }
      ok := heap.ChangeRank(peer, rank);
      forall p | p in pool ensures Tidy(p) { assert old(Tidy(p)); }
    }

    // ---------- connection events ----------

    /** A new connection reports to the peer; nothing else changes. */
    method Adopt(peer: Peer, conn: Connection)
      requires Coherent() && peer in pool && conn !in conns
      modifies this`conns, conn`reportsTo
      ensures Coherent() && conns == old(conns) + {conn} && conn.reportsTo == peer
    {
      assert forall p | p in pool :: Tidy(p);
      conns := conns + {conn};
      conn.reportsTo := peer;
      forall p | p in pool ensures Tidy(p) { assert old(Tidy(p)); }
    }

    /** The connections of a peer change, and the group hears of it if the peer is or was in the heap. */
    method SetConnections(peer: Peer, cs: seq<Connection>) returns (ok: bool)
      requires Coherent() && peer in pool && Arranged(cs) && Unique(cs)
      requires forall c | c in cs :: c in conns && c.reportsTo == peer
      modifies peer`connections
      modifies heap`peers, heap`entries, heap.Members()`index, peer`rank
      ensures Coherent() && heap.Members() == old(heap.Members()) && peer.connections == cs
      ensures ok <==> !(old(Stranded(peer)) && peer.rank != old(peer.rank))
      ensures peer.rank == if peer.hasCallback then Rank(peer) else old(peer.rank)
    {
      peer.connections := cs;
      forall p | p in pool ensures Tidy(p) { assert old(Tidy(p)); }
      ok := true;
      if peer.hasCallback { ok := UpdateHeap(peer); }
    }

    /** `register_incoming_conn`: the connection goes to the left end. */
    method RegisterIncoming(peer: Peer, conn: Connection) returns (ok: bool)
      requires Coherent() && peer in pool && conn !in conns && conn.direction == Incoming
      modifies this`conns, peer`connections, conn`reportsTo
      modifies heap`peers, heap`entries, heap.Members()`index, peer`rank
      ensures Coherent() && heap.Members() == old(heap.Members())
      ensures peer.connections == [conn] + old(peer.connections)
      ensures peer.rank == if peer.hasCallback then Rank(peer) else old(peer.rank)
      ensures ok <==> !(old(Stranded(peer)) && peer.rank != old(peer.rank))
    {
      assert Tidy(peer);
      Adopt(peer, conn);
      ok := SetConnections(peer, [conn] + peer.connections);
    }

    /** `register_outgoing_conn`: the connection goes to the right end. */
    method RegisterOutgoing(peer: Peer, conn: Connection) returns (ok: bool)
      requires Coherent() && peer in pool && conn !in conns && conn.direction == Outgoing
      modifies this`conns, peer`connections, conn`reportsTo
      modifies heap`peers, heap`entries, heap.Members()`index, peer`rank
      ensures Coherent() && heap.Members() == old(heap.Members())
      ensures peer.connections == old(peer.connections) + [conn]
      ensures peer.rank == if peer.hasCallback then Rank(peer) else old(peer.rank)
      ensures ok <==> !(old(Stranded(peer)) && peer.rank != old(peer.rank))
    {
      assert Tidy(peer);
      Adopt(peer, conn);
      ok := SetConnections(peer, peer.connections + [conn]);
    }

    /** `on_close` of a connection of the peer. */
    method Close(peer: Peer, conn: Connection) returns (ok: bool)
      requires Coherent() && peer in pool && conn in peer.connections
      modifies peer`connections
      modifies heap`peers, heap`entries, heap.Members()`index, peer`rank
      ensures Coherent() && heap.Members() == old(heap.Members())
      ensures peer.connections == Without(old(peer.connections), conn) && conn !in peer.connections
      ensures peer.rank == if peer.hasCallback then Rank(peer) else old(peer.rank)
      ensures ok <==> !(old(Stranded(peer)) && peer.rank != old(peer.rank))
    {
      assert Tidy(peer);
      WithoutKeeps(peer.connections, conn);
      var rest := Without(peer.connections, conn);
      ok := SetConnections(peer, rest);
    }

    /** The number changes; the peer's rank is out of date by as much. */
    method CountPendings(conn: Connection, pendings: nat)
      requires Coherent() && conn in conns
      modifies conn`totalOutboundPendings
      ensures CoherentBut(conn.reportsTo) && conn.totalOutboundPendings == pendings
      ensures var peer := conn.reportsTo;
              peer.hasCallback ==>
                Rank(peer) == peer.rank
                  + (if conn in peer.connections then pendings - old(conn.totalOutboundPendings) else 0)
    {
      var peer := conn.reportsTo;
      forall p | p in pool ensures Tidy(p) && (p != peer ==> conn !in p.connections) {}
      SetCount(conn, pendings, peer.connections);
      forall p | p in pool ensures Tidy(p) { assert old(Tidy(p)); }
    }

    /** The number of outbound pending requests of a connection changes, and its peer hears of it. */
    method PendingChange(conn: Connection, pendings: nat) returns (ok: bool)
      requires Coherent() && conn in conns
      modifies conn`totalOutboundPendings
      modifies heap`peers, heap`entries, heap.Members()`index, conn.reportsTo`rank
      ensures Coherent() && heap.Members() == old(heap.Members()) && conn.totalOutboundPendings == pendings
      ensures conn.reportsTo.rank
           == if conn.reportsTo.hasCallback then Rank(conn.reportsTo) else old(conn.reportsTo.rank)
      ensures ok <==> !(old(Stranded(conn.reportsTo)) && conn.reportsTo.rank != old(conn.reportsTo.rank))
      ensures conn.reportsTo.hasCallback ==>
        conn.reportsTo.rank == old(conn.reportsTo.rank)
          + (if conn in conn.reportsTo.connections then pendings - old(conn.totalOutboundPendings) else 0)
    {
      var peer := conn.reportsTo;
      CountPendings(conn, pendings);
      ok := true;
      if peer.hasCallback { ok := UpdateHeap(peer); }
    }

    /**
     * `connect`: an incoming connection if the peer has any, else an outgoing one; if it has none,
     * an attempt to make one, of which there is at most one at a time.
     */
    method Connect(peer: Peer) returns (outcome: Connecting)
      requires Coherent() && peer in pool
      modifies peer`connecting
      ensures Coherent()
      ensures outcome.Ready? <==> peer.connections != []
      ensures outcome.Ready? ==>
        && outcome.conn in peer.connections && outcome.conn == peer.connections[0]
        && (outcome.conn.direction == Incoming <==> exists c :: c in peer.connections && c.direction == Incoming)
      ensures outcome.Started? <==> peer.connections == [] && !old(peer.connecting)
      ensures peer.connecting <==> old(peer.connecting) || outcome.Started?
    {
      assert Tidy(peer);
      FirstIsIncoming(peer.connections);
      if peer.connections != [] { return Ready(peer.connections[0]); }
      if peer.connecting { return Joined; }
      peer.connecting := true;
      outcome := Started;
    }

    method StopConnecting(peer: Peer)
      requires Coherent()
      modifies peer`connecting
      ensures Coherent() && !peer.connecting
    {
      peer.connecting := false;
      forall p | p in pool ensures Tidy(p) { assert old(Tidy(p)); }
    }

    /**
     * `on_connect`: the attempt has made a connection or failed. The next `connect` need not wait
     * for it any more, unless registering the connection raises.
     */
    method OnConnect(peer: Peer, made: Option<Connection>) returns (ok: bool)
      requires Coherent() && peer in pool && peer.connecting
      requires made.Some? ==> made.value !in conns && made.value.direction == Outgoing
      modifies this`conns, peer`connections, peer`connecting
      modifies if made.Some? then {made.value} else {}
      modifies heap`peers, heap`entries, heap.Members()`index, peer`rank
      ensures Coherent() && heap.Members() == old(heap.Members())
      ensures peer.connections == old(peer.connections) + (if made.Some? then [made.value] else [])
      ensures peer.rank == if made.Some? && peer.hasCallback then Rank(peer) else old(peer.rank)
      ensures ok <==> made.None? || !(old(Stranded(peer)) && peer.rank != old(peer.rank))
      ensures peer.connecting == !ok
    {
      if made.Some? {
        ok := RegisterOutgoing(peer, made.value);
        if !ok { return; }
      }
      StopConnecting(peer);
      ok := true;
    }

    // ---------- dictionary events ----------

    /** Whether a new peer with this name would push a heap peer out of the dictionary. */
    ghost predicate Displaces(name: string)
      reads this, heap
    {
      name in peers && peers[name] in heap.Members()
    }

    /** `_add`, for a host-port that has been parsed; `r1` and `r2` are the random numbers drawn by the heap. */
    method Add(hp: HostPort, r1: nat, r2: nat) returns (peer: Peer)
      requires Coherent() && r1 <= |heap.peers| && r2 <= |heap.peers|
      modifies this`peers, this`pool, heap, heap.Members()`index, heap.Members()`order
      ensures fresh(peer) && peer.hostport == hp.Name() && peer.isEphemeral == hp.IsEphemeral()
      ensures peer.connections == []
      ensures peers == old(peers)[hp.Name() := peer]
      ensures heap.Members() == old(heap.Members()) + {peer}
      ensures heap.order == old(heap.order) + 1
      ensures Coherent() <==> !old(Displaces(hp.Name()))
    {
      peer := new Peer(hp, MAX_SIZE, true);
      var name := hp.Name();
      peers := peers[name := peer];
      pool := pool + {peer};
      var other := heap.AddAndShuffle(peer, r1, r2);
      Added(name, peer);
    }

    /** What adding a peer to the dictionary and to the heap makes of coherence. */
    twostate lemma {:induction false} Added(name: string, new peer: Peer)
      requires old(Coherent()) && fresh(peer)
      requires peer.hostport == name && peer.connections == [] && peer.rank == MAX_SIZE && peer.hasCallback
      requires peers == old(peers)[name := peer] && pool == old(pool) + {peer} && conns == old(conns)
      requires heap.Valid() && IsHeap(heap.entries) && heap.Members() == old(heap.Members()) + {peer}
      requires forall p | p in old(pool) :: p.rank == old(p.rank) && p.connections == old(p.connections)
                                            && p.hasCallback == old(p.hasCallback)
      requires forall p | p in old(pool) && p !in old(heap.Members()) :: p.index == old(p.index)
      requires unchanged(conns)
      ensures Coherent() <==> !old(Displaces(name))
    {
      if old(Displaces(name)) {
        assert !Listed(old(peers)[name]);
      } else {
        forall hp | hp in peers ensures peers[hp] in pool && Known(hp, peers[hp]) {
          if hp != name {
            assert old(Known(hp, peers[hp]));
          }
        }
        forall p | p in heap.Members() ensures Listed(p) && p.rank == Rank(p) {
          if p != peer {
            assert old(Listed(p));
            assert old(Rank(p)) == Rank(p);
          }
        }
        forall p | p in pool ensures Tidy(p) { assert p != peer ==> old(Tidy(p)); }
      }
    }

    /**
     * `get`. For an unknown host-port the new peer is filed under the name it prints; when that
     * is not the host-port asked for, the lookup that follows raises, and a heap peer that had
     * that name is no longer in the dictionary.
     */
    method Get(hostport: string, r1: nat, r2: nat) returns (found: Lookup)
      requires Coherent() && r1 <= |heap.peers| && r2 <= |heap.peers|
      modifies this`peers, this`pool, heap, heap.Members()`index, heap.Members()`order
      ensures hostport in old(peers) ==>
        found == Found(old(peers)[hostport]) && peers == old(peers) && heap.Members() == old(heap.Members())
      ensures hostport !in old(peers) ==>
        match Canonical(hostport)
        case None => found == BadHostPort && peers == old(peers) && heap.Members() == old(heap.Members())
        case Some(name) =>
          && name in peers && peers == old(peers)[name := peers[name]]
          && fresh(peers[name]) && peers[name].hostport == name && peers[name].connections == []
          && heap.Members() == old(heap.Members()) + {peers[name]}
          && found == (if name == hostport then Found(peers[name]) else KeyError)
      ensures Coherent() <==>
        !(hostport !in old(peers) && Canonical(hostport).Some?
          && old(Displaces(Canonical(hostport).value)))
      ensures Canonical(hostport) == Some(hostport) ==> Coherent()
    {
      if hostport in peers { return Found(peers[hostport]); }
      match Parse(hostport)
      case None => found := BadHostPort;
      case Some(hp) =>
        var peer := Add(hp, r1, r2);
        found := if hostport in peers then Found(peers[hostport]) else KeyError;
    }

    /** `_get_isolated`: a new peer goes in the dictionary but not in the heap. */
    method GetIsolated(hostport: string) returns (found: Lookup)
      requires Coherent()
      modifies this`peers, this`pool
      ensures heap.Members() == old(heap.Members())
      ensures hostport in old(peers) ==> found == Found(old(peers)[hostport]) && peers == old(peers)
      ensures hostport !in old(peers) ==>
        match Canonical(hostport)
        case None => found == BadHostPort && peers == old(peers)
        case Some(name) =>
          && name in peers && peers == old(peers)[name := peers[name]]
          && fresh(peers[name]) && peers[name].hostport == name
          && found == (if name == hostport then Found(peers[name]) else KeyError)
      ensures Coherent() <==>
        !(hostport !in old(peers) && Canonical(hostport).Some?
          && old(Displaces(Canonical(hostport).value)))
    {
      if hostport in peers { return Found(peers[hostport]); }
      match Parse(hostport)
      case None => found := BadHostPort;
      case Some(hp) =>
        var peer := new Peer(hp, MAX_SIZE, false);
        var name := hp.Name();
        peers := peers[name := peer];
        pool := pool + {peer};
        Isolated(name, peer);
        found := if hostport in peers then Found(peers[hostport]) else KeyError;
    }

    twostate lemma {:induction false} Isolated(name: string, new peer: Peer)
      requires old(Coherent()) && fresh(peer)
      requires peer.hostport == name && peer.connections == [] && peer.index == -1 && !peer.hasCallback
      requires peers == old(peers)[name := peer] && pool == old(pool) + {peer} && conns == old(conns)
      requires unchanged(heap) && unchanged(old(pool)) && unchanged(conns)
      ensures Coherent() <==> !old(Displaces(name))
    {
      if old(Displaces(name)) {
        assert !Listed(old(peers)[name]);
      } else {
        forall hp | hp in peers ensures peers[hp] in pool && Known(hp, peers[hp]) {
          if hp != name { assert old(Known(hp, peers[hp])); }
        }
        forall p | p in heap.Members() ensures Listed(p) && p.rank == Rank(p) {
          assert old(Listed(p));
        }
        forall p | p in pool ensures Tidy(p) { assert p != peer ==> old(Tidy(p)); }
      }
    }

    /** `remove`. A heap peer is left with an index, and so stranded unless it was the only one. */
    method Remove(hostport: string) returns (removed: Option<Peer>)
      requires Coherent()
      modifies this`peers, heap`peers, heap`entries, heap.Members()`index
      ensures Coherent() && peers == old(peers) - {hostport}
      ensures removed == (if hostport in old(peers) then Some(old(peers)[hostport]) else None)
      ensures heap.Members() == old(heap.Members()) - (if removed.Some? then {removed.value} else {})
      ensures removed.Some? && removed.value in old(heap.Members()) ==>
        && removed.value.index == |heap.peers| == old(|heap.peers|) - 1
        && (Stranded(removed.value) <==> heap.peers != [])
      ensures removed.Some? && removed.value !in old(heap.Members()) ==> !Stranded(removed.value)
    {
      if hostport !in peers { return None; }
      var peer := peers[hostport];
      assert Known(hostport, peer);
      peers := peers - {hostport};
      if peer.index != -1 {
        var ok := heap.RemovePeer(peer);
      }
      removed := Some(peer);
      Removed(hostport);
    }

    twostate lemma {:induction false} Removed(hostport: string)
      requires old(Coherent()) && hostport in old(peers)
      requires peers == old(peers) - {hostport} && pool == old(pool) && conns == old(conns) && unchanged(conns)
      requires heap.Valid() && IsHeap(heap.entries)
      requires heap.Members() == old(heap.Members()) - {old(peers)[hostport]}
      requires forall p | p in pool :: p.rank == old(p.rank) && p.connections == old(p.connections)
                                       && p.hasCallback == old(p.hasCallback)
      requires forall p | p in pool && p !in old(heap.Members()) :: p.index == old(p.index)
      ensures Coherent()
    {
      forall hp | hp in peers ensures peers[hp] in pool && Known(hp, peers[hp]) {
        assert old(Known(hp, peers[hp]));
        assert old(Known(hostport, peers[hostport]));
      }
      forall p | p in heap.Members() ensures Listed(p) && p.rank == Rank(p) {
        assert old(Listed(p));
        assert old(Rank(p)) == Rank(p);
      }
      forall p | p in pool ensures Tidy(p) { assert old(Tidy(p)); }
    }

    /**
     * `choose` without a host-port: a heap peer that is neither ephemeral nor on the blacklist, if
     * there is one. It is a least one of those that lie under it in the search; so the best peer
     * is chosen if it is permitted.
     */
    method Choose(blacklist: set<string>) returns (chosen: Option<Peer>)
      requires Coherent()
      ensures chosen.None? <==> forall p | p in heap.Members() :: p.isEphemeral || p.hostport in blacklist
      ensures chosen.Some? ==>
        chosen.value in heap.Members() && !chosen.value.isEphemeral && chosen.value.hostport !in blacklist
      ensures chosen.Some? ==>
        forall i | 0 <= i < |heap.peers| && heap.peers[i] != chosen.value
                   && !heap.peers[i].isEphemeral && heap.peers[i].hostport !in blacklist ::
          Earlier(heap.entries, chosen.value.index, i)
      ensures chosen.Some? ==>
        forall i | 0 <= i < |heap.peers| && Under(heap.entries, chosen.value.index, i) ::
          !Lt(heap.peers[i].Keyed().key, chosen.value.Keyed().key)
      ensures heap.peers != [] && !heap.peers[0].isEphemeral && heap.peers[0].hostport !in blacklist ==>
        chosen == Some(heap.peers[0])
    {
      var pred := (p: Peer) => p.hostport !in blacklist && !p.isEphemeral;
      ghost var looked;
      var found;
      found, looked := heap.Smallest(pred);
      if found.None? {
        forall p | p in heap.Members() ensures p.isEphemeral || p.hostport in blacklist {
          assert heap.peers[p.index] == p && !pred(p);
        }
        return None;
      }
      chosen := Some(heap.peers[found.value]);
      assert pred(chosen.value);
    }
  }

  /** Another spelling of a peer's host-port pushes the peer out of the dictionary, but not out of the heap. */
  method TwoSpellings() returns (group: PeerGroup, first: Lookup, second: Lookup)
    ensures fresh(group) && first.Found? && second == KeyError
    ensures first.peer in group.heap.Members() && first.peer.hostport == "h:1"
    ensures "h:1" in group.peers && group.peers["h:1"] != first.peer && !group.Coherent()
  {
    LeadingZeroIsLost();
    group := new PeerGroup();
    first := group.Get("h:1", 0, 0);
    second := group.Get("h:01", 0, 0);
  }

  /** A heap peer without connections is removed while others stay; a connection that comes in later raises. */
  method RemovedThenConnected(group: PeerGroup, peer: Peer, conn: Connection) returns (ok: bool)
    requires group.Coherent() && peer in group.heap.Members() && |group.heap.peers| >= 2
    requires peer.connections == [] && conn !in group.conns
    requires conn.direction == Incoming && conn.totalOutboundPendings == 0
    modifies group`peers, group`conns, group.heap`peers, group.heap`entries, group.heap.Members()`index
    modifies conn, peer`connections, peer`rank
    ensures !ok && group.Coherent() && peer !in group.heap.Members()
  {
    assert group.Listed(peer) && group.Known(peer.hostport, peer);
    var removed := group.Remove(peer.hostport);
    assert peer.rank == TIERS[0];
    ok := group.RegisterIncoming(peer, conn);
    assert peer.connections == [conn] && TotalPendings([conn][1..]) == 0;
  }

  method OnePeer() returns (group: PeerGroup, peer: Peer)
    ensures fresh(group) && fresh(group.heap) && group.Coherent() && fresh(peer)
    ensures group.heap.Members() == {peer} && group.peers.Keys == {"h:1"}
  {
    PlainPorts();
    group := new PeerGroup();
    var found := group.Get("h:1", 0, 0);
    peer := found.peer;
  }

  lemma {:induction false} TwoMembers(heap: PeerHeap, a: Peer, b: Peer)
    requires heap.Valid() && a in heap.Members() && b in heap.Members() && a != b
    ensures |heap.peers| >= 2
  {
    assert a.index != b.index;
  }

  method TwoPeers() returns (group: PeerGroup, peer: Peer)
    ensures fresh(group) && fresh(group.heap) && group.Coherent() && fresh(group.heap.Members())
    ensures peer in group.heap.Members() && peer.connections == [] && |group.heap.peers| >= 2
  {
    PlainPorts();
    var first;
    group, first := OnePeer();
    var second := group.Get("h:2", 0, 0);
    peer := second.peer;
    assert group.heap.Members() == {first, peer};
    TwoMembers(group.heap, first, peer);
  }

  /** It happens in a group of two. */
  method RaisesAfterRemoval() returns (group: PeerGroup, ok: bool)
    ensures !ok && fresh(group) && group.Coherent()
  {
    var peer;
    group, peer := TwoPeers();
    var conn := new Connection(Incoming);
    ok := RemovedThenConnected(group, peer, conn);
  }

  /** `deque.remove`: the first occurrence goes. */
  function Without(cs: seq<Connection>, conn: Connection): (r: seq<Connection>)
    requires conn in cs
    ensures |r| == |cs| - 1
  {
    if cs[0] == conn then cs[1..] else [cs[0]] + Without(cs[1..], conn)
  }

  lemma {:induction false} WithoutKeeps(cs: seq<Connection>, conn: Connection)
    requires conn in cs && Arranged(cs) && Unique(cs)
    ensures Arranged(Without(cs, conn)) && Unique(Without(cs, conn))
    ensures forall k | 0 <= k < |cs| - 1 :: Without(cs, conn)[k] in cs && Without(cs, conn)[k] != conn
    ensures forall c | c in cs && c != conn :: c in Without(cs, conn)
  {
    var i := WithoutAt(cs, conn);
    DropOne(cs, i, Without(cs, conn));
  }

  lemma {:induction false} DropOne(cs: seq<Connection>, i: nat, r: seq<Connection>)
    requires i < |cs| && r == cs[..i] + cs[i + 1..] && Arranged(cs) && Unique(cs)
    ensures Arranged(r) && Unique(r)
    ensures forall k | 0 <= k < |r| :: r[k] in cs && r[k] != cs[i]
    ensures forall c | c in cs && c != cs[i] :: c in r
  {
    forall k | 0 <= k < |r| ensures r[k] == if k < i then cs[k] else cs[k + 1] {}
    forall c | c in cs && c != cs[i] ensures c in r {
      var k :| 0 <= k < |cs| && cs[k] == c;
      assert r[if k < i then k else k - 1] == c;
    }
  }

  lemma {:induction false} OneBehind<T>(xs: seq<T>, k: nat)
    requires k + 1 < |xs|
    ensures xs[1..][k] == xs[k + 1]
    ensures [xs[0]] + (xs[1..][..k] + xs[1..][k + 1..]) == xs[..k + 1] + xs[k + 2..]
  {
  }

  lemma {:induction false} WithoutAt(cs: seq<Connection>, conn: Connection) returns (i: nat)
    requires conn in cs
    ensures i < |cs| && cs[i] == conn && Without(cs, conn) == cs[..i] + cs[i + 1..]
  {
    if cs[0] == conn {
      i := 0;
    } else {
      var k := WithoutAt(cs[1..], conn);
      i := k + 1;
      OneBehind(cs, k);
    }
  }

  // ---------- which peer comes out on top ----------

  /** The rank of a peer: by whether it has an incoming connection, or any, and by what is pending on all of them. */
  lemma {:induction false} RankByTier(peer: Peer)
    requires Arranged(peer.connections)
    ensures peer.connections == [] ==> Rank(peer) == 0x7FFF_FFFF_FFFF_FFFF
    ensures peer.connections != [] ==>
      Rank(peer) == TotalPendings(peer.connections)
        + (if exists c :: c in peer.connections && c.direction == Incoming then 0 else 0x3FFF_FFFF_FFFF_FFFF)
  {
    FirstIsIncoming(peer.connections);
  }

  /** The root of a coherent group has the least rank, and among those of its rank the least order. */
  lemma {:induction false} RootComesFirst(group: PeerGroup, peer: Peer)
    requires group.Coherent() && peer in group.heap.Members()
    ensures group.heap.peers != [] && group.heap.peers[0] in group.heap.Members()
    ensures var root := group.heap.peers[0];
            && root.rank == Rank(root) && peer.rank == Rank(peer)
            && Arranged(root.connections) && Arranged(peer.connections)
            && (root.rank < peer.rank || (root.rank == peer.rank && root.order <= peer.order))
  {
    var heap := group.heap;
    var k :| 0 <= k < |heap.peers| && heap.peers[k] == peer;
    RootIsLeast(heap.entries, k);
    var root := heap.peers[0];
    assert root in heap.Members();
    assert group.Tidy(root) && group.Tidy(peer);
  }

  ghost predicate HasAnyIncoming(peer: Peer)
    reads peer
  {
    exists c :: c in peer.connections && c.direction == Incoming
  }

  /** The root has no more requests pending than any heap peer of its own tier. */
  lemma {:induction false} RootHasFewestPendings(group: PeerGroup, peer: Peer)
    requires group.Coherent() && peer in group.heap.Members() && peer.connections != []
    ensures group.heap.peers != []
    ensures var root := group.heap.peers[0];
            root.connections != [] && (HasAnyIncoming(root) <==> HasAnyIncoming(peer)) ==>
              TotalPendings(root.connections) <= TotalPendings(peer.connections)
  {
    RootComesFirst(group, peer);
    RankByTier(peer);
    RankByTier(group.heap.peers[0]);
  }

  /**
   * A heap peer with an incoming connection and fewer pendings than half the largest rank keeps
   * every peer without one from the root; one with any connection and so few pendings keeps every
   * peer without a connection from it.
   */
  lemma {:induction false} RootPrefersIncoming(group: PeerGroup, peer: Peer)
    requires group.Coherent() && peer in group.heap.Members()
    requires peer.connections != [] && TotalPendings(peer.connections) < MAX_SIZE / 2
    ensures group.heap.peers != [] && group.heap.peers[0].connections != []
    ensures HasAnyIncoming(peer) ==> HasAnyIncoming(group.heap.peers[0])
  {
    RootComesFirst(group, peer);
    RankByTier(peer);
    RankByTier(group.heap.peers[0]);
  }
}
