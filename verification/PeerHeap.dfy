/**
 * PeerHeap of tchannel/peer_heap.py with the loops of tchannel/container/heap.py, working on
 * peers in place and proved against the operations of Heaps. Random choices are parameters.
 */
module PeerHeap {
  import opened Wrappers
  import opened Heaps
  import opened HostPorts

  datatype Direction = Incoming | Outgoing

  class Connection {
    const direction: Direction
    var totalOutboundPendings: nat
    var reportsTo: Peer?  // the peer whose callback hears of changes

    constructor (direction: Direction)
      ensures this.direction == direction && totalOutboundPendings == 0 && reportsTo == null
    {
      this.direction, totalOutboundPendings, reportsTo := direction, 0, null;
    }
  }

  /** A peer: `hostport` is the name it prints, `host:port`. */
  class Peer {
    const hostport: string
    const isEphemeral: bool
    var rank: int
    var order: int
    var index: int
    var connections: seq<Connection>
    var hasCallback: bool  // whether connection changes are reported to the peer group
    var connecting: bool   // whether an outgoing connection is being made

    constructor (hp: HostPort, rank: int, hasCallback: bool)
      ensures hostport == hp.Name() && isEphemeral == hp.IsEphemeral()
      ensures this.rank == rank && this.hasCallback == hasCallback
      ensures index == -1 && order == 0 && connections == [] && !connecting
    {
      hostport, isEphemeral := hp.Name(), hp.IsEphemeral();
      this.rank, this.hasCallback := rank, hasCallback;
      index, order, connections, connecting := -1, 0, [], false;
    }

    function Keyed(): Entry<Peer>
      reads this
    {
      Entry(this, Key(rank, order))
    }
  }

  class PeerHeap {
    var peers: seq<Peer>
    var order: int

    /** The peers with their keys, in heap order. */
    ghost var entries: seq<Entry<Peer>>

    /** Every peer knows its position. */
    ghost predicate Valid()
      reads this, peers
    {
      && |entries| == |peers|
      && forall k | 0 <= k < |peers| :: peers[k].index == k && entries[k] == peers[k].Keyed()
    }

    constructor ()
      ensures Valid() && entries == [] && order == 0
    {
      peers, order, entries := [], 0, [];
    }

    predicate Less(i: nat, j: nat)
      requires i < |peers| && j < |peers|
      reads this, peers
      ensures Less(i, j) <==> Lt(peers[i].Keyed().key, peers[j].Keyed().key)
    {
      if peers[i].rank == peers[j].rank then peers[i].order < peers[j].order else peers[i].rank < peers[j].rank
    }

    ghost function Members(): set<Peer>
      reads this
    {
      set p | p in peers
    }

    method SwapPeers(i: nat, j: nat)
      requires Valid() && i < |peers| && j < |peers|
      modifies this`peers, this`entries, Members()`index
      ensures Valid() && Members() == old(Members())
      ensures entries == Swap(old(entries), i, j)
    {
      peers := peers[i := peers[j]][j := peers[i]];
      peers[i].index := i;
      peers[j].index := j;
      entries := Swap(entries, i, j);
      SameMembers(old(peers), peers, i, j);
    }

    static lemma {:induction false} SameMembers(s: seq<Peer>, t: seq<Peer>, i: nat, j: nat)
      requires i < |s| && j < |s| && t == s[i := s[j]][j := s[i]]
      ensures (set p | p in t) == (set p | p in s)
    {
      forall p | p in s ensures p in t {
        var k :| 0 <= k < |s| && s[k] == p;
        assert t[if k == i then j else if k == j then i else k] == p;
      }
    }

    method MoveUp(start: nat)
      requires Valid() && start < |peers|
      modifies this`peers, this`entries, Members()`index
      ensures Valid() && Members() == old(Members())
      ensures entries == Up(old(entries), start)
    {
      var child := start;
      while child > 0
        invariant 0 <= child < |peers| && Valid() && Members() == old(Members())
        invariant Up(entries, child) == Up(old(entries), start)
      {
        var parent := (child - 1) / 2;
        if !Less(child, parent) { break; }
        SwapPeers(parent, child);
        child := parent;
      }
    }

    /** The child that is to move up if any is. */
    method SmallerChild(parent: nat, n: nat) returns (minChild: nat)
      requires Valid() && n <= |peers| && 2 * parent + 1 < n
      ensures minChild == MinChild(entries, parent, n)
    {
      var child1 := 2 * parent + 1;
      var child2 := child1 + 1;
      minChild := child1;
      if child2 < n && !Less(child1, child2) { minChild := child2; }
    }

    method MoveDown(start: nat, n: nat)
      requires Valid() && n <= |peers|
      modifies this`peers, this`entries, Members()`index
      ensures Valid() && Members() == old(Members())
      ensures entries == Down(old(entries), start, n)
    {
      ghost var settled := Down(entries, start, n);
      var parent := start;
      while true
        invariant 0 <= parent && n <= |peers| && Valid() && Members() == old(Members())
        invariant Down(entries, parent, n) == settled
        decreases n - parent
      {
        if 2 * parent + 1 >= n { break; }
        var minChild := SmallerChild(parent, n);
        DownGoesOn(entries, parent, n, minChild);
        if !Less(minChild, parent) { break; }
        SwapPeers(parent, minChild);
        parent := minChild;
      }
    }

    method FixAt(i: nat)
      requires Valid() && i < |peers|
      modifies this`peers, this`entries, Members()`index
      ensures Valid() && Members() == old(Members())
      ensures entries == Fix(old(entries), i)
    {
      MoveDown(i, |peers|);
      MoveUp(i);
    }

    // ---------- heap operations ----------

    /** `heap.init`. */
    method InitHeap()
      requires Valid()
      modifies this`peers, this`entries, Members()`index
      ensures Valid() && Members() == old(Members())
      ensures entries == Init(old(entries))
    {
      ghost var first := entries;
      var n := |peers|;
      var i := n / 2;
      while i > 0
        invariant |peers| == n && 0 <= i <= n / 2 && Valid() && Members() == old(Members())
        invariant entries == Heapified(first, i)
      {
        i := i - 1;
        HeapifyAt(i, first);
      }
    }

    /** One round of `init`. */
    method HeapifyAt(i: nat, ghost first: seq<Entry<Peer>>)
      requires Valid() && i < |first| / 2 && entries == Heapified(first, i + 1)
      modifies this`peers, this`entries, Members()`index
      ensures Valid() && Members() == old(Members()) && |peers| == old(|peers|)
      ensures entries == Heapified(first, i)
    {
      MoveDown(i, |peers|);
    }

    /** `heap.push`. */
    method PushEntry(x: Peer)
      requires Valid() && x !in peers
      modifies this`peers, this`entries, Members()`index, x`index
      ensures Valid() && Members() == old(Members()) + {x}
      ensures entries == Push(old(entries), x.Keyed())
      ensures old(IsHeap(entries)) ==> IsHeap(entries)
    {
      if IsHeap(entries) { PushKeepsHeap(entries, x.Keyed()); }
      x.index := |peers|;
      peers, entries := peers + [x], entries + [x.Keyed()];
      MoveUp(|peers| - 1);
    }

    /** `heap.pop`, and PeerHeap's `pop_peer`. */
    method PopPeer() returns (top: Option<Peer>)
      requires Valid()
      modifies this`peers, this`entries, Members()`index
      ensures Valid()
      ensures old(peers) == [] ==> top == None && peers == []
      ensures old(peers) != [] ==>
        && top == Some(old(peers[0])) && Members() == old(Members()) - {top.value}
        && entries == PopAll(old(entries))[..|old(peers)| - 1]
        && (old(IsHeap(entries)) ==> IsHeap(entries))
    {
      if peers == [] { return None; }
      ghost var moved, root, n := PopAll(entries), entries[0], |peers| - 1;
      assert moved[n] == root && (IsHeap(entries) ==> IsHeap(moved[..n])) by {
        PoppedIsRoot(entries);
        if IsHeap(entries) { PopKeepsHeap(entries); }
      }
      MoveRootToEnd();
      assert entries == moved;
      var last := DropLastPeer();
      top := Some(last);
    }

    method MoveRootToEnd()
      requires Valid() && peers != []
      modifies this`peers, this`entries, Members()`index
      ensures Valid() && Members() == old(Members())
      ensures entries == PopAll(old(entries))
    {
      var n := |peers| - 1;
      SwapPeers(0, n);
      MoveDown(0, n);
    }

    method DropLastPeer() returns (last: Peer)
      requires Valid() && peers != []
      modifies this`peers, this`entries
      ensures last == old(peers[|peers| - 1])
      ensures Valid() && entries == old(entries)[..|old(peers)| - 1] && Members() == old(Members()) - {last}
    {
      var n := |peers| - 1;
      last := peers[n];
      peers, entries := peers[..n], entries[..n];
    }

    /**
     * `heap.remove`, and PeerHeap's `remove_peer`: an index out of range raises. The peer is left
     * with the index it had at the end of the heap, which is the heap's new size.
     */
    method RemovePeer(peer: Peer) returns (ok: bool)
      requires Valid() && (0 <= peer.index < |peers| ==> peers[peer.index] == peer)
      modifies this`peers, this`entries, Members()`index
      ensures Valid() && ok == (0 <= old(peer.index) < old(|peers|))
      ensures !ok ==> peers == old(peers) && entries == old(entries)
      ensures ok ==>
        && Members() == old(Members()) - {peer}
        && entries == RemoveAll(old(entries), old(peer.index))[..old(|peers|) - 1]
        && peer.index == |peers| == old(|peers|) - 1
      ensures old(IsHeap(entries)) ==> IsHeap(entries)
    {
      if peer.index < 0 || peer.index >= |peers| { return false; }
      TakeToEnd(peer.index);
      var last := DropLastPeer();
      ok := true;
    }

    /** The peer comes to stand behind the others, which form a heap if all of them did. */
    method TakeToEnd(i: nat)
      requires Valid() && i < |peers|
      modifies this`peers, this`entries, Members()`index
      ensures Valid() && Members() == old(Members()) && |peers| == old(|peers|)
      ensures entries == RemoveAll(old(entries), i) && peers[|peers| - 1] == old(peers[i])
      ensures old(IsHeap(entries)) ==> IsHeap(entries[..|peers| - 1])
    {
      RemovedIsLast(entries, i);
      if IsHeap(entries) { RemoveKeepsHeap(entries, i); }
      MoveToEnd(i);
    }

    method MoveToEnd(i: nat)
      requires Valid() && i < |peers|
      modifies this`peers, this`entries, Members()`index
      ensures Valid() && Members() == old(Members())
      ensures entries == RemoveAll(old(entries), i)
    {
      var n := |peers| - 1;
      if n != i {
        SwapPeers(i, n);
        MoveDown(i, n);
        MoveUp(i);
      }
    }

    /**
     * `update_peer`: fixes the heap at the index the peer has. For a peer that is not in the heap
     * any more, that is the place of another peer or lies outside; `up` raises if it lies beyond
     * the end.
     */
    method UpdatePeer(peer: Peer) returns (ok: bool)
      requires Valid()
      modifies this`peers, this`entries, Members()`index
      ensures Valid() && Members() == old(Members())
      ensures ok <==> old(peer.index <= 0 || peer.index < |peers|)
      ensures entries == if 0 <= old(peer.index) < old(|peers|) then Fix(old(entries), old(peer.index))
                         else old(entries)
      ensures old(0 <= peer.index < |peers| && HeapBut(entries, peer.index, |peers|)) ==> IsHeap(entries)
      ensures old(IsHeap(entries)) ==> entries == old(entries)
    {
      var i := peer.index;
      if i < 0 || |peers| <= i { return i <= 0; }
      if HeapBut(entries, i, |peers|) { FixRestores(entries, i); }
      if IsHeap(entries) { FixOfHeap(entries, i); }
      FixAt(i);
      ok := true;
    }

    /** A peer gets another rank, and if it is in the heap it is moved to where it belongs. */
    method ChangeRank(peer: Peer, rank: int) returns (ok: bool)
      requires Valid() && IsHeap(entries)
      modifies this`peers, this`entries, Members()`index, peer`rank
      ensures Valid() && IsHeap(entries) && Members() == old(Members()) && peer.rank == rank
      ensures ok <==> old(peer.index <= 0 || peer.index < |peers|)
    {
      ghost var before := entries;
      peer.rank := rank;
      if peer in Members() {
        entries := SetKey(entries, peer.index, Key(rank, peer.order));
        ChangedKey(before, entries, peer.index);
      }
      ok := UpdatePeer(peer);
    }

    /** `push_peer`; `r` is the random number drawn from 0 to the heap's size. */
    method PushPeer(peer: Peer, r: nat)
      requires Valid() && peer !in peers && r <= |peers|
      modifies this, Members()`index, peer`index, peer`order
      ensures Valid() && Members() == old(Members()) + {peer} && order == old(order) + 1
      ensures entries == Push(old(entries), Entry(peer, Key(peer.rank, order + r)))
      ensures peer.order == order + r && forall p | p in old(Members()) :: p.order == old(p.order)
      ensures old(IsHeap(entries)) ==> IsHeap(entries)
    {
      order := order + 1;
      peer.order := order + r;
      PushEntry(peer);
    }

    method ExchangeOrders(index1: nat, index2: nat)
      requires Valid() && index1 < |peers| && index2 < |peers| && index1 != index2
      modifies this`entries, Members()`order
      ensures Valid() && entries == Exchanged(old(entries), index1, index2)
      ensures peers[index1].order == old(peers[index2].order) && peers[index2].order == old(peers[index1].order)
      ensures forall p | p in Members() && p != peers[index1] && p != peers[index2] :: p.order == old(p.order)
    {
      var p1, p2 := peers[index1], peers[index2];
      p1.order, p2.order := p2.order, p1.order;
      entries := Exchanged(entries, index1, index2);
    }

    /** A peer's index is its only position. */
    method PositionOf(peer: Peer) returns (i: nat)
      requires Valid() && peer in Members()
      ensures i < |peers| && peers[i] == peer && i == peer.index
      ensures forall k | 0 <= k < |entries| && entries[k].item == peer :: k == i
    {
      i := peer.index;
    }

    method SwapOrder(index1: nat, index2: nat)
      requires Valid() && index1 < |peers| && index2 < |peers|
      modifies this`peers, this`entries, Members()`index, Members()`order
      ensures Valid() && Members() == old(Members())
      ensures entries == Heaps.SwapOrder(old(entries), index1, index2)
      ensures old(peers[index1]).order == old(peers[index2].order)
      ensures old(peers[index2]).order == old(peers[index1].order)
      ensures forall p | p in Members() && p != old(peers[index1]) && p != old(peers[index2]) :: p.order == old(p.order)
    {
      if index1 == index2 { return; }
      var p1, p2 := peers[index1], peers[index2];
      assert p2 in Members();
      ExchangeOrders(index1, index2);
      FixAt(p1.index);
      var second := PositionOf(p2);
      SwapOrderSteps(old(entries), index1, index2, entries, second);
      FixAt(second);
    }

    /** Whichever two peers exchange orders, a heap stays one. */
    method Shuffle(index1: nat, index2: nat)
      requires Valid() && index1 < |peers| && index2 < |peers|
      modifies this`peers, this`entries, Members()`index, Members()`order
      ensures Valid() && Members() == old(Members())
      ensures old(peers[index1]).order == old(peers[index2].order)
      ensures old(peers[index2]).order == old(peers[index1].order)
      ensures forall p | p in Members() && p != old(peers[index1]) && p != old(peers[index2]) :: p.order == old(p.order)
      ensures old(IsHeap(entries)) ==> IsHeap(entries)
    {
      if IsHeap(entries) { SwapOrderRestores(entries, index1, index2); }
      SwapOrder(index1, index2);
    }

    /** The peer joins; `other` is the one at the position drawn. */
    method PushAndPick(peer: Peer, r1: nat, r2: nat) returns (other: Peer)
      requires Valid() && peer !in peers && r1 <= |peers| && r2 <= |peers|
      modifies this, Members()`index, peer`index, peer`order
      ensures Valid() && Members() == old(Members()) + {peer} && order == old(order) + 1
      ensures r2 < |peers| && other == peers[r2] && 0 <= peer.index < |peers| && peers[peer.index] == peer
      ensures Push(old(entries), Entry(peer, Key(peer.rank, order + r1)))[r2].item == other
      ensures peer.order == order + r1 && forall p | p in old(Members()) :: p.order == old(p.order)
      ensures old(IsHeap(entries)) ==> IsHeap(entries)
    {
      PushPeer(peer, r1);
      other := peers[r2];
      assert entries[r2].item == other;
    }

    /**
     * `add_and_shuffle`; `r1` and `r2` are the two random numbers. Whatever they are, a heap stays
     * one, and the new peer's order is exchanged with that of the peer at the second of them once
     * it has joined, which may be itself.
     */
    method AddAndShuffle(peer: Peer, r1: nat, r2: nat) returns (other: Peer)
      requires Valid() && peer !in peers && r1 <= |peers| && r2 <= |peers|
      modifies this, Members()`index, Members()`order, peer`index, peer`order
      ensures Valid() && Members() == old(Members()) + {peer} && order == old(order) + 1
      ensures other in Members() && peer.order == (if other == peer then order + r1 else old(other.order))
      ensures Push(old(entries), Entry(peer, Key(peer.rank, order + r1)))[r2].item == other
      ensures forall p | p in old(Members()) :: p.order == if p == other then order + r1 else old(p.order)
      ensures old(IsHeap(entries)) ==> IsHeap(entries)
    {
      other := PushAndPick(peer, r1, r2);
      Shuffle(peer.index, r2);
    }

    static ghost function Unseen(n: nat, looked: seq<nat>): set<nat> {
      set i {:trigger i in looked} | 0 <= i < n && i !in looked
    }

    method ChildrenOf(current: nat) returns (children: seq<nat>)
      requires Valid()
      ensures children == Children(entries, current)
    {
      var n, child1: nat, child2: nat := |peers|, 2 * current + 1, 2 * current + 2;
      if child1 < n && child2 < n && Less(child2, child1) {
        child1, child2 := child2, child1;
      }
      children := [];
      if child1 < n { children := children + [child1]; }
      if child2 < n { children := children + [child2]; }
    }

    /**
     * `heap.smallest`: the match that comes first level by level, the smaller sibling's family
     * first. It looks at each position at most once. In a heap no match that lies under the one
     * found is less than it, so it is a least match if all do, as when the root matches.
     */
    method Smallest(pred: Peer -> bool) returns (found: Option<nat>, ghost looked: seq<nat>)
      requires Valid()
      ensures found.None? <==> forall i | 0 <= i < |peers| :: !pred(peers[i])
      ensures found.Some? ==>
        && found.value < |peers| && pred(peers[found.value])
        && forall i | 0 <= i < |peers| && i != found.value && pred(peers[i]) :: Earlier(entries, found.value, i)
      ensures peers != [] && pred(peers[0]) ==> found == Some(0)
      ensures found.Some? && IsHeap(entries) ==>
        forall i | 0 <= i < |peers| && Under(entries, found.value, i) :: !Less(i, found.value)
      ensures forall x, y | 0 <= x < y < |looked| :: looked[x] != looked[y]
      ensures forall x | 0 <= x < |looked| :: looked[x] < |peers|
    {
      var n := |peers|;
      looked := [];
      if n == 0 { return None, []; }  // position 0 is skipped as out of range
      var items: seq<nat> := [0];
      SearchStarts(entries);
      ghost var left := Unseen(n, looked);
      while items != []
        invariant Searching(entries, looked, items)
        invariant forall x | x in looked :: x < n && !pred(peers[x])
        invariant left == Unseen(n, looked)
        decreases 3 * |left| + |items|
      {
        var current := items[0];
        NotSeenTwice(entries, looked, items);
        if pred(peers[current]) {
          forall i | 0 <= i < n && i != current && pred(peers[i]) ensures Earlier(entries, current, i) {
            NextIsFirst(entries, looked, items, i);
          }
          if IsHeap(entries) {
            forall i | 0 <= i < n && Under(entries, current, i) ensures !Less(i, current) {
              UnderIsNotLess(entries, current, i);
            }
          }
          DistinctPrefix(entries, looked, items);
          return Some(current), looked;
        }
        SearchStep(entries, looked, items);
        looked := looked + [current];
        left := left - {current};
        var children := ChildrenOf(current);
        items := items[1..] + children;
      }
      forall i | 0 <= i < n ensures !pred(peers[i]) { SearchedAll(entries, looked, i); }
      DistinctPrefix(entries, looked, []);
      found := None;
    }
  }
}
