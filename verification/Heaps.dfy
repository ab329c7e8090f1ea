/**
 * The binary heap of tchannel/container/heap.py on sequences of keyed entries, and the laws of
 * its operations. Keys are a rank and an order, compared rank first (PeerHeap.lt of
 * tchannel/peer_heap.py).
 */
module Heaps {
  datatype Key = Key(rank: int, order: int)

  predicate Lt(a: Key, b: Key) {
    if a.rank == b.rank then a.order < b.order else a.rank < b.rank
  }

  datatype Entry<T> = Entry(item: T, key: Key)

  function Parent(i: nat): (p: nat)
    requires i > 0
    ensures p < i && (i == 2 * p + 1 || i == 2 * p + 2)
  {
    (i - 1) / 2
  }

  // ---------- the operations ----------

  function Swap<T>(s: seq<T>, i: nat, j: nat): (t: seq<T>)
    requires i < |s| && j < |s|
    ensures |t| == |s| && t[i] == s[j] && t[j] == s[i]
    ensures forall k | 0 <= k < |s| && k != i && k != j :: t[k] == s[k]
  {
    s[i := s[j]][j := s[i]]
  }

  function Up<T>(s: seq<Entry<T>>, child: nat): (t: seq<Entry<T>>)
    requires child < |s|
    ensures |t| == |s|
    decreases child
  {
    if child > 0 && Lt(s[child].key, s[Parent(child)].key) then
      Up(Swap(s, Parent(child), child), Parent(child))
    else s
  }

  /** The child to move up: the second only if the first is not less than it. */
  function MinChild<T>(s: seq<Entry<T>>, parent: nat, n: nat): (c: nat)
    requires n <= |s| && 2 * parent + 1 < n
    ensures 0 < c < n && Parent(c) == parent
  {
    if 2 * parent + 2 < n && !Lt(s[2 * parent + 1].key, s[2 * parent + 2].key) then 2 * parent + 2 else 2 * parent + 1
  }

  /** Moves down among the first `n` entries. */
  function Down<T>(s: seq<Entry<T>>, parent: nat, n: nat): (t: seq<Entry<T>>)
    requires n <= |s|
    ensures |t| == |s| && t[n..] == s[n..]
    decreases n - parent
  {
    if 2 * parent + 1 >= n then s else
    var child := MinChild(s, parent, n);
    if !Lt(s[child].key, s[parent].key) then s else Down(Swap(s, parent, child), child, n)
  }

  function Fix<T>(s: seq<Entry<T>>, i: nat): (t: seq<Entry<T>>)
    requires i < |s|
    ensures |t| == |s|
  {
    Up(Down(s, i, |s|), i)
  }

  function Push<T>(s: seq<Entry<T>>, x: Entry<T>): (t: seq<Entry<T>>)
    ensures |t| == |s| + 1
  {
    Up(s + [x], |s|)
  }

  /** The heap as `pop` leaves it, with the popped entry at the end. */
  function PopAll<T>(s: seq<Entry<T>>): (t: seq<Entry<T>>)
    requires s != []
    ensures |t| == |s|
  {
    var n := |s| - 1;
    Down(Swap(s, 0, n), 0, n)
  }

  /** The heap as `remove` leaves it, with the removed entry at the end. */
  function RemoveAll<T>(s: seq<Entry<T>>, i: nat): (t: seq<Entry<T>>)
    requires i < |s|
    ensures |t| == |s|
  {
    var n := |s| - 1;
    if i == n then s else Up(Down(Swap(s, i, n), i, n), i)
  }

  /** `init`, once positions from the middle down to `i` have been moved down. */
  function Heapified<T>(s: seq<Entry<T>>, i: nat): (t: seq<Entry<T>>)
    ensures |t| == |s|
    decreases |s| - i
  {
    if i >= |s| / 2 then s else Down(Heapified(s, i + 1), i, |s|)
  }

  function Init<T>(s: seq<Entry<T>>): seq<Entry<T>> { Heapified(s, 0) }

  // ---------- heaps, and heaps with one entry out of place ----------

  /** Comes first by rank, and among equal ranks by order, or has the same of both. */
  predicate NotAfter(a: Key, b: Key) { a.rank < b.rank || (a.rank == b.rank && a.order <= b.order) }

  /** Entry `i` is not less than its parent. */
  predicate Edge<T>(s: seq<Entry<T>>, i: nat)
    requires 0 < i < |s|
  {
    !Lt(s[i].key, s[Parent(i)].key)
  }

  /** Entry `i` is not less than its grandparent. */
  predicate Skip<T>(s: seq<Entry<T>>, i: nat)
    requires 0 < i < |s|
  {
    Parent(i) > 0 ==> !Lt(s[i].key, s[Parent(Parent(i))].key)
  }

  predicate HeapTo<T>(s: seq<Entry<T>>, n: nat)
    requires n <= |s|
  {
    forall i {:trigger Edge(s, i)} | 0 < i < n :: Edge(s, i)
  }

  predicate IsHeap<T>(s: seq<Entry<T>>) { HeapTo(s, |s|) }

  /** All is well but for the entry at `c`, which may be less than its parent. */
  predicate TooHigh<T>(s: seq<Entry<T>>, c: nat, n: nat)
    requires n <= |s|
  {
    && (forall i {:trigger Edge(s, i)} | 0 < i < n && i != c :: Edge(s, i))
    && (forall i {:trigger Skip(s, i)} | 0 < i < n && Parent(i) == c :: Skip(s, i))
  }

  /** All is well but for the entry at `p`, which may be greater than its children. */
  predicate TooLow<T>(s: seq<Entry<T>>, p: nat, n: nat)
    requires n <= |s|
  {
    && (forall i {:trigger Edge(s, i)} | 0 < i < n && Parent(i) != p :: Edge(s, i))
    && (forall i {:trigger Skip(s, i)} | 0 < i < n && Parent(i) == p :: Skip(s, i))
  }

  /** All is well but for the entry at `p`, which may have any key. */
  predicate HeapBut<T>(s: seq<Entry<T>>, p: nat, n: nat)
    requires n <= |s|
  {
    && (forall i {:trigger Edge(s, i)} | 0 < i < n && i != p && Parent(i) != p :: Edge(s, i))
    && (forall i {:trigger Skip(s, i)} | 0 < i < n && Parent(i) == p :: Skip(s, i))
  }

  // ---------- moving up ----------

  lemma {:induction false} UpStep<T>(s: seq<Entry<T>>, c: nat, n: nat)
    requires 0 < c < n <= |s| && TooHigh(s, c, n) && Lt(s[c].key, s[Parent(c)].key)
    ensures TooHigh(Swap(s, Parent(c), c), Parent(c), n)
  {
    var p := Parent(c);
    var t := Swap(s, p, c);
    forall i | 0 < i < n && i != p ensures Edge(t, i) {
      if i == c {
      } else if Parent(i) == c {
        assert Skip(s, i);
      } else {
        assert Edge(s, i);
      }
    }
    forall i | 0 < i < n && Parent(i) == p ensures Skip(t, i) {
      if p > 0 {
        assert Edge(s, p);
        if i != c { assert Edge(s, i); }
      }
    }
  }

  lemma {:induction false} UpRestores<T>(s: seq<Entry<T>>, c: nat, n: nat)
    requires c < n <= |s| && TooHigh(s, c, n)
    ensures HeapTo(Up(s, c), n)
    decreases c
  {
    if c > 0 && Lt(s[c].key, s[Parent(c)].key) {
      UpStep(s, c, n);
      UpRestores(Swap(s, Parent(c), c), Parent(c), n);
    } else {
      forall i | 0 < i < n ensures Edge(s, i) {}
    }
  }

  // ---------- moving down ----------

  lemma {:induction false} DownStep<T>(s: seq<Entry<T>>, p: nat, n: nat)
    requires n <= |s| && 2 * p + 1 < n && HeapBut(s, p, n)
    requires Lt(s[MinChild(s, p, n)].key, s[p].key)
    ensures TooLow(Swap(s, p, MinChild(s, p, n)), MinChild(s, p, n), n)
  {
    var c := MinChild(s, p, n);
    var t := Swap(s, p, c);
    forall i | 0 < i < n && Parent(i) != c ensures Edge(t, i) {
      if i == c {
      } else if i == p {
        assert Skip(s, c);
      } else if Parent(i) != p {
        assert Edge(s, i);
      }
    }
    forall i | 0 < i < n && Parent(i) == c ensures Skip(t, i) {
      assert Edge(s, i);
    }
  }

  /** When nothing smaller is below, `Down` does nothing. */
  lemma {:induction false} DownStops<T>(s: seq<Entry<T>>, p: nat, n: nat)
    requires n <= |s|
    ensures Down(s, p, n) == s <==> (2 * p + 1 < n ==> !Lt(s[MinChild(s, p, n)].key, s[p].key))
    ensures Down(s, p, n) == s ==> forall i | 0 < i < n && Parent(i) == p :: Edge(s, i)
  {
    if 2 * p + 1 < n && Lt(s[MinChild(s, p, n)].key, s[p].key) { DownPromotes(s, p, n); }
  }

  /** `Down` leaves everything above it alone, and puts the smaller child in its place. */
  lemma {:induction false} DownLeavesAbove<T>(s: seq<Entry<T>>, p: nat, n: nat)
    requires n <= |s|
    ensures forall i | 0 <= i < p && i < |s| :: Down(s, p, n)[i] == s[i]
    decreases n - p
  {
    if 2 * p + 1 < n && Lt(s[MinChild(s, p, n)].key, s[p].key) {
      DownLeavesAbove(Swap(s, p, MinChild(s, p, n)), MinChild(s, p, n), n);
    }
  }

  lemma {:induction false} DownPromotes<T>(s: seq<Entry<T>>, p: nat, n: nat)
    requires n <= |s| && 2 * p + 1 < n && Lt(s[MinChild(s, p, n)].key, s[p].key)
    ensures Down(s, p, n)[p] == s[MinChild(s, p, n)] && Down(s, p, n) != s
  {
    var c := MinChild(s, p, n);
    DownLeavesAbove(Swap(s, p, c), c, n);
  }

  /**
   * What comes to stand at `p`: the entry there, if neither child comes before it, and otherwise the
   * child that comes before the other, or the second if neither does.
   */
  lemma {:induction false} DownTakes<T>(s: seq<Entry<T>>, p: nat)
    requires 2 * p + 2 < |s|
    ensures var here, first, second := s[p], s[2 * p + 1], s[2 * p + 2];
            Down(s, p, |s|)[p] == (
              if NotAfter(here.key, first.key) && NotAfter(here.key, second.key) then here
              else if NotAfter(second.key, first.key) then second
              else first)
  {
    if Lt(s[MinChild(s, p, |s|)].key, s[p].key) { DownPromotes(s, p, |s|); }
  }

  lemma {:induction false} DownRestores<T>(s: seq<Entry<T>>, p: nat, n: nat)
    requires n <= |s| && TooLow(s, p, n)
    ensures HeapTo(Down(s, p, n), n)
    decreases n - p
  {
    if 2 * p + 1 < n && Lt(s[MinChild(s, p, n)].key, s[p].key) {
      assert HeapBut(s, p, n);
      DownStep(s, p, n);
      DownRestores(Swap(s, p, MinChild(s, p, n)), MinChild(s, p, n), n);
    } else {
      forall i | 0 < i < n ensures Edge(s, i) {}
    }
  }

  /** Down and then up from the same place repairs an entry with any key. */
  lemma {:induction false} DownUpRestores<T>(s: seq<Entry<T>>, p: nat, n: nat)
    requires p < n <= |s| && HeapBut(s, p, n)
    ensures HeapTo(Up(Down(s, p, n), p), n)
  {
    if 2 * p + 1 < n && Lt(s[MinChild(s, p, n)].key, s[p].key) {
      var c := MinChild(s, p, n);
      DownStep(s, p, n);
      DownRestores(Swap(s, p, c), c, n);
      var t := Down(s, p, n);
      assert p > 0 ==> Edge(t, p);
    } else {
      assert forall i | 0 < i < n && Parent(i) == p :: Edge(s, i);
      assert TooHigh(s, p, n);
      UpRestores(s, p, n);
    }
  }

  /** A heap in which one key was changed. */
  lemma {:induction false} ChangedKey<T>(s: seq<Entry<T>>, t: seq<Entry<T>>, p: nat)
    requires p < |s| == |t| && IsHeap(s) && forall i | 0 <= i < |s| && i != p :: t[i] == s[i]
    ensures HeapBut(t, p, |t|)
  {
    forall i | 0 < i < |t| && i != p && Parent(i) != p ensures Edge(t, i) { assert Edge(s, i); }
    forall i | 0 < i < |t| && Parent(i) == p ensures Skip(t, i) {
      assert Edge(s, i);
      if p > 0 { assert Edge(s, p); }
    }
  }

  // ---------- every operation yields a heap ----------

  lemma {:induction false} FixRestores<T>(s: seq<Entry<T>>, i: nat)
    requires i < |s| && HeapBut(s, i, |s|)
    ensures IsHeap(Fix(s, i))
  {
    DownUpRestores(s, i, |s|);
  }

  /** Where nothing is out of place, `fix` does nothing. */
  lemma {:induction false} FixOfHeap<T>(s: seq<Entry<T>>, i: nat)
    requires i < |s| && IsHeap(s)
    ensures Fix(s, i) == s
  {
    DownStops(s, i, |s|);
    if 2 * i + 1 < |s| { assert Edge(s, MinChild(s, i, |s|)); }
    if i > 0 { assert Edge(s, i); }
  }

  lemma {:induction false} PushKeepsHeap<T>(s: seq<Entry<T>>, x: Entry<T>)
    requires IsHeap(s)
    ensures IsHeap(Push(s, x))
  {
    var t := s + [x];
    forall i | 0 < i < |t| && i != |s| ensures Edge(t, i) { assert Edge(s, i); }
    UpRestores(t, |s|, |t|);
  }

  lemma {:induction false} PoppedIsRoot<T>(s: seq<Entry<T>>)
    requires s != []
    ensures PopAll(s)[|s| - 1] == s[0]
  {
    var n := |s| - 1;
    assert PopAll(s)[n] == PopAll(s)[n..][0] == Swap(s, 0, n)[n..][0];
  }

  lemma {:induction false} PopKeepsHeap<T>(s: seq<Entry<T>>)
    requires s != [] && IsHeap(s)
    ensures IsHeap(PopAll(s)[..|s| - 1])
  {
    var n := |s| - 1;
    var t := Swap(s, 0, n);
    forall i | 0 < i < n && Parent(i) != 0 ensures Edge(t, i) { assert Edge(s, i); }
    assert TooLow(t, 0, n);
    DownRestores(t, 0, n);
    HeapPrefix(PopAll(s), n);
  }

  lemma {:induction false} HeapPrefix<T>(s: seq<Entry<T>>, n: nat)
    requires n <= |s| && HeapTo(s, n)
    ensures IsHeap(s[..n])
  {
    forall i | 0 < i < n ensures Edge(s[..n], i) { assert Edge(s, i); }
  }

  lemma {:induction false} RemovedIsLast<T>(s: seq<Entry<T>>, i: nat)
    requires i < |s|
    ensures RemoveAll(s, i)[|s| - 1] == s[i]
  {
    var n := |s| - 1;
    if i < n {
      var d := Down(Swap(s, i, n), i, n);
      assert d[n] == d[n..][0] == Swap(s, i, n)[n..][0];
      UpLeavesBelow(d, i);
    }
  }

  lemma {:induction false} RemoveKeepsHeap<T>(s: seq<Entry<T>>, i: nat)
    requires i < |s| && IsHeap(s)
    ensures IsHeap(RemoveAll(s, i)[..|s| - 1])
  {
    var n := |s| - 1;
    if i < n {
      var t := Swap(s, i, n);
      forall k | 0 < k < n && k != i && Parent(k) != i ensures Edge(t, k) { assert Edge(s, k); }
      forall k | 0 < k < n && Parent(k) == i ensures Skip(t, k) {
        assert Edge(s, k);
        if i > 0 { assert Edge(s, i); }
      }
      DownUpRestores(t, i, n);
    } else {
      assert HeapTo(s, n);
    }
    HeapPrefix(RemoveAll(s, i), n);
  }

  lemma {:induction false} UpLeavesBelow<T>(s: seq<Entry<T>>, c: nat)
    requires c < |s|
    ensures forall i | c < i < |s| :: Up(s, c)[i] == s[i]
    decreases c
  {
    if c > 0 && Lt(s[c].key, s[Parent(c)].key) {
      UpLeavesBelow(Swap(s, Parent(c), c), Parent(c));
    }
  }

  /** All entries below position `i` are in order with their children. */
  predicate HeapFrom<T>(s: seq<Entry<T>>, i: nat) {
    forall k {:trigger Edge(s, k)} | 0 < k < |s| && Parent(k) >= i :: Edge(s, k)
  }

  lemma {:induction false} DownInForest<T>(s: seq<Entry<T>>, p: nat, q: nat)
    requires q <= p && forall k | 0 < k < |s| && Parent(k) >= q && Parent(k) != p :: Edge(s, k)
    requires forall k | 0 < k < |s| && Parent(k) == p && q < p :: p > 0 && Parent(p) >= q ==> Skip(s, k)
    ensures HeapFrom(Down(s, p, |s|), q)
    decreases |s| - p
  {
    var n := |s|;
    if 2 * p + 1 < n && Lt(s[MinChild(s, p, n)].key, s[p].key) {
      var c := MinChild(s, p, n);
      var t := Swap(s, p, c);
      forall k | 0 < k < n && Parent(k) >= q && Parent(k) != c ensures Edge(t, k) {
        if k == c {
        } else if k == p {
          assert Skip(s, c);
        } else if Parent(k) != p {
          assert Edge(s, k);
        }
      }
      forall k | 0 < k < n && Parent(k) == c ensures Skip(t, k) { assert Edge(s, k); }
      DownInForest(t, c, q);
    } else {
      forall k | 0 < k < n && Parent(k) >= q ensures Edge(s, k) {}
    }
  }

  lemma {:induction false} HeapifiedFrom<T>(s: seq<Entry<T>>, i: nat)
    ensures HeapFrom(Heapified(s, i), i)
    decreases |s| - i
  {
    if i < |s| / 2 {
      HeapifiedFrom(s, i + 1);
      var t := Heapified(s, i + 1);
      forall k | 0 < k < |t| && Parent(k) >= i && Parent(k) != i ensures Edge(t, k) {}
      DownInForest(t, i, i);
    }
  }

  lemma {:induction false} InitMakesHeap<T>(s: seq<Entry<T>>)
    ensures IsHeap(Init(s))
  {
    HeapifiedFrom(s, 0);
    forall k | 0 < k < |s| ensures Edge(Init(s), k) {}
  }

  // ---------- nothing is lost or duplicated ----------

  lemma {:induction false} SwapPermutes<T>(s: seq<T>, i: nat, j: nat)
    requires i < |s| && j < |s|
    ensures multiset(Swap(s, i, j)) == multiset(s)
  {
  }

  lemma {:induction false} UpPermutes<T>(s: seq<Entry<T>>, c: nat)
    requires c < |s|
    ensures multiset(Up(s, c)) == multiset(s)
    decreases c
  {
    if c > 0 && Lt(s[c].key, s[Parent(c)].key) {
      SwapPermutes(s, Parent(c), c);
      UpPermutes(Swap(s, Parent(c), c), Parent(c));
    }
  }

  lemma {:induction false} DownPermutes<T>(s: seq<Entry<T>>, p: nat, n: nat)
    requires n <= |s|
    ensures multiset(Down(s, p, n)) == multiset(s)
    decreases n - p
  {
    if 2 * p + 1 < n && Lt(s[MinChild(s, p, n)].key, s[p].key) {
      SwapPermutes(s, p, MinChild(s, p, n));
      DownPermutes(Swap(s, p, MinChild(s, p, n)), MinChild(s, p, n), n);
    }
  }

  lemma {:induction false} DownUpPermutes<T>(s: seq<Entry<T>>, i: nat, n: nat)
    requires i < |s| && n <= |s|
    ensures multiset(Up(Down(s, i, n), i)) == multiset(s)
  {
    DownPermutes(s, i, n);
    UpPermutes(Down(s, i, n), i);
  }

  lemma {:induction false} FixPermutes<T>(s: seq<Entry<T>>, i: nat)
    requires i < |s|
    ensures multiset(Fix(s, i)) == multiset(s)
  {
    DownUpPermutes(s, i, |s|);
  }

  lemma {:induction false} PushAdds<T>(s: seq<Entry<T>>, x: Entry<T>)
    ensures multiset(Push(s, x)) == multiset(s) + multiset{x}
  {
    UpPermutes(s + [x], |s|);
  }

  lemma {:induction false} DropLast<T>(s: seq<T>)
    requires s != []
    ensures multiset(s) == multiset(s[..|s| - 1]) + multiset{s[|s| - 1]}
  {
    assert s == s[..|s| - 1] + [s[|s| - 1]];
  }

  lemma {:induction false} PopTakesRoot<T>(s: seq<Entry<T>>)
    requires s != []
    ensures multiset(s) == multiset(PopAll(s)[..|s| - 1]) + multiset{s[0]}
  {
    var n := |s| - 1;
    SwapPermutes(s, 0, n);
    DownPermutes(Swap(s, 0, n), 0, n);
    DropLast(PopAll(s));
    PoppedIsRoot(s);
  }

  lemma {:induction false} RemovePermutes<T>(s: seq<Entry<T>>, i: nat)
    requires i < |s|
    ensures multiset(RemoveAll(s, i)) == multiset(s)
  {
    var n := |s| - 1;
    if i < n {
      SwapPermutes(s, i, n);
      var t := Swap(s, i, n);
      assert RemoveAll(s, i) == Up(Down(t, i, n), i);
      DownUpPermutes(t, i, n);
    }
  }

  lemma {:induction false} RemoveTakesOne<T>(s: seq<Entry<T>>, i: nat)
    requires i < |s|
    ensures multiset(s) == multiset(RemoveAll(s, i)[..|s| - 1]) + multiset{s[i]}
  {
    RemovePermutes(s, i);
    RemovedIsLast(s, i);
    DropLast(RemoveAll(s, i));
  }

  lemma {:induction false} InitPermutes<T>(s: seq<Entry<T>>, i: nat)
    ensures multiset(Heapified(s, i)) == multiset(s)
    decreases |s| - i
  {
    if i < |s| / 2 {
      InitPermutes(s, i + 1);
      DownPermutes(Heapified(s, i + 1), i, |s|);
    }
  }

  // ---------- the root is least, and draining sorts ----------

  lemma {:induction false} RootIsLeast<T>(s: seq<Entry<T>>, i: nat)
    requires IsHeap(s) && i < |s|
    ensures !Lt(s[i].key, s[0].key) && NotAfter(s[0].key, s[i].key)
  {
    if i > 0 {
      assert Edge(s, i);
      RootIsLeast(s, Parent(i));
    }
  }

  /** Everything that comes out of the heap by popping until it is empty. */
  function Drain<T>(s: seq<Entry<T>>): seq<Entry<T>>
    decreases |s|
  {
    if s == [] then [] else
    var t := PopAll(s);
    [t[|s| - 1]] + Drain(t[..|s| - 1])
  }

  predicate Ascending<T>(s: seq<Entry<T>>) {
    forall i, j | 0 <= i < j < |s| :: NotAfter(s[i].key, s[j].key)
  }

  lemma {:induction false} RootIsLeastOf<T>(s: seq<Entry<T>>, x: Entry<T>)
    requires IsHeap(s) && x in multiset(s)
    ensures NotAfter(s[0].key, x.key)
  {
    var i :| 0 <= i < |s| && s[i] == x;
    RootIsLeast(s, i);
  }

  lemma {:induction false} LeastFirst<T>(x: Entry<T>, later: seq<Entry<T>>)
    requires Ascending(later) && forall y | y in multiset(later) :: NotAfter(x.key, y.key)
    ensures Ascending([x] + later)
  {
    var s := [x] + later;
    forall i, j | 0 <= i < j < |s| ensures NotAfter(s[i].key, s[j].key) {
      assert s[j] == later[j - 1];
      if i == 0 { assert later[j - 1] in multiset(later); } else { assert s[i] == later[i - 1]; }
    }
  }

  lemma {:induction false} DrainSorts<T>(s: seq<Entry<T>>)
    requires IsHeap(s)
    ensures multiset(Drain(s)) == multiset(s) && Ascending(Drain(s))
    decreases |s|
  {
    if s != [] {
      var rest := PopAll(s)[..|s| - 1];
      PopKeepsHeap(s);
      PopTakesRoot(s);
      PoppedIsRoot(s);
      DrainSorts(rest);
      forall y | y in multiset(Drain(rest)) ensures NotAfter(s[0].key, y.key) {
        assert y in multiset(s);
        RootIsLeastOf(s, y);
      }
      LeastFirst(s[0], Drain(rest));
    }
  }

  // ---------- exchanging the orders of two entries ----------

  function SetKey<T>(s: seq<Entry<T>>, i: nat, key: Key): (t: seq<Entry<T>>)
    requires i < |s|
    ensures |t| == |s|
  {
    s[i := Entry(s[i].item, key)]
  }

  /** The orders of the entries at `a` and `b` exchanged, before any repair. */
  function Exchanged<T>(s: seq<Entry<T>>, a: nat, b: nat): (t: seq<Entry<T>>)
    requires a < |s| && b < |s| && a != b
    ensures |t| == |s|
  {
    SetKey(SetKey(s, a, Key(s[a].key.rank, s[b].key.order)), b, Key(s[b].key.rank, s[a].key.order))
  }

  predicate Distinct<T(==)>(s: seq<Entry<T>>) {
    forall i, j | 0 <= i < j < |s| :: s[i].item != s[j].item
  }

  function IndexOf<T(==)>(s: seq<Entry<T>>, item: T): (i: nat)
    requires exists k :: 0 <= k < |s| && s[k].item == item
    ensures i < |s| && s[i].item == item
    ensures Distinct(s) ==> forall k | 0 <= k < |s| && s[k].item == item :: k == i
  {
    if s[0].item == item then 0 else
    var k :| 0 <= k < |s| && s[k].item == item;
    assert s[1..][k - 1].item == item;
    1 + IndexOf(s[1..], item)
  }

  /** `swap_order`: exchanges the orders, then fixes the first entry and then the second, wherever that is by now. */
  function SwapOrder<T(==)>(s: seq<Entry<T>>, a: nat, b: nat): (t: seq<Entry<T>>)
    requires a < |s| && b < |s|
    ensures |t| == |s|
  {
    if a == b then s else
    var t := Fix(Exchanged(s, a, b), a);
    FixPermutes(Exchanged(s, a, b), a);
    assert Exchanged(s, a, b)[b] in multiset(t);
    Fix(t, IndexOf(t, s[b].item))
  }

  lemma {:induction false} DownGoesOn<T>(s: seq<Entry<T>>, p: nat, n: nat, c: nat)
    requires n <= |s| && 2 * p + 1 < n && c == MinChild(s, p, n)
    ensures Down(s, p, n) == if Lt(s[c].key, s[p].key) then Down(Swap(s, p, c), c, n) else s
  {
  }

  lemma {:induction false} SwapOrderSteps<T>(s: seq<Entry<T>>, a: nat, b: nat, t: seq<Entry<T>>, q: nat)
    requires a < |s| && b < |s| && a != b && t == Fix(Exchanged(s, a, b), a)
    requires q < |t| && t[q].item == s[b].item && forall k | 0 <= k < |t| && t[k].item == s[b].item :: k == q
    ensures SwapOrder(s, a, b) == Fix(t, q)
  {
  }

  // The order of the first entry drops and that of the second grows: going up may pass the
  // second entry, but only if that leaves it next to an entry with its own former key.

  /** `Up` on `s`, which is `v` but for a larger key at `q`, leaves a heap but for that key. */
  lemma {:induction false} UpBesideLarger<T>(
      v: seq<Entry<T>>, s: seq<Entry<T>>, p: nat, q: nat, large: Key, before: Key)
    returns (t: seq<Entry<T>>, r: nat)
    requires p < |v| && q < |v| && p != q && TooHigh(v, p, |v|)
    requires s == SetKey(v, q, large) && !Lt(large, v[q].key)
    requires Lt(v[p].key, before) && (p > 0 ==> !Lt(before, v[Parent(p)].key))
    requires !Lt(before, v[q].key) && Lt(v[p].key, large) ==> v[p].key == v[q].key
    ensures |t| == |v| && r < |v| && Up(s, p) == SetKey(t, r, large) && t[r] == v[q] && IsHeap(t)
    decreases p
  {
    if p == 0 {
      t, r := v, q;
      assert forall i | 0 < i < |v| :: Edge(v, i);
    } else if Parent(p) != q {
      if Lt(v[p].key, v[Parent(p)].key) {
        UpStep(v, p, |v|);
        var z := Parent(p);
        assert z > 0 ==> Edge(v, z);
        assert Swap(s, z, p) == SetKey(Swap(v, z, p), q, large);
        t, r := UpBesideLarger(Swap(v, z, p), Swap(s, z, p), z, q, large, before);
      } else {
        t, r := v, q;
        assert forall i | 0 < i < |v| :: Edge(v, i);
      }
    } else if Lt(v[p].key, large) {
      t, r := UpPastEqual(v, s, p, q, large);
    } else {
      t, r := v, q;
      assert forall i | 0 < i < |v| :: Edge(v, i);
    }
  }

  lemma {:induction false} UpPastEqual<T>(v: seq<Entry<T>>, s: seq<Entry<T>>, p: nat, q: nat, large: Key)
    returns (t: seq<Entry<T>>, r: nat)
    requires 0 < p < |v| && Parent(p) == q && TooHigh(v, p, |v|)
    requires s == SetKey(v, q, large) && Lt(v[p].key, large) && v[p].key == v[q].key
    ensures |t| == |v| && r < |v| && Up(s, p) == SetKey(t, r, large) && t[r] == v[q] && IsHeap(t)
  {
    t, r := Swap(v, q, p), p;
    forall i | 0 < i < |v| ensures Edge(t, i) {
      if i != p { assert Edge(v, i); }
    }
    assert Swap(s, q, p) == SetKey(t, p, large);
    assert q > 0 ==> Edge(v, q);
    assert Up(Swap(s, q, p), q) == Swap(s, q, p);
  }

  lemma {:induction false} FirstDrops<T>(s: seq<Entry<T>>, a: nat, b: nat) returns (q: nat)
    requires a < |s| && b < |s| && a != b && IsHeap(s) && s[b].key.order < s[a].key.order
    ensures var t := Fix(Exchanged(s, a, b), a);
            q < |t| && t[q].item == s[b].item && HeapBut(t, q, |t|)
  {
    var x, n := Exchanged(s, a, b), |s|;
    var v := SetKey(s, a, x[a].key);
    assert TooHigh(v, a, n) by {
      forall i | 0 < i < n && i != a ensures Edge(v, i) { assert Edge(s, i); }
      forall i | 0 < i < n && Parent(i) == a ensures Skip(v, i) {
        assert Edge(s, i);
        assert a > 0 ==> Edge(s, a);
      }
    }
    assert Down(x, a, n) == x by {
      DownStops(x, a, n);
      if 2 * a + 1 < n { assert Edge(s, MinChild(x, a, n)); }
    }
    assert a > 0 ==> Edge(s, a);
    var t;
    t, q := UpBesideLarger(v, x, a, b, x[b].key, s[a].key);
    ChangedKey(t, Fix(x, a), q);
  }

  // The order of the first entry grows and that of the second drops: on its way down the first
  // entry may meet the second, which rises past it.

  /** Entry `i` is not less than its grandparent's parent. */
  predicate DoubleSkip<T>(s: seq<Entry<T>>, i: nat)
    requires 0 < i < |s|
  {
    Parent(i) > 0 && Parent(Parent(i)) > 0 ==> !Lt(s[i].key, s[Parent(Parent(Parent(i)))].key)
  }

  predicate Chain(i: nat, p: nat, q: nat) {
    i > 0 && Parent(i) > 0 &&
    ((Parent(i) == p && Parent(p) == q) || (Parent(i) == q && Parent(q) == p))
  }

  /** The entry at `p` may be greater than its children, and the one at `q` less than its parent. */
  predicate TooLowAndTooHigh<T>(s: seq<Entry<T>>, p: nat, q: nat)
    requires p < |s| && q < |s|
  {
    && p != q
    && (forall i {:trigger Edge(s, i)} | 0 < i < |s| && i != q && Parent(i) != p :: Edge(s, i))
    && (forall i {:trigger Skip(s, i)} | 0 < i < |s| && i != q && Parent(i) == p :: Skip(s, i))
    && (forall i {:trigger Skip(s, i)} | 0 < i < |s| && Parent(i) == q && (q > 0 ==> Parent(q) != p) :: Skip(s, i))
    && (forall i {:trigger DoubleSkip(s, i)} | 0 < i < |s| && Chain(i, p, q) :: DoubleSkip(s, i))
  }

  lemma {:induction false} DownPastOther<T>(s: seq<Entry<T>>, p: nat, q: nat)
    requires p < |s| && q < |s| && TooLowAndTooHigh(s, p, q) && 2 * p + 1 < |s|
    requires Lt(s[MinChild(s, p, |s|)].key, s[p].key) && MinChild(s, p, |s|) != q
    ensures TooLowAndTooHigh(Swap(s, p, MinChild(s, p, |s|)), MinChild(s, p, |s|), q)
  {
    var c := MinChild(s, p, |s|);
    var t := Swap(s, p, c);
    forall i | 0 < i < |s| && i != q && Parent(i) != c ensures Edge(t, i) {
      if i == c {
      } else if i == p {
        assert Skip(s, c);
      } else if Parent(i) != p {
        assert Edge(s, i);
      }
    }
    forall i | 0 < i < |s| && i != q && Parent(i) == c ensures Skip(t, i) { assert Edge(s, i); }
    forall i | 0 < i < |s| && Parent(i) == q && (q > 0 ==> Parent(q) != c) ensures Skip(t, i) {
      SkipsPastOther(s, p, q, i);
    }
    forall i | 0 < i < |s| && Chain(i, c, q) ensures DoubleSkip(t, i) {
      assert Skip(s, i);
    }
  }

  lemma {:induction false} SkipsPastOther<T>(s: seq<Entry<T>>, p: nat, q: nat, i: nat)
    requires p < |s| && q < |s| && TooLowAndTooHigh(s, p, q) && 2 * p + 1 < |s|
    requires Lt(s[MinChild(s, p, |s|)].key, s[p].key) && MinChild(s, p, |s|) != q
    requires 0 < i < |s| && Parent(i) == q && (q > 0 ==> Parent(q) != MinChild(s, p, |s|))
    ensures Skip(Swap(s, p, MinChild(s, p, |s|)), i)
  {
    if i == p {
      assert Chain(MinChild(s, p, |s|), p, q) || q == 0;
      assert q > 0 ==> DoubleSkip(s, MinChild(s, p, |s|));
    } else if q > 0 && Parent(q) == p {
      assert Edge(s, i);
    } else {
      assert Skip(s, i);
    }
  }

  lemma {:induction false} DownMeetsOther<T>(s: seq<Entry<T>>, p: nat, q: nat)
    requires p < |s| && q < |s| && TooLowAndTooHigh(s, p, q) && 2 * p + 1 < |s|
    requires Lt(s[q].key, s[p].key) && MinChild(s, p, |s|) == q
    ensures TooLowAndTooHigh(Swap(s, p, q), q, p)
  {
    var t := Swap(s, p, q);
    forall i | 0 < i < |s| && i != p && Parent(i) != q ensures Edge(t, i) {
      if i != q && Parent(i) != p { assert Edge(s, i); }
    }
    forall i | 0 < i < |s| && i != p && Parent(i) == q ensures Skip(t, i) { assert Edge(s, i); }
    forall i | 0 < i < |s| && Parent(i) == p && (p > 0 ==> Parent(p) != q) ensures Skip(t, i) {
      if i == q {
        if p > 0 { assert Edge(s, p); }
      } else {
        assert Skip(s, i);
      }
    }
    forall i | 0 < i < |s| && Chain(i, q, p) ensures DoubleSkip(t, i) {
      assert Parent(i) == q;
      assert Chain(i, p, q) && DoubleSkip(s, i);
    }
  }

  lemma {:induction false} DownBesideSmaller<T>(s: seq<Entry<T>>, p: nat, q: nat) returns (r: nat)
    requires p < |s| && q < |s| && TooLowAndTooHigh(s, p, q)
    ensures var t := Down(s, p, |s|); r < |t| && t[r] == s[q] && TooHigh(t, r, |t|)
    decreases |s| - p
  {
    if 2 * p + 1 < |s| && Lt(s[MinChild(s, p, |s|)].key, s[p].key) {
      var c := MinChild(s, p, |s|);
      if c == q {
        DownMeetsOther(s, p, q);
        r := DownBesideSmaller(Swap(s, p, c), c, p);
      } else {
        DownPastOther(s, p, q);
        r := DownBesideSmaller(Swap(s, p, c), c, q);
      }
    } else {
      r := q;
      forall i | 0 < i < |s| && i != q ensures Edge(s, i) {}
      forall i | 0 < i < |s| && Parent(i) == q ensures Skip(s, i) {
        if q > 0 && Parent(q) == p { assert Edge(s, i); }
      }
    }
  }

  lemma {:induction false} FirstGrows<T>(s: seq<Entry<T>>, a: nat, b: nat) returns (q: nat)
    requires a < |s| && b < |s| && a != b && IsHeap(s) && s[a].key.order < s[b].key.order
    ensures var t := Fix(Exchanged(s, a, b), a);
            q < |t| && t[q].item == s[b].item && HeapBut(t, q, |t|)
  {
    var x, n := Exchanged(s, a, b), |s|;
    GrowsAndDrops(s, a, b);
    var d := Down(x, a, n);
    q := DownBesideSmaller(x, a, b);
    if q == a {
      UpRestores(d, a, n);
      q := RiseOf(d, a);
      HeapIsHeapBut(Up(d, a), q);
    } else if a > 0 {
      assert Edge(d, a);
    }
  }

  lemma {:induction false} RiseOf<T>(s: seq<Entry<T>>, c: nat) returns (r: nat)
    requires c < |s|
    ensures r < |s| && Up(s, c)[r] == s[c]
    decreases c
  {
    if c > 0 && Lt(s[c].key, s[Parent(c)].key) {
      r := RiseOf(Swap(s, Parent(c), c), Parent(c));
    } else {
      r := c;
    }
  }

  /** Every chain of the heap survives the exchange unless it ends at `b` or starts at `a`. */
  lemma {:induction false} ChainsSurvive<T>(s: seq<Entry<T>>, a: nat, b: nat, i: nat)
    requires a < |s| && b < |s| && a != b && IsHeap(s) && s[a].key.order < s[b].key.order && 0 < i < |s| && i != b
    ensures Parent(i) != a ==> Edge(Exchanged(s, a, b), i)
    ensures Parent(i) > 0 && Parent(Parent(i)) != a ==> Skip(Exchanged(s, a, b), i)
    ensures Chain(i, a, b) ==> DoubleSkip(Exchanged(s, a, b), i)
  {
    Ancestors(s, i);
  }

  lemma {:induction false} GrowsAndDrops<T>(s: seq<Entry<T>>, a: nat, b: nat)
    requires a < |s| && b < |s| && a != b && IsHeap(s) && s[a].key.order < s[b].key.order
    ensures TooLowAndTooHigh(Exchanged(s, a, b), a, b)
  {
    var x := Exchanged(s, a, b);
    forall i | 0 < i < |s| && i != b
      ensures Parent(i) != a ==> Edge(x, i)
      ensures Parent(i) > 0 && Parent(Parent(i)) != a ==> Skip(x, i)
      ensures Chain(i, a, b) ==> DoubleSkip(x, i)
    {
      ChainsSurvive(s, a, b, i);
    }
  }

  lemma {:induction false} Ancestors<T>(s: seq<Entry<T>>, i: nat)
    requires IsHeap(s) && 0 < i < |s|
    ensures Edge(s, i) && Skip(s, i) && DoubleSkip(s, i)
  {
    assert Edge(s, i);
    if Parent(i) > 0 {
      assert Edge(s, Parent(i));
      if Parent(Parent(i)) > 0 { assert Edge(s, Parent(Parent(i))); }
    }
  }

  // ---------- swap_order restores the heap ----------

  lemma {:induction false} FirstStays<T>(s: seq<Entry<T>>, a: nat, b: nat)
    requires a < |s| && b < |s| && a != b && IsHeap(s) && s[a].key.order == s[b].key.order
    ensures Fix(Exchanged(s, a, b), a) == s
  {
    assert Exchanged(s, a, b) == s;
    FixOfHeap(s, a);
  }

  lemma {:induction false} HeapIsHeapBut<T>(s: seq<Entry<T>>, q: nat)
    requires q < |s| && IsHeap(s)
    ensures HeapBut(s, q, |s|)
  {
    ChangedKey(s, s, q);
  }

  /** After the first fix only the second entry is out of place. */
  lemma {:induction false} AfterFirstFix<T>(s: seq<Entry<T>>, a: nat, b: nat) returns (q: nat)
    requires a < |s| && b < |s| && a != b && IsHeap(s)
    ensures var t := Fix(Exchanged(s, a, b), a);
            q < |t| && t[q].item == s[b].item && HeapBut(t, q, |t|)
  {
    if s[b].key.order < s[a].key.order {
      q := FirstDrops(s, a, b);
    } else if s[a].key.order < s[b].key.order {
      q := FirstGrows(s, a, b);
    } else {
      FirstStays(s, a, b);
      HeapIsHeapBut(s, b);
      q := b;
    }
  }

  lemma {:induction false} UpKeepsDistinct<T>(s: seq<Entry<T>>, c: nat)
    requires c < |s| && Distinct(s)
    ensures Distinct(Up(s, c))
    decreases c
  {
    if c > 0 && Lt(s[c].key, s[Parent(c)].key) { UpKeepsDistinct(Swap(s, Parent(c), c), Parent(c)); }
  }

  lemma {:induction false} DownKeepsDistinct<T>(s: seq<Entry<T>>, p: nat, n: nat)
    requires n <= |s| && Distinct(s)
    ensures Distinct(Down(s, p, n))
    decreases n - p
  {
    if 2 * p + 1 < n && Lt(s[MinChild(s, p, n)].key, s[p].key) {
      DownKeepsDistinct(Swap(s, p, MinChild(s, p, n)), MinChild(s, p, n), n);
    }
  }

  /** The second entry is found where it is, once the first has been fixed. */
  lemma {:induction false} SecondFix<T>(s: seq<Entry<T>>, a: nat, b: nat) returns (t: seq<Entry<T>>, q: nat)
    requires a < |s| && b < |s| && a != b && IsHeap(s) && Distinct(s)
    ensures t == Fix(Exchanged(s, a, b), a) && q < |t| && HeapBut(t, q, |t|)
    ensures SwapOrder(s, a, b) == Fix(t, q)
  {
    var x := Exchanged(s, a, b);
    t := Fix(x, a);
    q := AfterFirstFix(s, a, b);
    DownKeepsDistinct(x, a, |x|);
    UpKeepsDistinct(Down(x, a, |x|), a);
    SwapOrderSteps(s, a, b, t, q);
  }

  /** Exchanging the orders of any two entries of a heap and fixing them one after the other gives a heap, */
  lemma {:induction false} SwapOrderRestores<T>(s: seq<Entry<T>>, a: nat, b: nat)
    requires a < |s| && b < |s| && IsHeap(s) && Distinct(s)
    ensures IsHeap(SwapOrder(s, a, b))
  {
    if a != b {
      var t, q := SecondFix(s, a, b);
      FixRestores(t, q);
    }
  }

  /** and one of the same entries, but for the orders exchanged. */
  lemma {:induction false} SwapOrderPermutes<T>(s: seq<Entry<T>>, a: nat, b: nat)
    requires a < |s| && b < |s| && a != b && IsHeap(s) && Distinct(s)
    ensures multiset(SwapOrder(s, a, b)) == multiset(Exchanged(s, a, b))
  {
    var t, q := SecondFix(s, a, b);
    FixPermutes(Exchanged(s, a, b), a);
    FixPermutes(t, q);
  }

  /**
   * That only orders are exchanged matters: with two arbitrary keys changed at once, fixing one
   * entry and then the other need not give a heap.
   */
  lemma {:induction false} TwoArbitraryChanges()
    ensures exists s: seq<Entry<int>>, a: nat, b: nat, ka: Key, kb: Key ::
      && a < |s| && b < |s| && a != b && IsHeap(s) && Distinct(s)
      && var t := Fix(SetKey(SetKey(s, a, ka), b, kb), a);
         exists q: nat :: q < |t| && t[q].item == s[b].item && !IsHeap(Fix(t, q))
  {
    var root, left, right := Entry(10, Key(1, 0)), Entry(11, Key(5, 0)), Entry(12, Key(3, 0));
    var s, ka, kb := [root, left, right], Key(4, 0), Key(10, 0);
    forall i | 0 < i < 3 ensures Edge(s, i) {}
    var x := SetKey(SetKey(s, 1, ka), 0, kb);
    assert x == [Entry(10, kb), Entry(11, ka), right];
    var t := Fix(x, 1);
    assert t == [Entry(11, ka), Entry(10, kb), right] by {
      assert Down(x, 1, 3) == x;
      assert Up(Swap(x, 0, 1), 0) == Swap(x, 0, 1);
    }
    assert t[1].item == s[0].item;
    assert Fix(t, 1) == t by { assert Down(t, 1, 3) == t; }
    assert !Edge(t, 2);
  }

  // ---------- searching level by level ----------

  function Depth(i: nat): nat { if i == 0 then 0 else 1 + Depth(Parent(i)) }

  /** The child that is looked at first: the second only if it is less than the first. */
  predicate FirstSibling<T>(s: seq<Entry<T>>, i: nat, j: nat)
    requires 0 < i < |s| && 0 < j < |s|
  {
    if i < j then !Lt(s[j].key, s[i].key) else Lt(s[i].key, s[j].key)
  }

  /** The order in which `smallest` looks at two positions: level by level, the smaller sibling's family first. */
  predicate Earlier<T>(s: seq<Entry<T>>, i: nat, j: nat)
    requires i < |s| && j < |s|
    decreases i
  {
    if i == 0 || j == 0 then i == 0 && j != 0
    else if Parent(i) == Parent(j) then i != j && FirstSibling(s, i, j)
    else Earlier(s, Parent(i), Parent(j))
  }

  lemma {:induction false} EarlierIsNotDeeper<T>(s: seq<Entry<T>>, i: nat, j: nat)
    requires i < |s| && j < |s| && Earlier(s, i, j)
    ensures Depth(i) <= Depth(j) && i != j
    decreases i
  {
    if i != 0 && j != 0 && Parent(i) != Parent(j) { EarlierIsNotDeeper(s, Parent(i), Parent(j)); }
  }

  /** Of two siblings the second is looked at first only if it comes before the first. */
  lemma {:induction false} FirstSiblingFirst<T>(s: seq<Entry<T>>, p: nat)
    requires 2 * p + 2 < |s|
    ensures Earlier(s, 2 * p + 1, 2 * p + 2) <==> NotAfter(s[2 * p + 1].key, s[2 * p + 2].key)
    ensures Children(s, p) == if NotAfter(s[2 * p + 1].key, s[2 * p + 2].key) then [2 * p + 1, 2 * p + 2]
                              else [2 * p + 2, 2 * p + 1]
  {
    assert Parent(2 * p + 1) == p && Parent(2 * p + 2) == p;
  }

  /** Of any two positions exactly one is looked at first. */
  lemma {:induction false} EarlierIsTotal<T>(s: seq<Entry<T>>, i: nat, j: nat)
    requires i < |s| && j < |s| && i != j
    ensures Earlier(s, i, j) <==> !Earlier(s, j, i)
    decreases i
  {
    if i != 0 && j != 0 && Parent(i) != Parent(j) { EarlierIsTotal(s, Parent(i), Parent(j)); }
  }

  // ---------- when the first match is a least one ----------

  /** `m` is the match that comes first in the order of the search. */
  ghost predicate IsFirstMatch<T>(s: seq<Entry<T>>, pred: nat -> bool, m: nat) {
    && m < |s| && pred(m)
    && forall i {:trigger pred(i)} | 0 <= i < |s| && i != m && pred(i) :: Earlier(s, m, i)
  }

  /**
   * The match that is looked at first need not be the least: with keys 1, 2, 3, 10, 11, 4, 5 of
   * which 10 and 4 match, 10 is found first.
   */
  lemma {:induction false} FirstMatchNotLeast()
    ensures var keys := [1, 2, 3, 10, 11, 4, 5];
            var s := seq(7, i requires 0 <= i < 7 => Entry(i, Key(keys[i], 0)));
            var pred := (i: nat) => i == 3 || i == 5;
            IsHeap(s) && IsFirstMatch(s, pred, 3) && Lt(s[5].key, s[3].key) && !Under(s, 3, 5)
  {
    var keys := [1, 2, 3, 10, 11, 4, 5];
    var s := seq(7, i requires 0 <= i < 7 => Entry(i, Key(keys[i], 0)));
    assert Parent(3) == 1 && Parent(5) == 2 && Parent(1) == 0 && Parent(2) == 0;
    assert Earlier(s, 1, 2) && Earlier(s, 3, 5);
    forall i | 0 < i < 7 ensures Edge(s, i) {}
    assert !Under(s, 3, 0) && !Under(s, 3, 2);
  }

  /** Position `i` is `m` or the sibling looked at after it, or lies below one of the two. */
  predicate Under<T>(s: seq<Entry<T>>, m: nat, i: nat)
    requires m < |s| && i < |s|
    decreases i
  {
    || i == m
    || (i > 0 && m > 0 && Parent(i) == Parent(m) && FirstSibling(s, m, i))
    || (i > 0 && Under(s, m, Parent(i)))
  }

  /** What lies under a position of a heap is not less than it. */
  lemma {:induction false} UnderIsNotLess<T>(s: seq<Entry<T>>, m: nat, i: nat)
    requires IsHeap(s) && m < |s| && i < |s| && Under(s, m, i)
    ensures !Lt(s[i].key, s[m].key)
    decreases i
  {
    if i > 0 && Under(s, m, Parent(i)) {
      assert Edge(s, i);
      UnderIsNotLess(s, m, Parent(i));
    }
  }

  /** The two are searched in the same order. */
  ghost predicate SameSearch<T>(s: seq<Entry<T>>, t: seq<Entry<T>>) {
    |t| == |s| && forall i, j | 0 <= i < |s| && 0 <= j < |s| :: Earlier(t, i, j) == Earlier(s, i, j)
  }

  lemma {:induction false} SameUnder<T>(s: seq<Entry<T>>, t: seq<Entry<T>>, m: nat, i: nat)
    requires SameSearch(s, t) && m < |s| && i < |s|
    ensures Under(t, m, i) == Under(s, m, i)
    decreases i
  {
    if i > 0 {
      SameUnder(s, t, m, Parent(i));
      assert Earlier(t, m, i) == Earlier(s, m, i);
    }
  }

  /** The later of two siblings. */
  predicate IsSecond<T>(s: seq<Entry<T>>, i: nat)
    requires i < |s|
  {
    exists j :: 0 < j < |s| && i > 0 && j != i && Parent(j) == Parent(i) && FirstSibling(s, j, i)
  }

  /** A key that puts all that lies under `m` behind all that does not, and keeps the order of the search. */
  function Pushed<T>(s: seq<Entry<T>>, m: nat, i: nat): Key
    requires m < |s| && i < |s|
  {
    Key(if Under(s, m, i) then 1 else 0, 2 * Depth(i) + (if IsSecond(s, i) then 1 else 0))
  }

  function PushedBack<T>(s: seq<Entry<T>>, m: nat): (t: seq<Entry<T>>)
    requires m < |s|
    ensures |t| == |s| && forall i | 0 <= i < |s| :: t[i].key == Pushed(s, m, i)
  {
    seq(|s|, i requires 0 <= i < |s| => Entry(s[i].item, Pushed(s, m, i)))
  }

  lemma {:induction false} PushedSiblings<T>(s: seq<Entry<T>>, m: nat, i: nat, j: nat)
    requires m < |s| && 0 < i < |s| && 0 < j < |s| && i != j && Parent(i) == Parent(j) && FirstSibling(s, i, j)
    ensures Lt(Pushed(s, m, i), Pushed(s, m, j))
  {
    assert IsSecond(s, j) && !IsSecond(s, i);
    assert Depth(i) == Depth(j);
    if Under(s, m, i) { assert Under(s, m, j); }
  }

  lemma {:induction false} PushedIsHeap<T>(s: seq<Entry<T>>, m: nat)
    requires m < |s|
    ensures IsHeap(PushedBack(s, m))
  {
    var t := PushedBack(s, m);
    forall i | 0 < i < |t| ensures Edge(t, i) {
      assert Depth(i) == Depth(Parent(i)) + 1;
      assert Under(s, m, Parent(i)) ==> Under(s, m, i);
    }
  }

  lemma {:induction false} PushedSearch<T>(s: seq<Entry<T>>, m: nat, i: nat, j: nat)
    requires m < |s| && i < |s| && j < |s|
    ensures Earlier(PushedBack(s, m), i, j) == Earlier(s, i, j)
    decreases i
  {
    if i != 0 && j != 0 && i != j {
      if Parent(i) == Parent(j) {
        if FirstSibling(s, i, j) { PushedSiblings(s, m, i, j); } else { PushedSiblings(s, m, j, i); }
      } else {
        PushedSearch(s, m, Parent(i), Parent(j));
      }
    }
  }

  /**
   * Exactly what lies under a position is never less than it, whatever the keys of a heap that is
   * searched in this order.
   */
  lemma {:induction false} LeastExactlyOfThoseUnder<T(!new)>(s: seq<Entry<T>>, m: nat, i: nat)
    requires m < |s| && i < |s|
    ensures Under(s, m, i)
       <==> forall t: seq<Entry<T>> {:trigger SameSearch(s, t)} | SameSearch(s, t) && IsHeap(t) ::
              !Lt(t[i].key, t[m].key)
  {
    if Under(s, m, i) {
      forall t: seq<Entry<T>> | SameSearch(s, t) && IsHeap(t) ensures !Lt(t[i].key, t[m].key) {
        SameUnder(s, t, m, i);
        UnderIsNotLess(t, m, i);
      }
    } else {
      var t := PushedBack(s, m);
      PushedIsHeap(s, m);
      forall x, y | 0 <= x < |s| && 0 <= y < |s| ensures Earlier(t, x, y) == Earlier(s, x, y) {
        PushedSearch(s, m, x, y);
      }
      assert SameSearch(s, t) && Lt(t[i].key, t[m].key);
    }
  }

  /** So the first match is sure to be a least one if and only if every match lies under it. */
  lemma {:induction false} FirstMatchIsLeast<T(!new)>(s: seq<Entry<T>>, pred: nat -> bool, m: nat)
    requires IsFirstMatch(s, pred, m)
    ensures (forall i {:trigger pred(i)} | 0 <= i < |s| && pred(i) :: Under(s, m, i))
       <==> forall i, t: seq<Entry<T>> {:trigger SameSearch(s, t), pred(i)} |
              0 <= i < |s| && pred(i) && SameSearch(s, t) && IsHeap(t) :: !Lt(t[i].key, t[m].key)
  {
    forall i | 0 <= i < |s| && pred(i)
      ensures Under(s, m, i)
         <==> forall t: seq<Entry<T>> {:trigger SameSearch(s, t)} | SameSearch(s, t) && IsHeap(t) ::
                !Lt(t[i].key, t[m].key)
    {
      LeastExactlyOfThoseUnder(s, m, i);
    }
  }

  /** In particular when the root matches: it is found, and everything lies under it. */
  lemma {:induction false} MatchingRootIsLeast<T>(s: seq<Entry<T>>, pred: nat -> bool, m: nat, i: nat)
    requires IsHeap(s) && IsFirstMatch(s, pred, m) && pred(0) && i < |s|
    ensures m == 0 && Under(s, m, i) && !Lt(s[i].key, s[m].key)
    decreases i
  {
    if i > 0 {
      MatchingRootIsLeast(s, pred, m, Parent(i));
    }
    UnderIsNotLess(s, m, i);
  }

  lemma {:induction false} EarlierThanChild<T>(s: seq<Entry<T>>, c: nat)
    requires 0 < c < |s|
    ensures Earlier(s, Parent(c), c)
    decreases c
  {
    if Parent(c) != 0 { EarlierThanChild(s, Parent(c)); }
  }

  lemma {:induction false} EarlierThanLater<T>(s: seq<Entry<T>>, a: nat, c: nat)
    requires a < |s| && 0 < c < |s| && Earlier(s, a, Parent(c))
    ensures Earlier(s, a, c)
    decreases a
  {
    if a != 0 {
      var p := Parent(c);
      if Parent(a) == p {
        EarlierIsNotDeeper(s, a, p);
      } else if Parent(a) == Parent(p) {
        EarlierThanChild(s, p);
      } else {
        EarlierThanLater(s, Parent(a), p);
      }
    }
  }

  /** The children of a position, the one to look at first in front. */
  function Children<T>(s: seq<Entry<T>>, i: nat): (cs: seq<nat>)
    ensures forall c | c in cs :: 0 < c < |s| && Parent(c) == i
    ensures forall c | 0 < c < |s| && Parent(c) == i :: c in cs
    ensures |cs| <= 2
    ensures |cs| == 2 ==> 0 < cs[0] < |s| && 0 < cs[1] < |s| && cs[0] != cs[1] && FirstSibling(s, cs[0], cs[1])
  {
    var c1, c2 := 2 * i + 1, 2 * i + 2;
    if c1 >= |s| then []
    else if c2 >= |s| then [c1]
    else if Lt(s[c2].key, s[c1].key) then [c2, c1] else [c1, c2]
  }

  predicate InOrder<T>(s: seq<Entry<T>>, order: seq<nat>) {
    && (forall x | 0 <= x < |order| :: order[x] < |s|)
    && forall x, y {:trigger order[x], order[y]} | 0 <= x < y < |order| :: Earlier(s, order[x], order[y])
  }

  /** The search has looked at `seen` and has `items` to look at next. */
  predicate Searching<T>(s: seq<Entry<T>>, seen: seq<nat>, items: seq<nat>) {
    && InOrder(s, seen + items)
    && 0 in seen + items
    && forall i {:trigger i in seen + items} | 0 < i < |s| :: i in seen + items <==> Parent(i) in seen
  }

  lemma {:induction false} SearchStarts<T>(s: seq<Entry<T>>)
    requires s != []
    ensures Searching(s, [], [0])
  {
    assert [] + [0] == [0];
  }

  lemma {:induction false} NotSeenTwice<T>(s: seq<Entry<T>>, seen: seq<nat>, items: seq<nat>)
    requires Searching(s, seen, items) && items != []
    ensures items[0] < |s| && items[0] !in seen
    ensures forall x | x in seen :: x < |s| && Earlier(s, x, items[0])
  {
    var all := seen + items;
    assert all[|seen|] == items[0];
    forall x | x in seen ensures x < |s| && Earlier(s, x, items[0]) && x != items[0] {
      var k :| 0 <= k < |seen| && seen[k] == x;
      assert all[k] == x;
      EarlierIsNotDeeper(s, x, items[0]);
    }
  }

  lemma {:induction false} ChildrenComeLast<T>(s: seq<Entry<T>>, seen: seq<nat>, items: seq<nat>, x: nat, c: nat)
    requires Searching(s, seen, items) && items != [] && x in seen + items && c in Children(s, items[0])
    ensures x < |s| && Earlier(s, x, c)
  {
    NotSeenTwice(s, seen, items);
    if x == items[0] {
      EarlierThanChild(s, c);
    } else if x != 0 {
      assert Parent(x) in seen;
    }
  }

  lemma {:induction false} SearchStep<T>(s: seq<Entry<T>>, seen: seq<nat>, items: seq<nat>)
    requires Searching(s, seen, items) && items != []
    ensures Searching(s, seen + [items[0]], items[1..] + Children(s, items[0]))
  {
    var all, cs := seen + items, Children(s, items[0]);
    var seen', items' := seen + [items[0]], items[1..] + cs;
    assert seen' + items' == all + cs;
    NotSeenTwice(s, seen, items);
    forall x, c | x in all && c in cs ensures x < |s| && Earlier(s, x, c) { ChildrenComeLast(s, seen, items, x, c); }
    forall x | 0 <= x < |all + cs| ensures (all + cs)[x] < |s| {
      if x < |all| { assert (all + cs)[x] == all[x]; } else { assert (all + cs)[x] == cs[x - |all|]; }
    }
    forall x, y | 0 <= x < y < |all + cs| ensures Earlier(s, (all + cs)[x], (all + cs)[y]) {
      if y < |all| {
        assert (all + cs)[x] == all[x] && (all + cs)[y] == all[y];
      } else if x < |all| {
        assert (all + cs)[x] == all[x] && all[x] in all && (all + cs)[y] == cs[y - |all|];
      } else {
        assert (all + cs)[x] == cs[0] && (all + cs)[y] == cs[1];
      }
    }
    forall i | 0 < i < |s| ensures i in all + cs <==> Parent(i) in seen' {
      assert i in all <==> Parent(i) in seen;
    }
  }

  /** Whatever is not looked at yet comes after the next item. */
  lemma {:induction false} NextIsFirst<T>(s: seq<Entry<T>>, seen: seq<nat>, items: seq<nat>, i: nat)
    requires Searching(s, seen, items) && items != [] && i < |s| && i !in seen && i != items[0]
    ensures items[0] < |s| && Earlier(s, items[0], i)
    decreases i
  {
    var all := seen + items;
    NotSeenTwice(s, seen, items);
    if i in all {
      var k :| 0 <= k < |all| && all[k] == i;
      assert k > |seen| && all[|seen|] == items[0];
    } else {
      assert Parent(i) !in seen;
      if Parent(i) == items[0] {
        EarlierThanChild(s, i);
      } else {
        NextIsFirst(s, seen, items, Parent(i));
        EarlierThanLater(s, items[0], i);
      }
    }
  }

  /** A search with nothing left to look at has seen everything. */
  lemma {:induction false} SearchedAll<T>(s: seq<Entry<T>>, seen: seq<nat>, i: nat)
    requires Searching(s, seen, []) && i < |s|
    ensures i in seen
    decreases i
  {
    assert seen + [] == seen;
    if i > 0 {
      SearchedAll(s, seen, Parent(i));
      assert i in seen + [];
    }
  }

  lemma {:induction false} DistinctPrefix<T>(s: seq<Entry<T>>, seen: seq<nat>, items: seq<nat>)
    requires Searching(s, seen, items)
    ensures forall x, y | 0 <= x < y < |seen| :: seen[x] != seen[y]
    ensures forall x | 0 <= x < |seen| :: seen[x] < |s|
  {
    var all := seen + items;
    forall x | 0 <= x < |seen| ensures seen[x] < |s| { assert all[x] == seen[x]; }
    forall x, y | 0 <= x < y < |seen| ensures seen[x] != seen[y] {
      assert all[x] == seen[x] && all[y] == seen[y];
      EarlierIsNotDeeper(s, all[x], all[y]);
    }
  }
}
