/**
 * Finding a connected peer and sending with retries (PeerClientOperation of
 * tchannel/tornado/peer.py). What the network does is a parameter, and so is the peer group as
 * each choice finds it: between two choices peers may be moved, connected and disconnected.
 */
module Retry {
  import opened Wrappers
  import opened PeerHeap
  import opened PeerGroup

  /** The host-ports of the peers that can be chosen. */
  ghost function Candidates(group: PeerGroup): set<string>
    reads group.heap, group.heap.Members()
  {
    set p | p in group.heap.Members() && !p.isEphemeral :: p.hostport
  }

  /**
   * A snapshot of the peer group at the time of a choice, and the host-ports of the peers that could
   * be chosen then. The snapshots of different times are objects of their own.
   */
  datatype Moment = Moment(group: PeerGroup, candidates: set<string>)

  ghost predicate Sound(m: Moment)
    reads m.group, m.group.heap, m.group.pool, m.group.conns
  {
    match m
    case Moment(group, candidates) => group.Coherent() && Candidates(group) == candidates
  }

  ghost predicate AllSound(moments: seq<Moment>)
    reads set m | m in moments :: m.group
    reads set m | m in moments :: m.group.heap
    reads set m, p | m in moments && p in m.group.pool :: p
    reads set m, c | m in moments && c in m.group.conns :: c
  {
    forall m | m in moments :: Sound(m)
  }

  predicate NoRepeats<T(==)>(s: seq<T>) { forall i, j | 0 <= i < j < |s| :: s[i] != s[j] }

  function SetOf<T(==)>(s: seq<T>): set<T> { set h | h in s }

  /** `_choose` without a pinned host-port, for the `k`-th time. */
  method Choose(moments: seq<Moment>, k: nat, blacklist: set<string>) returns (chosen: Option<Peer>)
    requires AllSound(moments) && k < |moments|
    ensures AllSound(moments)
    ensures chosen.None? <==> moments[k].candidates <= blacklist
    ensures chosen.Some? ==>
      && chosen.value in moments[k].group.heap.Members() && !chosen.value.isEphemeral
      && chosen.value.hostport in moments[k].candidates - blacklist
  {
    var m := moments[k];
    assert Sound(m);
    chosen := m.group.Choose(blacklist);
    forall p | p in m.group.heap.Members() && !p.isEphemeral ensures p.hostport in Candidates(m.group) {}
  }

  /** How far the search for a connection has come. */
  datatype Search<H> = Search(tried: seq<H>, avoid: set<H>)

  /**
   * Distinct host-ports, none of them on the blacklist, were tried without success; `avoid` holds
   * them and the blacklist.
   */
  ghost predicate Going<H(!new)>(search: Search<H>, hosts: set<H>, blacklist: set<H>, connects: (nat, H) -> bool) {
    match search
    case Search(tried, avoid) =>
      && NoRepeats(tried)
      && (forall k | 0 <= k < |tried| :: tried[k] in hosts && tried[k] !in blacklist && !connects(k, tried[k]))
      && (forall h {:trigger h in avoid} :: h in avoid <==> h in blacklist || h in tried)
  }

  lemma {:induction false} TriesOneMore<H(!new)>(
      search: Search<H>, hosts: set<H>, blacklist: set<H>, connects: (nat, H) -> bool, h: H)
    requires Going(search, hosts, blacklist, connects) && h in hosts - search.avoid
    ensures NoRepeats(search.tried + [h]) && h !in blacklist
    ensures !connects(|search.tried|, h) ==>
      Going(Search(search.tried + [h], search.avoid + {h}), hosts, blacklist, connects)
  {
  }

  lemma {:induction false} FewerLeft<H>(hosts: set<H>, avoid: set<H>, h: H)
    requires h in hosts - avoid
    ensures |hosts - (avoid + {h})| == |hosts - avoid| - 1
  {
    assert hosts - (avoid + {h}) == hosts - avoid - {h};
  }

  /**
   * `_get_peer_connection` without a pinned host-port, while the host-ports of the peers stay the
   * same and everything else about them may change: `connects(k, hostport)` says whether the
   * `k`-th attempt succeeds. It ends; host-ports are tried at most once; and it reports none only
   * when each of them has been tried without success or was on the blacklist from the start.
   */
  method GetPeerConnection(
      moments: seq<Moment>, hosts: set<string>, blacklist: set<string>, connects: (nat, string) -> bool)
    returns (found: Option<Peer>, tried: seq<string>)
    requires AllSound(moments) && |moments| > |hosts| && forall k | 0 <= k < |moments| :: moments[k].candidates == hosts
    ensures NoRepeats(tried) && |tried| <= |hosts|
    ensures forall k | 0 <= k < |tried| :: tried[k] in hosts && tried[k] !in blacklist
    ensures forall k | 0 <= k < |tried| - 1 :: !connects(k, tried[k])
    ensures found.Some? ==>
      && tried != [] && found.value.hostport == tried[|tried| - 1] && connects(|tried| - 1, tried[|tried| - 1])
      && found.value in moments[|tried| - 1].group.heap.Members() && !found.value.isEphemeral
    ensures found.None? ==>
      && (tried != [] ==> !connects(|tried| - 1, tried[|tried| - 1]))
      && forall h | h in hosts :: h in blacklist || h in tried
  {
    var avoid := blacklist;
    tried := [];
    while true
      invariant AllSound(moments)
      invariant Going(Search(tried, avoid), hosts, blacklist, connects) && |tried| + |hosts - avoid| <= |hosts|
      decreases |hosts - avoid|
    {
      var attempt := |tried|;
      var peer := Choose(moments, attempt, avoid);
      if peer.None? { return None, tried; }
      var hostport := peer.value.hostport;
      TriesOneMore(Search(tried, avoid), hosts, blacklist, connects, hostport);
      FewerLeft(hosts, avoid, hostport);
      tried := tried + [hostport];
      if connects(attempt, hostport) { return peer, tried; }
      avoid := avoid + {hostport};
    }
  }

  // ---------- send_with_retry ----------

  /** What one send comes to; a TChannelError may or may not be one the request retries on. */
  datatype Sent = Response | Retryable | NotRetryable | OtherError

  /** The outcome of the send in attempt `k` and of the `connect` that follows its failure. */
  datatype Network = Network(send: (nat, string) -> Sent, connect: (nat, string) -> bool)

  datatype Ending = Responded | Raised | FellThrough

  /** There was no going on after attempt `k`, the last of `attempts`. */
  ghost predicate MustStop(net: Network, moments: seq<Moment>, attempts: seq<string>, retryLimit: int)
    requires 0 < |attempts| <= retryLimit + 1 <= |moments| + 1
  {
    var k := |attempts| - 1;
    match net.send(k, attempts[k])
    case Response => false
    case NotRetryable => true
    case OtherError => true
    case Retryable =>
      || k == retryLimit
      || moments[k].candidates <= SetOf(attempts)
      || exists next :: next in moments[k].candidates - SetOf(attempts) && !net.connect(k, next)
  }

  /**
   * At most `retryLimit + 1` attempts are made, to pairwise distinct host-ports, each but the
   * first of a peer of the group as it was when the attempt before had failed; every one but the
   * last failed with an error worth a retry; the call responds with the last attempt's response
   * or raises because it cannot go on. It falls out of the loop exactly when the limit is
   * negative.
   */
  method SendWithRetry(net: Network, moments: seq<Moment>, first: string, retryLimit: int)
    returns (ending: Ending, attempts: seq<string>)
    requires AllSound(moments) && |moments| >= retryLimit
    ensures ending == FellThrough <==> retryLimit < 0
    ensures retryLimit < 0 ==> attempts == []
    ensures retryLimit >= 0 ==> 0 < |attempts| <= retryLimit + 1 && attempts[0] == first && NoRepeats(attempts)
    ensures forall k | 0 <= k < |attempts| - 1 :: net.send(k, attempts[k]) == Retryable
    ensures forall k | 0 < k < |attempts| ::
      attempts[k] in moments[k - 1].candidates && net.connect(k - 1, attempts[k])
    ensures ending == Responded ==> attempts != [] && net.send(|attempts| - 1, attempts[|attempts| - 1]) == Response
    ensures ending == Raised ==> MustStop(net, moments, attempts, retryLimit)
  {
    attempts := [];
    var blacklist, hostport := {}, first;
    var attempt := 0;
    while attempt < retryLimit + 1
      invariant AllSound(moments)
      invariant attempt == |attempts| && (retryLimit >= 0 ==> attempt <= retryLimit)
      invariant retryLimit < 0 ==> attempt == 0
      invariant blacklist == SetOf(attempts) && hostport !in blacklist
      invariant NoRepeats(attempts) && (if attempts == [] then hostport == first else attempts[0] == first)
      invariant forall k | 0 <= k < |attempts| :: net.send(k, attempts[k]) == Retryable
      invariant forall k | 0 < k < |attempts| + 1 ::
        var next := (attempts + [hostport])[k]; next in moments[k - 1].candidates && net.connect(k - 1, next)
    {
      attempts := attempts + [hostport];
      var sent := net.send(attempt, hostport);
      if sent == Response { return Responded, attempts; }
      if sent == OtherError { return Raised, attempts; }
      blacklist := blacklist + {hostport};
      assert blacklist == SetOf(attempts);
      if sent == NotRetryable || attempt == retryLimit { return Raised, attempts; }
      var next := Choose(moments, attempt, blacklist);
      if next.None? { return Raised, attempts; }
      if !net.connect(attempt, next.value.hostport) { return Raised, attempts; }
      hostport := next.value.hostport;
      attempt := attempt + 1;
    }
    ending := FellThrough;
  }
}
