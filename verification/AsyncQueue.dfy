/**
 * The unbounded asynchronous queue of tchannel/_queue.py as a transition system.
 *
 * Every section guarded by the lock is one atomic step; every callback is a step of its
 * own, which may run at any time once the future it waits for is done. Any number of
 * threads is modelled by letting these steps interleave arbitrarily.
 */
module AsyncQueue {
  import opened Wrappers

  /** The identity of a future. Fresh futures get identities never used before. */
  type Id = nat

  /** The future that will hold a list node. `next` is None once a consumer has nulled it. */
  datatype Hole<+V> = Empty | Node(value: V, next: Option<Id>)

  /** A put that has passed the lock: the pointer it took and the hole it will append. */
  datatype Put<+V> = Put(value: V, pointer: Id, newHole: Id, done: bool)

  datatype Phase<+V> =
    | WaitPointer           // holds a pointer future, which may not be done yet
    | WaitNode(hole: Id)    // get: the hole is known, its node may not be there yet
    | Restoring(hole: Id)   // get_nowait: found the hole empty, has not handed it on yet
    | Taking(hole: Id)      // get_nowait: found the hole filled, has not taken the node yet
    | Got(value: V)
    | RaisedEmpty
  {
    predicate Resolved() { Got? || RaisedEmpty? }
  }

  /** A get or get_nowait that has passed the lock. */
  datatype Ticket<+V> = Ticket(nowait: bool, pointer: Id, newPointer: Id, phase: Phase<V>)

  /**
   * `puts` and `tickets` list the calls in the order in which they passed the lock.
   * The last four fields are history: the holes in the order in which puts appended them,
   * the pointers in the order in which gets installed them, and whether a future was ever
   * filled twice or a nulled `next` followed.
   */
  datatype State<+V> = State(
    holes: map<Id, Hole<V>>,
    pointers: map<Id, Option<Id>>,
    get: Id,
    put: Id,
    puts: seq<Put<V>>,
    tickets: seq<Ticket<V>>,
    chain: seq<Id>,
    turns: seq<Id>,
    broken: bool)

  datatype Step<+V> =
    | PutLock(value: V, newHole: Id, newPut: Id)
    | OnPut(j: nat)
    | GetLock(newGet: Id)
    | NowaitLock(newGet: Id)
    | NowaitRefused
    | OnGet(t: nat)
    | OnNode(t: nat)
    | NowaitCheck(t: nat)
    | NowaitRestore(t: nat)
    | NowaitTake(t: nat)

  // ---------- the steps ----------

  function Init<V>(): State<V> {
    State(map[0 := Empty], map[1 := Some(0), 2 := Some(0)], 1, 2, [], [], [0], [1], false)
  }

  predicate Fresh<V>(s: State<V>, id: Id) { id !in s.holes && id !in s.pointers }

  function FillPointer<V>(s: State<V>, p: Id, hole: Id): State<V> {
    if p in s.pointers && s.pointers[p].None?
    then s.(pointers := s.pointers[p := Some(hole)])
    else s.(broken := true)
  }

  function FillHole<V>(s: State<V>, h: Id, value: V, next: Id): State<V> {
    if h in s.holes && s.holes[h].Empty?
    then s.(holes := s.holes[h := Node(value, Some(next))])
    else s.(broken := true)
  }

  function SetPhase<V>(s: State<V>, t: nat, phase: Phase<V>): State<V>
    requires t < |s.tickets|
  {
    s.(tickets := s.tickets[t := s.tickets[t].(phase := phase)])
  }

  /** Reads the node in hole `h`, nulls its `next` and hands that on as the new pointer. */
  function Consume<V>(s: State<V>, t: nat, h: Id): State<V>
    requires t < |s.tickets|
    requires h in s.holes && s.holes[h].Node?
  {
    var node := s.holes[h];
    if node.next.None? then s.(broken := true) else
    var nulled := s.(holes := s.holes[h := node.(next := None)]);
    SetPhase(FillPointer(nulled, s.tickets[t].newPointer, node.next.value), t, Got(node.value))
  }

  predicate Done<V>(s: State<V>, p: Id) { p in s.pointers && s.pointers[p].Some? }

  predicate Filled<V>(s: State<V>, h: Id) { h in s.holes && s.holes[h].Node? }

  predicate Enabled<V>(s: State<V>, step: Step<V>) {
    match step
    case PutLock(_, newHole, newPut) => Fresh(s, newHole) && Fresh(s, newPut) && newHole != newPut
    case OnPut(j) => j < |s.puts| && !s.puts[j].done && Done(s, s.puts[j].pointer)
    case GetLock(newGet) => Fresh(s, newGet)
    case NowaitLock(newGet) => Fresh(s, newGet) && Done(s, s.get)
    case NowaitRefused => !Done(s, s.get)
    case OnGet(t) =>
      t < |s.tickets| && !s.tickets[t].nowait && s.tickets[t].phase.WaitPointer? && Done(s, s.tickets[t].pointer)
    case OnNode(t) =>
      t < |s.tickets| && s.tickets[t].phase.WaitNode? && Filled(s, s.tickets[t].phase.hole)
    case NowaitCheck(t) =>
      t < |s.tickets| && s.tickets[t].nowait && s.tickets[t].phase.WaitPointer? && Done(s, s.tickets[t].pointer)
    case NowaitRestore(t) => t < |s.tickets| && s.tickets[t].phase.Restoring?
    case NowaitTake(t) =>
      t < |s.tickets| && s.tickets[t].phase.Taking? && Filled(s, s.tickets[t].phase.hole)
  }

  function Apply<V>(s: State<V>, step: Step<V>): State<V>
    requires Enabled(s, step)
  {
    match step
    case PutLock(v, newHole, newPut) =>
      s.(holes := s.holes[newHole := Empty],
         pointers := s.pointers[newPut := Some(newHole)],
         put := newPut,
         puts := s.puts + [Put(v, s.put, newHole, false)],
         chain := s.chain + [newHole])
    case OnPut(j) =>
      var p := s.puts[j];
      FillHole(s, s.pointers[p.pointer].value, p.value, p.newHole).(puts := s.puts[j := p.(done := true)])
    case GetLock(newGet) => TakeTicket(s, false, newGet)
    case NowaitLock(newGet) => TakeTicket(s, true, newGet)
    case NowaitRefused => s
    case OnGet(t) => SetPhase(s, t, WaitNode(s.pointers[s.tickets[t].pointer].value))
    case OnNode(t) => Consume(s, t, s.tickets[t].phase.hole)
    case NowaitCheck(t) =>
      var hole := s.pointers[s.tickets[t].pointer].value;
      SetPhase(s, t, if Filled(s, hole) then Taking(hole) else Restoring(hole))
    case NowaitRestore(t) =>
      SetPhase(FillPointer(s, s.tickets[t].newPointer, s.tickets[t].phase.hole), t, RaisedEmpty)
    case NowaitTake(t) => Consume(s, t, s.tickets[t].phase.hole)
  }

  function TakeTicket<V>(s: State<V>, nowait: bool, newGet: Id): State<V> {
    s.(pointers := s.pointers[newGet := None],
       get := newGet,
       tickets := s.tickets + [Ticket(nowait, s.get, newGet, WaitPointer)],
       turns := s.turns + [newGet])
  }

  /** The state a schedule leads to, or None if one of its steps was not enabled. */
  function Run<V>(steps: seq<Step<V>>): Option<State<V>> {
    if steps == [] then Some(Init()) else
    var last := |steps| - 1;
    match Run(steps[..last])
    case None => None
    case Some(s) => if Enabled(s, steps[last]) then Some(Apply(s, steps[last])) else None
  }

  // ---------- what the queue promises ----------

  /** The values that completed gets returned, in the order in which the gets passed the lock. */
  function Delivered<V>(ts: seq<Ticket<V>>): seq<V> {
    if ts == [] then [] else
    var last := |ts| - 1;
    Delivered(ts[..last]) + (if ts[last].phase.Got? then [ts[last].phase.value] else [])
  }

  /** The values put, in the order in which the puts passed the lock. */
  function Accepted<V>(puts: seq<Put<V>>): (vs: seq<V>)
    ensures |vs| == |puts| && forall j | 0 <= j < |puts| :: vs[j] == puts[j].value
  {
    seq(|puts|, j requires 0 <= j < |puts| => puts[j].value)
  }

  // ---------- the inductive invariant ----------

  function Wins<V>(ts: seq<Ticket<V>>): nat { |Delivered(ts)| }

  /** All tickets before `t` are resolved. */
  predicate Reached<V>(ts: seq<Ticket<V>>, t: nat)
    requires t <= |ts|
  {
    t == 0 || ts[t - 1].phase.Resolved()
  }

  ghost predicate PutsLinked<V>(s: State<V>) {
    && |s.chain| == |s.puts| + 1
    && (forall j | 0 <= j <= |s.puts| :: s.chain[j] in s.holes)
    && (forall i, j | 0 <= i < j <= |s.puts| :: s.chain[i] != s.chain[j])
    && (forall j {:trigger s.puts[j].newHole} | 0 <= j < |s.puts| :: s.puts[j].newHole == s.chain[j + 1])
    && (forall j {:trigger s.puts[j].pointer} | 0 <= j < |s.puts| ::
          s.puts[j].pointer in s.pointers && s.pointers[s.puts[j].pointer] == Some(s.chain[j]))
    && s.put in s.pointers && s.pointers[s.put] == Some(s.chain[|s.puts|])
  }

  function Content<V>(s: State<V>, j: nat, wins: nat): Hole<V>
    requires |s.chain| == |s.puts| + 1 && j <= |s.puts|
  {
    if j == |s.puts| || !s.puts[j].done then Empty
    else Node(s.puts[j].value, if j < wins then None else Some(s.chain[j + 1]))
  }

  ghost predicate HolesMatch<V>(s: State<V>)
    requires PutsLinked(s)
  {
    forall j {:trigger s.holes[s.chain[j]]} | 0 <= j <= |s.puts| ::
      s.holes[s.chain[j]] == Content(s, j, Wins(s.tickets))
  }

  ghost predicate TicketsLinked<V>(s: State<V>) {
    && |s.turns| == |s.tickets| + 1
    && (forall t | 0 <= t <= |s.tickets| :: s.turns[t] in s.pointers)
    && (forall i, t | 0 <= i < t <= |s.tickets| :: s.turns[i] != s.turns[t])
    && (forall t {:trigger s.tickets[t].pointer} | 0 <= t < |s.tickets| :: s.tickets[t].pointer == s.turns[t])
    && (forall t {:trigger s.tickets[t].newPointer} | 0 <= t < |s.tickets| :: s.tickets[t].newPointer == s.turns[t + 1])
    && s.get == s.turns[|s.tickets|]
    && (forall i, t {:trigger s.tickets[i].phase, s.tickets[t].phase} |
          0 <= i < t < |s.tickets| && s.tickets[t].phase.Resolved() :: s.tickets[i].phase.Resolved())
  }

  /** The pointer in front of ticket `t` is done exactly when `t` is next, and then names the next hole. */
  ghost predicate PointerOk<V>(s: State<V>, t: nat)
    requires PutsLinked(s) && TicketsLinked(s) && t <= |s.tickets|
  {
    if Reached(s.tickets, t)
    then Wins(s.tickets[..t]) <= |s.puts| && s.pointers[s.turns[t]] == Some(s.chain[Wins(s.tickets[..t])])
    else s.pointers[s.turns[t]] == None
  }

  ghost predicate PhaseOk<V>(s: State<V>, t: nat)
    requires |s.chain| == |s.puts| + 1 && t < |s.tickets|
  {
    var wins := Wins(s.tickets[..t]);
    match s.tickets[t].phase
    case WaitPointer => true
    case WaitNode(hole) => !s.tickets[t].nowait && Reached(s.tickets, t) && wins <= |s.puts| && hole == s.chain[wins]
    case Restoring(hole) => s.tickets[t].nowait && Reached(s.tickets, t) && wins <= |s.puts| && hole == s.chain[wins]
    case Taking(hole) =>
      s.tickets[t].nowait && Reached(s.tickets, t) && wins < |s.puts| && s.puts[wins].done && hole == s.chain[wins]
    case Got(value) => wins < |s.puts| && s.puts[wins].done && value == s.puts[wins].value
    case RaisedEmpty => s.tickets[t].nowait
  }

  ghost predicate Inv<V>(s: State<V>) {
    && !s.broken
    && PutsLinked(s) && HolesMatch(s)
    && TicketsLinked(s)
    && (forall t {:trigger PointerOk(s, t)} | 0 <= t <= |s.tickets| :: PointerOk(s, t))
    && (forall t {:trigger PhaseOk(s, t)} | 0 <= t < |s.tickets| :: PhaseOk(s, t))
  }

  // ---------- lemmas on tickets ----------

  lemma {:induction false} WinsOfUnresolvedSuffix<V>(ts: seq<Ticket<V>>, t: nat)
    requires t <= |ts|
    requires forall i | t <= i < |ts| :: !ts[i].phase.Got?
    ensures Delivered(ts) == Delivered(ts[..t])
  {
    if t < |ts| {
      var last := |ts| - 1;
      WinsOfUnresolvedSuffix(ts[..last], t);
      assert ts[..last][..t] == ts[..t];
    } else {
      assert ts[..t] == ts;
    }
  }

  /** The ticket that received the value number `j`. */
  lemma {:induction false} WinnerOf<V>(ts: seq<Ticket<V>>, j: nat) returns (t: nat)
    requires j < Wins(ts)
    ensures t < |ts| && ts[t].phase.Got? && Wins(ts[..t]) == j && Delivered(ts)[j] == ts[t].phase.value
  {
    var last := |ts| - 1;
    if j < Wins(ts[..last]) {
      t := WinnerOf(ts[..last], j);
      assert ts[..last][..t] == ts[..t];
    } else {
      t := last;
    }
  }

  /** Only the first unresolved ticket can act, and all values so far went to tickets before it. */
  lemma {:induction false} ActiveTicket<V>(s: State<V>, t: nat)
    requires TicketsLinked(s) && t < |s.tickets| && Reached(s.tickets, t) && !s.tickets[t].phase.Resolved()
    ensures forall i | t <= i < |s.tickets| :: !s.tickets[i].phase.Resolved()
    ensures Delivered(s.tickets) == Delivered(s.tickets[..t])
  {
    forall i | t <= i < |s.tickets| ensures !s.tickets[i].phase.Resolved() {
      assert s.tickets[t].phase == s.tickets[t].phase;
    }
    WinsOfUnresolvedSuffix(s.tickets, t);
  }

  function SetTicket<V>(ts: seq<Ticket<V>>, t: nat, phase: Phase<V>): seq<Ticket<V>>
    requires t < |ts|
  {
    ts[t := ts[t].(phase := phase)]
  }

  /** What a new phase of the active ticket does to the values delivered. */
  lemma {:induction false} DeliveredAfterSet<V>(ts: seq<Ticket<V>>, t: nat, phase: Phase<V>)
    requires t < |ts|
    requires forall i | t <= i < |ts| :: !ts[i].phase.Resolved()
    ensures forall i | 0 <= i <= t :: SetTicket(ts, t, phase)[..i] == ts[..i]
    ensures Delivered(SetTicket(ts, t, phase)[..t + 1])
         == Delivered(ts[..t]) + (if phase.Got? then [phase.value] else [])
    ensures Delivered(SetTicket(ts, t, phase)) == Delivered(SetTicket(ts, t, phase)[..t + 1])
  {
    var ts' := SetTicket(ts, t, phase);
    forall i | 0 <= i <= t ensures ts'[..i] == ts[..i] { }
    assert ts'[..t + 1][..t] == ts[..t];
    WinsOfUnresolvedSuffix(ts', t + 1);
  }

  /** The active ticket takes a new phase; the tickets stay linked. */
  lemma {:induction false} ProgressKeepsLinks<V>(s: State<V>, t: nat, phase: Phase<V>, s': State<V>)
    requires TicketsLinked(s) && t < |s.tickets| && Reached(s.tickets, t) && !s.tickets[t].phase.Resolved()
    requires s'.tickets == SetTicket(s.tickets, t, phase) && s'.turns == s.turns && s'.get == s.get
    requires s.pointers.Keys <= s'.pointers.Keys
    ensures TicketsLinked(s')
  {
    ActiveTicket(s, t);
    if t > 0 {
      forall i | 0 <= i < t ensures s'.tickets[i].phase.Resolved() {
        assert s.tickets[i].phase == s.tickets[i].phase && s.tickets[t - 1].phase.Resolved();
      }
    }
  }

  /**
   * The step in which the active ticket takes a new phase, fills the pointer behind it if the
   * phase resolves it, and perhaps changes a hole.
   */
  lemma {:induction false} ProgressKeepsInv<V>(s: State<V>, t: nat, phase: Phase<V>, s': State<V>)
    requires Inv(s) && t < |s.tickets| && Reached(s.tickets, t) && !s.tickets[t].phase.Resolved()
    requires s' == s.(tickets := SetTicket(s.tickets, t, phase), holes := s'.holes, pointers := s'.pointers)
    requires PutsLinked(s') && HolesMatch(s')
    requires Wins(s'.tickets) <= |s.puts|
    requires s'.pointers ==
      if phase.Resolved() then s.pointers[s.turns[t + 1] := Some(s.chain[Wins(s'.tickets)])] else s.pointers
    requires PhaseOk(s', t)
    ensures Inv(s')
  {
    ActiveTicket(s, t);
    DeliveredAfterSet(s.tickets, t, phase);
    ProgressKeepsLinks(s, t, phase, s');
    forall i | 0 <= i <= |s'.tickets| ensures PointerOk(s', i) {
      ProgressKeepsPointer(s, t, phase, s', i);
    }
    forall i | 0 <= i < |s'.tickets| ensures PhaseOk(s', i) {
      ProgressKeepsPhase(s, t, phase, s', i);
    }
  }

  lemma {:induction false} ProgressKeepsPointer<V>(s: State<V>, t: nat, phase: Phase<V>, s': State<V>, i: nat)
    requires PutsLinked(s) && TicketsLinked(s) && t < |s.tickets| && i <= |s.tickets|
    requires PointerOk(s, i)
    requires Reached(s.tickets, t)
    requires forall k | t <= k < |s.tickets| :: !s.tickets[k].phase.Resolved()
    requires s' == s.(tickets := SetTicket(s.tickets, t, phase), holes := s'.holes, pointers := s'.pointers)
    requires PutsLinked(s') && TicketsLinked(s')
    requires forall k | 0 <= k <= t :: s'.tickets[..k] == s.tickets[..k]
    requires Wins(s'.tickets) == Wins(s'.tickets[..t + 1]) <= |s.puts|
    requires s'.pointers ==
      if phase.Resolved() then s.pointers[s.turns[t + 1] := Some(s.chain[Wins(s'.tickets)])] else s.pointers
    ensures PointerOk(s', i)
  {
  }

  lemma {:induction false} ProgressKeepsPhase<V>(s: State<V>, t: nat, phase: Phase<V>, s': State<V>, i: nat)
    requires |s.chain| == |s.puts| + 1 && t < |s.tickets| && i < |s.tickets|
    requires s' == s.(tickets := SetTicket(s.tickets, t, phase), holes := s'.holes, pointers := s'.pointers)
    requires PhaseOk(s, i) && PhaseOk(s', t)
    requires forall k | t <= k < |s.tickets| :: !s.tickets[k].phase.Resolved()
    requires forall k | 0 <= k <= t :: s'.tickets[..k] == s.tickets[..k]
    ensures PhaseOk(s', i)
  {
  }

  // ---------- every step keeps the invariant ----------

  /** A step of a get that consumes nothing leaves the list of nodes as it was. */
  lemma {:induction false} SameHoles<V>(s: State<V>, s': State<V>)
    requires PutsLinked(s) && HolesMatch(s)
    requires s' == s.(tickets := s'.tickets, pointers := s'.pointers, get := s'.get, turns := s'.turns)
    requires forall p | p in s.pointers && s.pointers[p].Some? :: p in s'.pointers && s'.pointers[p] == s.pointers[p]
    requires Wins(s'.tickets) == Wins(s.tickets)
    ensures PutsLinked(s') && HolesMatch(s')
  {
    forall i | 0 <= i <= |s'.puts| ensures s'.holes[s'.chain[i]] == Content(s', i, Wins(s'.tickets)) {
      assert s.holes[s.chain[i]] == Content(s, i, Wins(s.tickets));
    }
  }

  /** A put only ever adds to what the tickets rely on. */
  lemma {:induction false} PutSideKeepsTickets<V>(s: State<V>, s': State<V>)
    requires Inv(s)
    requires s'.tickets == s.tickets && s'.turns == s.turns && s'.get == s.get && !s'.broken
    requires s.chain <= s'.chain && |s.puts| <= |s'.puts|
    requires forall j | 0 <= j < |s.puts| ::
               s'.puts[j].value == s.puts[j].value && (s.puts[j].done ==> s'.puts[j].done)
    requires forall p | p in s.pointers :: p in s'.pointers && s'.pointers[p] == s.pointers[p]
    requires PutsLinked(s') && HolesMatch(s')
    ensures Inv(s')
  {
    forall t | 0 <= t <= |s.tickets| ensures PointerOk(s', t) { assert PointerOk(s, t); }
    forall t | 0 <= t < |s.tickets| ensures PhaseOk(s', t) { assert PhaseOk(s, t); }
  }

  lemma {:induction false} PutLockKeepsInv<V>(s: State<V>, step: Step<V>)
    requires Inv(s) && step.PutLock? && Enabled(s, step)
    ensures Inv(Apply(s, step))
  {
    var s' := Apply(s, step);
    assert PutsLinked(s');
    forall j | 0 <= j <= |s'.puts| ensures s'.holes[s'.chain[j]] == Content(s', j, Wins(s'.tickets)) {
      if j <= |s.puts| { assert s.holes[s.chain[j]] == Content(s, j, Wins(s.tickets)); }
    }
    PutSideKeepsTickets(s, s');
  }

  /** A value can only have been delivered after its put filled the hole. */
  lemma {:induction false} WinsBound<V>(s: State<V>, j: nat)
    requires Inv(s) && j < Wins(s.tickets)
    ensures j < |s.puts| && s.puts[j].done && Delivered(s.tickets)[j] == s.puts[j].value
  {
    var t := WinnerOf(s.tickets, j);
    assert PhaseOk(s, t);
  }

  /** What the callback of a put finds. */
  lemma {:induction false} OnPutFinds<V>(s: State<V>, j: nat)
    requires Inv(s) && j < |s.puts| && !s.puts[j].done
    ensures Wins(s.tickets) <= j && s.puts[j].newHole == s.chain[j + 1]
    ensures s.puts[j].pointer in s.pointers && s.pointers[s.puts[j].pointer] == Some(s.chain[j])
    ensures s.chain[j] in s.holes && s.holes[s.chain[j]] == Empty
  {
    if j < Wins(s.tickets) { WinsBound(s, j); }
    assert s.holes[s.chain[j]] == Content(s, j, Wins(s.tickets));
  }

  lemma {:induction false} OnPutKeepsInv<V>(s: State<V>, step: Step<V>)
    requires Inv(s) && step.OnPut? && Enabled(s, step)
    ensures Inv(Apply(s, step))
  {
    var s', j := Apply(s, step), step.j;
    OnPutFinds(s, j);
    OnPutKeepsHoles(s, s', j);
    PutSideKeepsTickets(s, s');
  }

  lemma {:induction false} OnPutKeepsHoles<V>(s: State<V>, s': State<V>, j: nat)
    requires PutsLinked(s) && HolesMatch(s) && j < |s.puts| && Wins(s.tickets) <= j
    requires s' == s.(holes := s'.holes, puts := s'.puts)
    requires s'.holes == s.holes[s.chain[j] := Node(s.puts[j].value, Some(s.chain[j + 1]))]
    requires s'.puts == s.puts[j := s.puts[j].(done := true)]
    ensures PutsLinked(s') && HolesMatch(s')
  {
    forall i | 0 <= i <= |s'.puts| ensures s'.holes[s'.chain[i]] == Content(s', i, Wins(s'.tickets)) {
      assert s.holes[s.chain[i]] == Content(s, i, Wins(s.tickets));
    }
  }

  lemma {:induction false} TakeTicketKeepsInv<V>(s: State<V>, nowait: bool, newGet: Id)
    requires Inv(s) && Fresh(s, newGet)
    ensures Inv(TakeTicket(s, nowait, newGet))
  {
    var s' := TakeTicket(s, nowait, newGet);
    assert s.tickets[..|s.tickets|] == s.tickets;
    assert s'.tickets[..|s.tickets|] == s.tickets;
    assert Delivered(s'.tickets) == Delivered(s.tickets);
    TakeTicketKeepsLinks(s, nowait, newGet);
    SameHoles(s, s');
    forall t | 0 <= t <= |s'.tickets| ensures PointerOk(s', t) { TakeTicketKeepsPointer(s, nowait, newGet, t); }
    forall t | 0 <= t < |s'.tickets| ensures PhaseOk(s', t) {
      if t < |s.tickets| { assert PhaseOk(s, t); assert s'.tickets[..t] == s.tickets[..t]; }
    }
  }

  lemma {:induction false} TakeTicketKeepsPointer<V>(s: State<V>, nowait: bool, newGet: Id, t: nat)
    requires Inv(s) && Fresh(s, newGet) && t <= |s.tickets| + 1
    requires var s' := TakeTicket(s, nowait, newGet); PutsLinked(s') && TicketsLinked(s')
    ensures PointerOk(TakeTicket(s, nowait, newGet), t)
  {
    var s' := TakeTicket(s, nowait, newGet);
    if t <= |s.tickets| {
      assert PointerOk(s, t);
      assert s'.tickets[..t] == s.tickets[..t];
    }
  }

  lemma {:induction false} TakeTicketKeepsLinks<V>(s: State<V>, nowait: bool, newGet: Id)
    requires TicketsLinked(s) && Fresh(s, newGet)
    ensures TicketsLinked(TakeTicket(s, nowait, newGet))
  {
  }

  /** What a ticket about to take a node finds. */
  lemma {:induction false} FrontNode<V>(s: State<V>, t: nat)
    requires Inv(s) && t < |s.tickets|
    requires s.tickets[t].phase.WaitNode? || s.tickets[t].phase.Taking?
    requires Filled(s, s.tickets[t].phase.hole)
    ensures Reached(s.tickets, t)
    ensures forall i | t <= i < |s.tickets| :: !s.tickets[i].phase.Resolved()
    ensures Delivered(s.tickets) == Delivered(s.tickets[..t])
    ensures Wins(s.tickets) < |s.puts| && s.puts[Wins(s.tickets)].done
    ensures s.tickets[t].phase.hole == s.chain[Wins(s.tickets)]
    ensures s.holes[s.chain[Wins(s.tickets)]]
         == Node(s.puts[Wins(s.tickets)].value, Some(s.chain[Wins(s.tickets) + 1]))
    ensures s.tickets[t].newPointer == s.turns[t + 1] && s.turns[t + 1] in s.pointers
    ensures s.pointers[s.turns[t + 1]] == None
  {
    assert PhaseOk(s, t);
    ActiveTicket(s, t);
    var j := Wins(s.tickets);
    assert s.holes[s.chain[j]] == Content(s, j, j);
    assert PointerOk(s, t + 1);
  }

  lemma {:induction false} ConsumeKeepsInv<V>(s: State<V>, t: nat)
    requires Inv(s) && t < |s.tickets|
    requires s.tickets[t].phase.WaitNode? || s.tickets[t].phase.Taking?
    requires Filled(s, s.tickets[t].phase.hole)
    ensures Inv(Consume(s, t, s.tickets[t].phase.hole))
  {
    var j := Wins(s.tickets);
    FrontNode(s, t);
    var phase := Got(s.puts[j].value);
    DeliveredAfterSet(s.tickets, t, phase);
    var s' := Consume(s, t, s.chain[j]);
    ConsumeKeepsHoles(s, s', j);
    ProgressKeepsInv(s, t, phase, s');
  }

  lemma {:induction false} ConsumeKeepsHoles<V>(s: State<V>, s': State<V>, j: nat)
    requires PutsLinked(s) && HolesMatch(s) && j == Wins(s.tickets) < |s.puts| && s.puts[j].done
    requires s' == s.(tickets := s'.tickets, holes := s'.holes, pointers := s'.pointers)
    requires s'.holes == s.holes[s.chain[j] := Node(s.puts[j].value, None)]
    requires forall p | p in s.pointers && s.pointers[p].Some? :: p in s'.pointers && s'.pointers[p] == s.pointers[p]
    requires Wins(s'.tickets) == j + 1
    ensures PutsLinked(s') && HolesMatch(s')
  {
    forall i | 0 <= i <= |s'.puts| ensures s'.holes[s'.chain[i]] == Content(s', i, j + 1) {
      assert s.holes[s.chain[i]] == Content(s, i, j);
      assert i != j ==> s.chain[i] != s.chain[j];
    }
  }

  /** A phase change that changes no future. */
  lemma {:induction false} SetPhaseKeepsInv<V>(s: State<V>, t: nat, phase: Phase<V>)
    requires Inv(s) && t < |s.tickets| && Reached(s.tickets, t) && !s.tickets[t].phase.Resolved() && !phase.Resolved()
    requires Wins(s.tickets[..t]) <= |s.puts|
    requires PhaseOk(SetPhase(s, t, phase), t)
    ensures Inv(SetPhase(s, t, phase))
  {
    ActiveTicket(s, t);
    DeliveredAfterSet(s.tickets, t, phase);
    var s' := SetPhase(s, t, phase);
    SameHoles(s, s');
    ProgressKeepsInv(s, t, phase, s');
  }

  lemma {:induction false} RestoreKeepsInv<V>(s: State<V>, t: nat)
    requires Inv(s) && t < |s.tickets| && s.tickets[t].phase.Restoring?
    ensures Inv(Apply(s, NowaitRestore(t)))
  {
    assert PhaseOk(s, t);
    ActiveTicket(s, t);
    DeliveredAfterSet(s.tickets, t, RaisedEmpty);
    assert PointerOk(s, t + 1);
    assert s.tickets[t].newPointer == s.turns[t + 1];
    var s' := Apply(s, NowaitRestore(t));
    SameHoles(s, s');
    ProgressKeepsInv(s, t, RaisedEmpty, s');
  }

  /** What a ticket finds once the pointer it took is done. */
  lemma {:induction false} PointerDone<V>(s: State<V>, t: nat)
    requires Inv(s) && t < |s.tickets| && Done(s, s.tickets[t].pointer)
    ensures Reached(s.tickets, t) && Wins(s.tickets[..t]) <= |s.puts|
    ensures s.pointers[s.tickets[t].pointer] == Some(s.chain[Wins(s.tickets[..t])])
    ensures s.chain[Wins(s.tickets[..t])] in s.holes
  {
    assert PointerOk(s, t);
  }

  lemma {:induction false} NowaitCheckKeepsInv<V>(s: State<V>, t: nat)
    requires Inv(s) && Enabled(s, NowaitCheck(t))
    ensures Inv(Apply(s, NowaitCheck(t)))
  {
    PointerDone(s, t);
    ActiveTicket(s, t);
    var j := Wins(s.tickets[..t]);
    assert s.holes[s.chain[j]] == Content(s, j, j);
    SetPhaseKeepsInv(s, t, if Filled(s, s.chain[j]) then Taking(s.chain[j]) else Restoring(s.chain[j]));
  }

  lemma {:induction false} StepKeepsInv<V>(s: State<V>, step: Step<V>)
    requires Inv(s) && Enabled(s, step)
    ensures Inv(Apply(s, step))
  {
    match step
    case PutLock(_, _, _) => PutLockKeepsInv(s, step);
    case OnPut(_) => OnPutKeepsInv(s, step);
    case GetLock(newGet) => TakeTicketKeepsInv(s, false, newGet);
    case NowaitLock(newGet) => TakeTicketKeepsInv(s, true, newGet);
    case NowaitRefused =>
    case OnGet(t) =>
      PointerDone(s, t);
      SetPhaseKeepsInv(s, t, WaitNode(s.chain[Wins(s.tickets[..t])]));
    case OnNode(t) => ConsumeKeepsInv(s, t);
    case NowaitCheck(t) => NowaitCheckKeepsInv(s, t);
    case NowaitRestore(t) => RestoreKeepsInv(s, t);
    case NowaitTake(t) => ConsumeKeepsInv(s, t);
  }

  lemma {:induction false} InitIsSound<V>()
    ensures Inv(Init<V>())
  {
    assert PointerOk(Init<V>(), 0);
  }

  lemma {:induction false} RunKeepsInv<V>(steps: seq<Step<V>>)
    ensures Run(steps).Some? ==> Inv(Run(steps).value)
  {
    if steps == [] {
      InitIsSound<V>();
    } else {
      var last := |steps| - 1;
      RunKeepsInv(steps[..last]);
      if Run(steps).Some? {
        StepKeepsInv(Run(steps[..last]).value, steps[last]);
      }
    }
  }

  // ---------- the theorems ----------

  /**
   * First in, first out, in lock order: after every schedule the values returned by the
   * completed gets are a prefix of the values put. Nothing is lost, duplicated or reordered.
   */
  lemma {:induction false} FirstInFirstOut<V>(steps: seq<Step<V>>)
    requires Run(steps).Some?
    ensures Delivered(Run(steps).value.tickets) <= PutsOf(steps)
  {
    RunKeepsInv(steps);
    CallsAreRecorded(steps);
    var s := Run(steps).value;
    var got, put := Delivered(s.tickets), Accepted(s.puts);
    forall j | 0 <= j < |got| ensures j < |put| && got[j] == put[j] {
      WinsBound(s, j);
    }
    if |got| > 0 { WinsBound(s, |got| - 1); }
  }

  /**
   * No future is ever filled twice and no nulled `next` is ever followed, so each node is
   * consumed by exactly one get.
   */
  lemma {:induction false} EachNodeConsumedOnce<V>(steps: seq<Step<V>>)
    requires Run(steps).Some?
    ensures !Run(steps).value.broken
  {
    RunKeepsInv(steps);
  }

  // ---------- the calls of a schedule ----------

  /** The values that a schedule puts, in the order of the locks. */
  function PutsOf<V>(steps: seq<Step<V>>): seq<V> {
    if steps == [] then [] else
    var last := |steps| - 1;
    PutsOf(steps[..last]) + (if steps[last].PutLock? then [steps[last].value] else [])
  }

  /** For each get and get_nowait that passes the lock, in that order, whether it waits. */
  function WaitsOf<V>(steps: seq<Step<V>>): seq<bool> {
    if steps == [] then [] else
    var last := |steps| - 1;
    WaitsOf(steps[..last])
    + (match steps[last] case GetLock(_) => [true] case NowaitLock(_) => [false] case _ => [])
  }

  /** Every ticket is of the kind of its call. */
  ghost predicate TicketsAre<V>(tickets: seq<Ticket<V>>, waits: seq<bool>) {
    |tickets| == |waits| && forall t | 0 <= t < |tickets| :: tickets[t].nowait == !waits[t]
  }

  lemma {:induction false} StepIsRecorded<V>(s: State<V>, step: Step<V>, values: seq<V>, waits: seq<bool>)
    requires Enabled(s, step) && Accepted(s.puts) == values && TicketsAre(s.tickets, waits)
    ensures Accepted(Apply(s, step).puts) == values + (if step.PutLock? then [step.value] else [])
    ensures TicketsAre(Apply(s, step).tickets,
      waits + (match step case GetLock(_) => [true] case NowaitLock(_) => [false] case _ => []))
  {
  }

  /** The queue holds exactly the calls of the schedule, in lock order: each value put, and each get with its kind. */
  lemma {:induction false} CallsAreRecorded<V>(steps: seq<Step<V>>)
    requires Run(steps).Some?
    ensures Accepted(Run(steps).value.puts) == PutsOf(steps)
    ensures TicketsAre(Run(steps).value.tickets, WaitsOf(steps))
  {
    if steps != [] {
      var last := |steps| - 1;
      CallsAreRecorded(steps[..last]);
      StepIsRecorded(Run(steps[..last]).value, steps[last], PutsOf(steps[..last]), WaitsOf(steps[..last]));
    }
  }

  /** A schedule that can be run from its start can be run up to any point. */
  lemma {:induction false} RunOfPrefix<V>(steps: seq<Step<V>>, n: nat)
    requires Run(steps).Some? && n <= |steps|
    ensures Run(steps[..n]).Some? && WaitsOf(steps[..n]) <= WaitsOf(steps)
  {
    if n < |steps| {
      var last := |steps| - 1;
      RunOfPrefix(steps[..last], n);
      assert steps[..last][..n] == steps[..n];
    } else {
      assert steps[..n] == steps;
    }
  }

  /** The ticket that a call takes under the lock keeps its kind, whatever comes before and after. */
  lemma {:induction false} TicketOfCall<V>(before: seq<Step<V>>, lock: Step<V>, more: seq<Step<V>>, t: nat)
    requires lock.GetLock? || lock.NowaitLock?
    requires Run(before + [lock] + more).Some? && t == |WaitsOf(before)|
    ensures Run(before).Some? && |Run(before).value.tickets| == t
    ensures t < |Run(before + [lock] + more).value.tickets|
    ensures Run(before + [lock] + more).value.tickets[t].nowait == lock.NowaitLock?
  {
    var locked := before + [lock];
    var all := locked + more;
    RunOfPrefix(all, |locked|);
    RunOfPrefix(all, |before|);
    assert all[..|locked|] == locked && all[..|before|] == before && locked[..|before|] == before;
    CallsAreRecorded(before);
    CallsAreRecorded(all);
    assert WaitsOf(all)[t] == WaitsOf(locked)[t];
  }

  /** A get waits: whatever comes before and after it, it never ends in QueueEmpty. */
  lemma {:induction false} GetWaits<V>(before: seq<Step<V>>, newGet: Id, more: seq<Step<V>>)
    requires Run(before + [GetLock(newGet)] + more).Some?
    ensures Run(before).Some?
    ensures var t, s := |Run(before).value.tickets|, Run(before + [GetLock(newGet)] + more).value;
            t < |s.tickets| && !s.tickets[t].nowait && !s.tickets[t].phase.RaisedEmpty?
  {
    TicketOfCall(before, GetLock(newGet), more, |WaitsOf(before)|);
    RunKeepsInv(before + [GetLock(newGet)] + more);
    assert PhaseOk(Run(before + [GetLock(newGet)] + more).value, |Run(before).value.tickets|);
  }

  /** A get_nowait never waits for a node: it ends in QueueEmpty instead. */
  lemma {:induction false} NowaitDoesNotWait<V>(before: seq<Step<V>>, newGet: Id, more: seq<Step<V>>)
    requires Run(before + [NowaitLock(newGet)] + more).Some?
    ensures Run(before).Some?
    ensures var t, s := |Run(before).value.tickets|, Run(before + [NowaitLock(newGet)] + more).value;
            t < |s.tickets| && s.tickets[t].nowait && !s.tickets[t].phase.WaitNode?
  {
    TicketOfCall(before, NowaitLock(newGet), more, |WaitsOf(before)|);
    RunKeepsInv(before + [NowaitLock(newGet)] + more);
    assert PhaseOk(Run(before + [NowaitLock(newGet)] + more).value, |Run(before).value.tickets|);
  }

  /** As long as a value is left for it, the next get in line can move or the put it needs can. */
  lemma {:induction false} SomeoneCanRun<V>(s: State<V>, t: nat)
    requires Inv(s) && t < |s.tickets| && Reached(s.tickets, t) && !s.tickets[t].phase.Resolved()
    requires Wins(s.tickets) < |s.puts|
    ensures s.tickets[t].nowait || Enabled(s, OnGet(t)) || Enabled(s, OnNode(t)) || Enabled(s, OnPut(Wins(s.tickets)))
  {
    ActiveTicket(s, t);
    var wins := Wins(s.tickets);
    assert PhaseOk(s, t) && PointerOk(s, t);
    assert s.puts[wins].pointer in s.pointers;
    assert s.holes[s.chain[wins]] == Content(s, wins, wins);
    assert s.tickets[t].pointer == s.turns[t];
  }

  lemma {:induction false} FirstUnresolved<V>(ts: seq<Ticket<V>>, t: nat) returns (t0: nat)
    requires t < |ts| && !ts[t].phase.Resolved()
    ensures t0 <= t && Reached(ts, t0) && !ts[t0].phase.Resolved()
  {
    if Reached(ts, t) { t0 := t; } else { t0 := FirstUnresolved(ts, t - 1); }
  }

  lemma {:induction false} RunOneMore<V>(steps: seq<Step<V>>, step: Step<V>, s: State<V>)
    requires Run(steps) == Some(s) && Enabled(s, step)
    ensures Run(steps + [step]) == Some(Apply(s, step))
  {
    assert (steps + [step])[..|steps|] == steps;
  }

  // ---------- the queue object ----------

  /**
   * The object itself. Each method is one atomic section of the source: the part of a call
   * under the lock, a callback, or the code of get_nowait after the lock. `holes` and
   * `pointers` are the futures in existence; `puts` and `tickets` hold the variables that the
   * callbacks close over.
   */
  class Queue<V> {
    var holes: map<Id, Hole<V>>
    var pointers: map<Id, Option<Id>>
    var get: Id
    var put: Id
    var puts: seq<Put<V>>
    var tickets: seq<Ticket<V>>
    ghost var chain: seq<Id>
    ghost var turns: seq<Id>

    ghost function View(): State<V>
      reads this
    {
      State(holes, pointers, get, put, puts, tickets, chain, turns, false)
    }

    constructor ()
      ensures View() == Init()
    {
      holes, pointers := map[0 := Empty], map[1 := Some(0), 2 := Some(0)];
      get, put, puts, tickets := 1, 2, [], [];
      chain, turns := [0], [1];
    }

    method PutLock(value: V, newHole: Id, newPut: Id)
      requires Inv(View()) && Enabled(View(), Step.PutLock(value, newHole, newPut))
      modifies this
      ensures Inv(View()) && View() == Apply(old(View()), Step.PutLock(value, newHole, newPut))
    {
      StepKeepsInv(View(), Step.PutLock(value, newHole, newPut));
      holes, pointers := holes[newHole := Empty], pointers[newPut := Some(newHole)];
      puts := puts + [Put(value, put, newHole, false)];
      put := newPut;
      chain := chain + [newHole];
    }

    method OnPut(j: nat)
      requires Inv(View()) && Enabled(View(), Step.OnPut(j))
      modifies this
      ensures Inv(View()) && View() == Apply(old(View()), Step.OnPut(j))
    {
      StepKeepsInv(View(), Step.OnPut(j));
      var oldHole := pointers[puts[j].pointer].value;
      holes := holes[oldHole := Node(puts[j].value, Some(puts[j].newHole))];
      puts := puts[j := puts[j].(done := true)];
    }

    method GetLock(newGet: Id)
      requires Inv(View()) && Enabled(View(), Step.GetLock(newGet))
      modifies this
      ensures Inv(View()) && View() == Apply(old(View()), Step.GetLock(newGet))
    {
      StepKeepsInv(View(), Step.GetLock(newGet));
      Enter(false, newGet);
    }

    /** Raises QueueEmpty at once if an earlier get still holds the pointer back. */
    method NowaitLock(newGet: Id) returns (refused: bool)
      requires Inv(View()) && Fresh(View(), newGet)
      modifies this
      ensures refused == !Done(old(View()), old(get))
      ensures Inv(View())
      ensures View() == if refused then old(View()) else Apply(old(View()), Step.NowaitLock(newGet))
    {
      refused := pointers[get].None?;
      if !refused {
        StepKeepsInv(View(), Step.NowaitLock(newGet));
        Enter(true, newGet);
      }
    }

    method Enter(nowait: bool, newGet: Id)
      modifies this
      ensures View() == TakeTicket(old(View()), nowait, newGet)
    {
      pointers := pointers[newGet := None];
      tickets := tickets + [Ticket(nowait, get, newGet, WaitPointer)];
      get := newGet;
      turns := turns + [newGet];
    }

    method OnGet(t: nat)
      requires Inv(View()) && Enabled(View(), Step.OnGet(t))
      modifies this
      ensures Inv(View()) && View() == Apply(old(View()), Step.OnGet(t))
    {
      StepKeepsInv(View(), Step.OnGet(t));
      var hole := pointers[tickets[t].pointer].value;
      tickets := tickets[t := tickets[t].(phase := WaitNode(hole))];
    }

    /** The end of get, and of a get_nowait that found a node: returns the value at the front. */
    method Take(t: nat, hole: Id) returns (value: V)
      requires Inv(View()) && t < |tickets| && Filled(View(), hole)
      requires tickets[t].phase == WaitNode(hole) || tickets[t].phase == Taking(hole)
      modifies this
      ensures Inv(View()) && View() == Consume(old(View()), t, hole)
      ensures Wins(old(tickets)) < |old(puts)| && value == old(puts)[Wins(old(tickets))].value
    {
      FrontNode(View(), t);
      ConsumeKeepsInv(View(), t);
      value := HandOn(t, hole);
    }

    /** Reads the node, nulls its `next` and hands that on. */
    method HandOn(t: nat, hole: Id) returns (value: V)
      requires t < |tickets| && Filled(View(), hole) && holes[hole].next.Some?
      requires tickets[t].newPointer in pointers && pointers[tickets[t].newPointer].None?
      modifies this`holes, this`pointers, this`tickets
      ensures View() == Consume(old(View()), t, hole) && value == old(holes)[hole].value
    {
      var node := holes[hole];
      value := node.value;
      holes := holes[hole := node.(next := None)];
      pointers := pointers[tickets[t].newPointer := node.next];
      tickets := tickets[t := tickets[t].(phase := Got(value))];
    }

    method NowaitCheck(t: nat)
      requires Inv(View()) && Enabled(View(), Step.NowaitCheck(t))
      modifies this
      ensures Inv(View()) && View() == Apply(old(View()), Step.NowaitCheck(t))
    {
      StepKeepsInv(View(), Step.NowaitCheck(t));
      PointerDone(View(), t);
      var hole := pointers[tickets[t].pointer].value;
      tickets := tickets[t := tickets[t].(phase := if holes[hole].Node? then Taking(hole) else Restoring(hole))];
    }

    /** Hands the unfinished hole on to the next ticket; QueueEmpty is raised. */
    method NowaitRestore(t: nat)
      requires Inv(View()) && Enabled(View(), Step.NowaitRestore(t))
      modifies this
      ensures Inv(View()) && View() == Apply(old(View()), Step.NowaitRestore(t))
    {
      StepKeepsInv(View(), Step.NowaitRestore(t));
      pointers := pointers[tickets[t].newPointer := Some(tickets[t].phase.hole)];
      tickets := tickets[t := tickets[t].(phase := RaisedEmpty)];
    }
  }
}
