/**
 * When get_nowait of the asynchronous queue raises, and schedules after which it does although a
 * value is there.
 */
module GetNowait {
  import opened Wrappers
  import opened AsyncQueue

  /** Some get that has passed the lock has not been resolved. */
  ghost predicate GetPending<V>(s: State<V>) {
    exists t :: 0 <= t < |s.tickets| && !s.tickets[t].phase.Resolved()
  }

  /** The value that is next in line, in lock order of the puts, has arrived. */
  predicate NextArrived<V>(s: State<V>) {
    Wins(s.tickets) < |s.puts| && s.puts[Wins(s.tickets)].done
  }

  /** Under the lock get_nowait refuses exactly when some get that came before it has not been resolved. */
  lemma {:induction false} RefusedIffGetPending<V>(s: State<V>)
    requires Inv(s)
    ensures Enabled(s, NowaitRefused) <==> GetPending(s)
  {
    var n := |s.tickets|;
    assert PointerOk(s, n);
    if n > 0 && s.tickets[n - 1].phase.Resolved() {
      forall t | 0 <= t < n ensures s.tickets[t].phase.Resolved() {}
    }
  }

  /** Past the lock it finds its hole empty, and will raise, exactly when the next value in line has not arrived. */
  lemma {:induction false} EmptyIffNotArrived<V>(s: State<V>, t: nat)
    requires Inv(s) && Enabled(s, NowaitCheck(t))
    ensures Apply(s, NowaitCheck(t)).tickets[t].phase.Restoring? <==> !NextArrived(s)
  {
    PointerDone(s, t);
    ActiveTicket(s, t);
    var j := Wins(s.tickets[..t]);
    assert s.holes[s.chain[j]] == Content(s, j, j);
  }

  /**
   * Over every schedule, a get_nowait that meets the lock in state `s` and looks at its hole in
   * state `s'` raises exactly when a get was pending in `s` or the next value in line had not
   * arrived in `s'`.
   */
  lemma {:induction false} NowaitRaises<V>(
      before: seq<Step<V>>, newGet: Id, between: seq<Step<V>>, s: State<V>, s': State<V>)
    requires Run(before) == Some(s)
    ensures Enabled(s, NowaitRefused) <==> GetPending(s)
    ensures var t := |s.tickets|;
            Run(before + [NowaitLock(newGet)] + between) == Some(s') && Enabled(s', NowaitCheck(t)) ==>
              (Apply(s', NowaitCheck(t)).tickets[t].phase.Restoring? <==> !NextArrived(s'))
  {
    RunKeepsInv(before);
    RefusedIffGetPending(s);
    var t, steps := |s.tickets|, before + [NowaitLock(newGet)] + between;
    if Run(steps) == Some(s') && Enabled(s', NowaitCheck(t)) {
      RunKeepsInv(steps);
      EmptyIffNotArrived(s', t);
    }
  }

  /** Having looked at its hole, a get_nowait can go on. */
  lemma {:induction false} LookedGoesOn<V>(s: State<V>, t: nat)
    requires Inv(s) && Enabled(s, NowaitCheck(t))
    ensures var looked := Apply(s, NowaitCheck(t));
            if looked.tickets[t].phase.Restoring? then Enabled(looked, NowaitRestore(t))
            else Enabled(looked, NowaitTake(t))
  {
    PointerDone(s, t);
  }

  lemma {:induction false} NowaitLocked<V>(s: State<V>, newGet: Id)
    requires Inv(s) && Enabled(s, NowaitLock(newGet))
    ensures var t, locked := |s.tickets|, Apply(s, NowaitLock(newGet));
            && Enabled(locked, NowaitCheck(t)) && Wins(locked.tickets) == Wins(s.tickets)
            && (NextArrived(locked) <==> NextArrived(s))
  {
    var t, locked := |s.tickets|, Apply(s, NowaitLock(newGet));
    assert locked.tickets[..t] == s.tickets && s.tickets[..t] == s.tickets;
    assert PointerOk(s, t);
  }

  /** What a get_nowait that nobody interrupts any more comes to once it can look at its hole. */
  function PastTheLock<V>(s: State<V>, t: nat): (phase: Phase<V>)
    requires Inv(s) && Enabled(s, NowaitCheck(t))
  {
    LookedGoesOn(s, t);
    var looked := Apply(s, NowaitCheck(t));
    if looked.tickets[t].phase.Restoring? then Apply(looked, NowaitRestore(t)).tickets[t].phase
    else Apply(looked, NowaitTake(t)).tickets[t].phase
  }

  /** What a get_nowait that nobody interrupts comes to. */
  function NowaitAlone<V>(s: State<V>, newGet: Id): (phase: Phase<V>)
    requires Inv(s) && Fresh(s, newGet)
  {
    if Enabled(s, NowaitRefused) then RaisedEmpty else
    var t, locked := |s.tickets|, Apply(s, NowaitLock(newGet));
    StepKeepsInv(s, NowaitLock(newGet));
    NowaitLocked(s, newGet);
    PastTheLock(locked, t)
  }

  /** It returns the next value in line if no get is pending and that value has arrived, and otherwise raises. */
  lemma {:induction false} NowaitAloneReturns<V>(s: State<V>, newGet: Id)
    requires Inv(s) && Fresh(s, newGet)
    ensures NowaitAlone(s, newGet)
         == if !GetPending(s) && NextArrived(s) then Got(s.puts[Wins(s.tickets)].value) else RaisedEmpty
  {
    RefusedIffGetPending(s);
    if !Enabled(s, NowaitRefused) {
      var t, locked := |s.tickets|, Apply(s, NowaitLock(newGet));
      StepKeepsInv(s, NowaitLock(newGet));
      NowaitLocked(s, newGet);
      LookedGoesOn(locked, t);
      EmptyIffNotArrived(locked, t);
      if NextArrived(locked) { TakenIsNext(locked, t); }
    }
  }

  lemma {:induction false} TakenIsNext<V>(s: State<V>, t: nat)
    requires Inv(s) && Enabled(s, NowaitCheck(t)) && NextArrived(s)
    ensures var looked := Apply(s, NowaitCheck(t));
            Enabled(looked, NowaitTake(t)) &&
            Apply(looked, NowaitTake(t)).tickets[t].phase == Got(s.puts[Wins(s.tickets)].value)
  {
    PointerDone(s, t);
    ActiveTicket(s, t);
    var j := Wins(s.tickets[..t]);
    assert s.holes[s.chain[j]] == Content(s, j, j);
  }

  // ---------- values that are left ----------

  lemma {:induction false} RunLock<V>(steps: seq<Step<V>>, s: State<V>, v: V, newHole: Id, newPut: Id)
    requires Run(steps) == Some(s) && Fresh(s, newHole) && Fresh(s, newPut) && newHole != newPut
    ensures Run(steps + [PutLock(v, newHole, newPut)]) == Some(s.(
              holes := s.holes[newHole := Empty], pointers := s.pointers[newPut := Some(newHole)], put := newPut,
              puts := s.puts + [Put(v, s.put, newHole, false)], chain := s.chain + [newHole]))
  {
    RunOneMore(steps, PutLock(v, newHole, newPut), s);
  }

  lemma {:induction false} RunPut<V>(steps: seq<Step<V>>, s: State<V>, j: nat, hole: Id)
    requires Run(steps) == Some(s) && j < |s.puts| && !s.puts[j].done
    requires s.puts[j].pointer in s.pointers && s.pointers[s.puts[j].pointer] == Some(hole)
    requires hole in s.holes && s.holes[hole] == Empty
    ensures Run(steps + [OnPut(j)]) == Some(s.(
              holes := s.holes[hole := Node(s.puts[j].value, Some(s.puts[j].newHole))],
              puts := s.puts[j := s.puts[j].(done := true)]))
  {
    RunOneMore(steps, OnPut(j), s);
  }

  lemma {:induction false} OneBegun<V>(v: V) returns (steps: seq<Step<V>>, s: State<V>)
    ensures Run(steps) == Some(s) && s.get == 1 && s.put == 4
    ensures s.holes == map[0 := Empty, 3 := Empty]
    ensures s.pointers == map[1 := Some(0), 2 := Some(0), 4 := Some(3)]
    ensures s.puts == [Put(v, 2, 3, false)] && s.tickets == []
  {
    RunLock([], Init(), v, 3, 4);
    steps := [] + [PutLock(v, 3, 4)];
    s := Run(steps).value;
  }

  /** Two puts have passed the lock, and neither has been called back. */
  lemma {:induction false} TwoBegun<V>(v: V, w: V) returns (steps: seq<Step<V>>, s: State<V>)
    ensures Run(steps) == Some(s) && s.get == 1
    ensures s.holes == map[0 := Empty, 3 := Empty, 5 := Empty]
    ensures s.pointers == map[1 := Some(0), 2 := Some(0), 4 := Some(3), 6 := Some(5)]
    ensures s.puts == [Put(v, 2, 3, false), Put(w, 4, 5, false)] && s.tickets == []
  {
    steps, s := OneBegun(v);
    RunLock(steps, s, w, 5, 6);
    steps := steps + [PutLock(w, 5, 6)];
    s := Run(steps).value;
  }

  lemma {:induction false} TwoArrived<V>(v: V, w: V) returns (steps: seq<Step<V>>, s: State<V>)
    ensures Run(steps) == Some(s) && Fresh(s, 7) && s.get == 1 && 1 in s.pointers && s.pointers[1] == Some(0)
    ensures s.puts == [Put(v, 2, 3, true), Put(w, 4, 5, true)] && s.tickets == []
  {
    steps, s := TwoBegun(v, w);
    RunPut(steps, s, 0, 0);
    steps := steps + [OnPut(0)];
    s := Run(steps).value;
    RunPut(steps, s, 1, 3);
    steps := steps + [OnPut(1)];
    s := Run(steps).value;
  }

  /** It can refuse although more values have arrived than there are gets to take them. */
  lemma {:induction false} RefusedWithValuesLeft<V>(v: V, w: V) returns (steps: seq<Step<V>>, s: State<V>)
    ensures Run(steps) == Some(s) && Enabled(s, NowaitRefused)
    ensures |s.tickets| < |s.puts| && forall j | 0 <= j < |s.puts| :: s.puts[j].done
  {
    steps, s := TwoArrived(v, w);
    RunOneMore(steps, GetLock(7), s);
    steps, s := steps + [GetLock(7)], Apply(s, GetLock(7));
  }

  lemma {:induction false} TwoPutsCrossed<V>(v: V, w: V) returns (steps: seq<Step<V>>, s: State<V>)
    ensures Run(steps) == Some(s) && Fresh(s, 7)
    ensures s.puts == [Put(v, 2, 3, false), Put(w, 4, 5, true)] && s.tickets == []
  {
    steps, s := TwoBegun(v, w);
    RunPut(steps, s, 1, 3);
    steps := steps + [OnPut(1)];
    s := Run(steps).value;
  }

  /** It can find its hole empty although a value has arrived and nobody else is waiting: an earlier put has not. */
  lemma {:induction false} EmptyWithLaterValue<V>(v: V, w: V) returns (steps: seq<Step<V>>, s: State<V>)
    ensures Run(steps) == Some(s) && !GetPending(s) && Fresh(s, 7)
    ensures |s.puts| == 2 && !s.puts[0].done && s.puts[1].done
    ensures Inv(s) && NowaitAlone(s, 7) == RaisedEmpty
  {
    steps, s := TwoPutsCrossed(v, w);
    RunKeepsInv(steps);
    NowaitAloneReturns(s, 7);
  }
}
