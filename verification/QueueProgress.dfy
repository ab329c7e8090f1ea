/**
 * Progress of the asynchronous queue: once no more calls are made, every schedule of callbacks
 * comes to rest, and then everything has been delivered that can be.
 */
module QueueProgress {
  import opened Wrappers
  import opened AsyncQueue

  /** The steps that go on with a call that has passed the lock. */
  predicate GoesOn<V>(step: Step<V>) {
    step.OnPut? || step.OnGet? || step.OnNode? || step.NowaitCheck? || step.NowaitRestore? || step.NowaitTake?
  }

  /** No callback can run and no get_nowait is half way. */
  ghost predicate AtRest<V(!new)>(s: State<V>) {
    forall step {:trigger Enabled(s, step)} | GoesOn(step) :: !Enabled(s, step)
  }

  /** A get_nowait that is next in line can always go on. */
  lemma {:induction false} NowaitCanRun<V>(s: State<V>, t: nat)
    requires Inv(s) && t < |s.tickets| && Reached(s.tickets, t) && !s.tickets[t].phase.Resolved()
    requires s.tickets[t].nowait
    ensures Enabled(s, NowaitCheck(t)) || Enabled(s, NowaitRestore(t)) || Enabled(s, NowaitTake(t))
  {
    ActiveTicket(s, t);
    assert PhaseOk(s, t) && PointerOk(s, t);
    assert s.tickets[t].pointer == s.turns[t];
    if s.tickets[t].phase.Taking? {
      var wins := Wins(s.tickets);
      assert s.holes[s.chain[wins]] == Content(s, wins, wins);
    }
  }

  /** At rest, a call can only be waiting if it is not a get_nowait and every value put has been delivered. */
  lemma {:induction false} WaitingAtRest<V(!new)>(s: State<V>, t: nat)
    requires Inv(s) && AtRest(s) && Wins(s.tickets) <= |s.puts|
    requires t < |s.tickets| && !s.tickets[t].phase.Resolved()
    ensures Wins(s.tickets) == |s.puts|
  {
    var t0 := FirstUnresolved(s.tickets, t);
    if s.tickets[t0].nowait {
      NowaitCanRun(s, t0);
      assert false;
    }
    if Wins(s.tickets) < |s.puts| {
      SomeoneCanRun(s, t0);
      assert false;
    }
  }

  /** When nothing is left to run, a get can only be waiting if every value put has been delivered. */
  lemma {:induction false} NoLostWakeup<V(!new)>(steps: seq<Step<V>>, t: nat)
    requires Run(steps).Some?
    requires AtRest(Run(steps).value)
    requires t < |Run(steps).value.tickets| && !Run(steps).value.tickets[t].phase.Resolved()
    ensures Delivered(Run(steps).value.tickets) == PutsOf(steps)
  {
    RunKeepsInv(steps);
    CallsAreRecorded(steps);
    FirstInFirstOut(steps);
    WaitingAtRest(Run(steps).value, t);
  }

  // ---------- every schedule comes to rest ----------

  function PutsLeft<V>(puts: seq<Put<V>>): nat {
    if puts == [] then 0 else
    var last := |puts| - 1;
    PutsLeft(puts[..last]) + (if puts[last].done then 0 else 1)
  }

  /** The steps that a call in this phase still has to make. */
  function StepsLeft<V>(phase: Phase<V>): nat {
    if phase.WaitPointer? then 2 else if phase.Resolved() then 0 else 1
  }

  function TicketsLeft<V>(ts: seq<Ticket<V>>): nat {
    if ts == [] then 0 else
    var last := |ts| - 1;
    TicketsLeft(ts[..last]) + StepsLeft(ts[last].phase)
  }

  /** The steps that all calls past the lock still have to make. */
  function Remaining<V>(s: State<V>): nat { PutsLeft(s.puts) + TicketsLeft(s.tickets) }

  lemma {:induction false} OnePutLess<V>(puts: seq<Put<V>>, j: nat)
    requires j < |puts| && !puts[j].done
    ensures PutsLeft(puts[j := puts[j].(done := true)]) == PutsLeft(puts) - 1
  {
    var last, puts' := |puts| - 1, puts[j := puts[j].(done := true)];
    if j < last {
      OnePutLess(puts[..last], j);
      assert puts'[..last] == puts[..last][j := puts[j].(done := true)];
    } else {
      assert puts'[..last] == puts[..last];
    }
  }

  lemma {:induction false} PhaseChange<V>(ts: seq<Ticket<V>>, t: nat, phase: Phase<V>)
    requires t < |ts|
    ensures TicketsLeft(SetTicket(ts, t, phase)) == TicketsLeft(ts) - StepsLeft(ts[t].phase) + StepsLeft(phase)
  {
    var last, ts' := |ts| - 1, SetTicket(ts, t, phase);
    if t < last {
      PhaseChange(ts[..last], t, phase);
      assert ts'[..last] == SetTicket(ts[..last], t, phase);
    } else {
      assert ts'[..last] == ts[..last];
    }
  }

  lemma {:induction false} PhaseUsesOne<V>(s: State<V>, t: nat, phase: Phase<V>, s': State<V>)
    requires t < |s.tickets| && s'.tickets == SetTicket(s.tickets, t, phase) && s'.puts == s.puts
    requires StepsLeft(s.tickets[t].phase) == StepsLeft(phase) + 1
    ensures Remaining(s') == Remaining(s) - 1
  {
    PhaseChange(s.tickets, t, phase);
  }

  lemma {:induction false} PutUsesOne<V>(s: State<V>, j: nat)
    requires Enabled(s, OnPut(j))
    ensures Remaining(Apply(s, OnPut(j))) == Remaining(s) - 1
  {
    OnePutLess(s.puts, j);
  }

  /** Each such step uses one of them up. */
  lemma {:induction false} StepUsesOne<V>(s: State<V>, step: Step<V>)
    requires Inv(s) && GoesOn(step) && Enabled(s, step)
    ensures Remaining(Apply(s, step)) == Remaining(s) - 1
  {
    match step
    case OnPut(j) => PutUsesOne(s, j);
    case OnGet(t) =>
      var s' := Apply(s, step);
      PhaseUsesOne(s, t, s'.tickets[t].phase, s');
    case OnNode(t) => ConsumeUsesOne(s, t);
    case NowaitCheck(t) =>
      var s' := Apply(s, step);
      PhaseUsesOne(s, t, s'.tickets[t].phase, s');
    case NowaitRestore(t) => PhaseUsesOne(s, t, RaisedEmpty, Apply(s, step));
    case NowaitTake(t) => ConsumeUsesOne(s, t);
  }

  lemma {:induction false} ConsumeUsesOne<V>(s: State<V>, t: nat)
    requires Inv(s) && t < |s.tickets|
    requires s.tickets[t].phase.WaitNode? || s.tickets[t].phase.Taking?
    requires Filled(s, s.tickets[t].phase.hole)
    ensures Remaining(Consume(s, t, s.tickets[t].phase.hole)) == Remaining(s) - 1
  {
    FrontNode(s, t);
    PhaseChange(s.tickets, t, Got(s.puts[Wins(s.tickets)].value));
  }

  /** What is left after a schedule. */
  function LeftAfter<V>(steps: seq<Step<V>>): nat {
    match Run(steps)
    case None => 0
    case Some(s) => Remaining(s)
  }

  ghost predicate EndsAtRest<V(!new)>(steps: seq<Step<V>>) {
    match Run(steps)
    case None => false
    case Some(s) => AtRest(s)
  }

  lemma {:induction false} LastStepUsesOne<V>(steps: seq<Step<V>>, step: Step<V>)
    requires Run(steps + [step]).Some? && GoesOn(step)
    ensures Run(steps).Some? && LeftAfter(steps + [step]) + 1 == LeftAfter(steps)
  {
    assert (steps + [step])[..|steps|] == steps;
    RunKeepsInv(steps);
    StepUsesOne(Run(steps).value, step);
  }

  /**
   * Once no more calls are made, the number of steps a schedule can still take is bounded: those
   * taken and those left add up to what was left.
   */
  lemma {:induction false} StepsAddUp<V>(steps: seq<Step<V>>, more: seq<Step<V>>)
    requires Run(steps + more).Some? && forall i | 0 <= i < |more| :: GoesOn(more[i])
    ensures Run(steps).Some? && |more| + LeftAfter(steps + more) == LeftAfter(steps)
  {
    if more == [] {
      assert steps + more == steps;
    } else {
      var last := |more| - 1;
      assert steps + more == steps + more[..last] + [more[last]];
      LastStepUsesOne(steps + more[..last], more[last]);
      StepsAddUp(steps, more[..last]);
    }
  }

  lemma {:induction false} OneStepOn<V(!new)>(steps: seq<Step<V>>) returns (step: Step<V>)
    requires Run(steps).Some? && !EndsAtRest(steps)
    ensures GoesOn(step) && Run(steps + [step]).Some? && LeftAfter(steps + [step]) < LeftAfter(steps)
  {
    var s := Run(steps).value;
    step :| GoesOn(step) && Enabled(s, step);
    RunOneMore(steps, step, s);
    LastStepUsesOne(steps, step);
  }

  lemma {:induction false} OneInFront<T>(xs: seq<T>, x: T, ys: seq<T>)
    ensures xs + [x] + ys == xs + ([x] + ys)
  {
  }

  /** Every schedule can be taken to rest. */
  lemma {:induction false} ComesToRest<V(!new)>(steps: seq<Step<V>>, left: nat) returns (more: seq<Step<V>>)
    requires Run(steps).Some? && left == LeftAfter(steps)
    ensures EndsAtRest(steps + more) && forall i | 0 <= i < |more| :: GoesOn(more[i])
    decreases left
  {
    if EndsAtRest(steps) {
      more := [];
      assert steps + more == steps;
    } else {
      var step := OneStepOn(steps);
      var rest := ComesToRest(steps + [step], LeftAfter(steps + [step]));
      OneInFront(steps, step, rest);
      more := [step] + rest;
    }
  }

  /** The calls that raised QueueEmpty past the lock. */
  function Raises<V>(ts: seq<Ticket<V>>): nat {
    if ts == [] then 0 else
    var last := |ts| - 1;
    Raises(ts[..last]) + (if ts[last].phase.RaisedEmpty? then 1 else 0)
  }

  lemma {:induction false} TicketsAddUp<V>(ts: seq<Ticket<V>>)
    ensures Wins(ts) + Raises(ts) <= |ts|
    ensures (forall t | 0 <= t < |ts| :: ts[t].phase.Resolved()) ==> Wins(ts) + Raises(ts) == |ts|
  {
    if ts != [] { TicketsAddUp(ts[..|ts| - 1]); }
  }

  /**
   * At rest, as many values have been delivered as there are puts, or gets that did not raise,
   * whichever are fewer; and those are the first values put.
   */
  lemma {:induction false} DeliveredAtRest<V(!new)>(steps: seq<Step<V>>)
    requires EndsAtRest(steps)
    ensures var s := Run(steps).value;
            var values, takers := PutsOf(steps), |WaitsOf(steps)| - Raises(s.tickets);
            && takers >= 0
            && Delivered(s.tickets) == if |values| < takers then values else values[..takers]
  {
    RunKeepsInv(steps);
    CallsAreRecorded(steps);
    FirstInFirstOut(steps);
    var s := Run(steps).value;
    TicketsAddUp(s.tickets);
    if t :| 0 <= t < |s.tickets| && !s.tickets[t].phase.Resolved() {
      WaitingAtRest(s, t);
    }
  }
}
