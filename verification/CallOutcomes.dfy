/**
 * What becomes of an outgoing call, told from the call's side: which step settles its future and
 * how, over any run, and what each step does to the table and to what is kept for its id
 * (tchannel/tornado/connection.py).
 */
module CallOutcomes {
  import opened Wrappers
  import opened Messages
  import opened PendingCalls

  // ---------- the future ----------

  /** What this step makes of the future of a running call, if it settles it. */
  function Settlement(id: Id, call: nat, step: Step): Option<Status> {
    match step
    case Receive(other, answer, builds) =>
      if other != id then None
      else if answer.Error? then Some(Failed)
      else if answer.Response? && builds then Some(Responded)
      else None
    case StreamDone(other, failed) => if other == call && failed then Some(Failed) else None
    case Timeout(other) => if other == call then Some(TimedOut) else None
    case Close => Some(Status.Cancelled)
    case _ => None
  }

  /** The first settlement of a run. */
  function FirstSettlement(id: Id, call: nat, steps: seq<Step>): Option<Status> {
    if steps == [] then None
    else if Settlement(id, call, steps[0]).Some? then Settlement(id, call, steps[0])
    else FirstSettlement(id, call, steps[1..])
  }

  function StatusBy(settlement: Option<Status>): Status {
    match settlement case None => Running case Some(status) => status
  }

  lemma {:induction false} AnswerSettles(s: SoundState, id: Id, answer: Answer, builds: bool, call: nat)
    requires id in s.table && call < |s.calls| && s.calls[call].status == Running
    ensures Answered(s, id, answer, builds).calls[call]
         == Call(s.calls[call].id, StatusBy(Settlement(s.calls[call].id, call, Receive(id, answer, builds))))
  {
    assert CallOk(s, call);
  }

  lemma {:induction false} OtherStepSettles(s: SoundState, step: Step, call: nat)
    requires Enabled(s, step) && call < |s.calls| && s.calls[call].status == Running && !step.Receive?
    ensures call < |Next(s, step).calls|
    ensures Next(s, step).calls[call]
         == Call(s.calls[call].id, StatusBy(Settlement(s.calls[call].id, call, step)))
  {
    assert CallOk(s, call);
  }

  lemma {:induction false} StepSettles(s: SoundState, step: Step, call: nat)
    requires Enabled(s, step) && call < |s.calls| && s.calls[call].status == Running
    ensures call < |Next(s, step).calls|
    ensures Next(s, step).calls[call]
         == Call(s.calls[call].id, StatusBy(Settlement(s.calls[call].id, call, step)))
  {
    if step.Receive? {
      assert CallOk(s, call);
      if step.id in s.table { AnswerSettles(s, step.id, step.answer, step.builds, call); }
    } else {
      OtherStepSettles(s, step, call);
    }
  }

  /**
   * Over any run, a running call's future is settled by the first error or accepted response under
   * its id, failure of its own write, timeout of its own, or closing; and as that says. Without any
   * of these it goes on running.
   */
  lemma {:induction false} FirstSettlementStands(s: SoundState, steps: seq<Step>, call: nat)
    requires IsRun(s, steps) && call < |s.calls| && s.calls[call].status == Running
    ensures call < |Run(s, steps).calls|
    ensures Run(s, steps).calls[call]
         == Call(s.calls[call].id, StatusBy(FirstSettlement(s.calls[call].id, call, steps)))
    decreases |steps|
  {
    if steps != [] {
      StepSettles(s, steps[0], call);
      var t := Next(s, steps[0]);
      if t.calls[call].status == Running {
        FirstSettlementStands(t, steps[1..], call);
      } else {
        RunSettlesOnce(t, steps[1..], call);
      }
    }
  }

  /** A send makes a running call registered under its id, and leaves the others alone. */
  lemma {:induction false} SendRegisters(s: SoundState, id: Id)
    requires Enabled(s, Send(id))
    ensures var t, n := Next(s, Send(id)), |s.calls|;
            && t.calls == s.calls + [Call(id, Running)] && Registered(t, n)
            && n in t.streaming && t.pendings == s.pendings + 1
            && forall other | other in s.table :: other in t.table && t.table[other] == s.table[other]
  {
  }

  // ---------- the table ----------

  /** Whether this step takes the id, under which a call is registered, out of the table. */
  predicate Unregisters(s: State, step: Step, id: Id)
    requires Enabled(s, step) && id in s.table && s.table[id] < |s.calls|
  {
    match step
    case Receive(other, Error, _) => other == id
    case Receive(other, Response(last), builds) => other == id && builds && last
    case Receive(other, Continuation(last), builds) => other == id && builds && last && id in s.responding
    case Timeout(call) => call == s.table[id] && s.calls[call].status == Running
    case Remove(call) => s.calls[call].id == id
    case Close => true
    case _ => false
  }

  lemma {:induction false} AnswerLeavesTableIff(s: SoundState, step: Step, id: Id)
    requires step.Receive? && id in s.table
    ensures id !in Next(s, step).table <==> Unregisters(s, step, id)
    ensures id in Next(s, step).table ==> Next(s, step).table[id] == s.table[id]
  {
  }

  /** An id leaves the table exactly by one of these steps; otherwise the same call stays registered under it. */
  lemma {:induction false} LeavesTableIff(s: SoundState, step: Step, id: Id)
    requires Enabled(s, step) && id in s.table
    ensures id !in Next(s, step).table <==> Unregisters(s, step, id)
    ensures id in Next(s, step).table ==> Next(s, step).table[id] == s.table[id]
  {
    match step
    case Receive(_, _, _) => AnswerLeavesTableIff(s, step, id);
    case Timeout(call) => assert CallOk(s, call);
    case _ =>
  }

  /** An accepted response completes the running call with its id, which stays registered only if more is to come. */
  lemma {:induction false} ResponseCompletes(s: SoundState, call: nat, last: bool)
    requires call < |s.calls| && s.calls[call].status == Running
    ensures var id := s.calls[call].id;
            var t := Next(s, Receive(id, Response(last), true));
            && t.calls == s.calls[call := Call(id, Responded)]
            && (Registered(t, call) <==> !last) && (id in t.table <==> !last) && (id in t.responding <==> !last)
  {
    assert CallOk(s, call);
  }

  /** The last of the continuations that follow ends the registration. */
  lemma {:induction false} LastContinuationEnds(s: SoundState, call: nat, last: bool)
    requires call < |s.calls| && Registered(s, call) && s.calls[call].id in s.responding
    ensures var id := s.calls[call].id;
            var t := Next(s, Receive(id, Continuation(last), true));
            && t.calls == s.calls && (id in t.table <==> !last) && (id in t.responding <==> !last)
  {
  }

  /** An error fails the running call with its id, and nothing is kept for the id. */
  lemma {:induction false} ErrorFails(s: SoundState, call: nat, builds: bool)
    requires call < |s.calls| && s.calls[call].status == Running
    ensures var id := s.calls[call].id;
            var t := Next(s, Receive(id, Error, builds));
            t.calls == s.calls[call := Call(id, Failed)] && id !in t.table && id !in t.responding
  {
    assert CallOk(s, call);
  }

  /** An answer under an id that is not registered changes nothing, nor does one that the factory refuses. */
  lemma {:induction false} OtherAnswersAreIgnored(s: SoundState, id: Id, answer: Answer, builds: bool)
    requires id !in s.table || (!builds && !answer.Error?)
    ensures Next(s, Receive(id, answer, builds)) == s
  {
  }

  /** A response in several fragments, from the send to the last of them. */
  lemma {:induction false} WholeExchange(s: SoundState, id: Id)
    requires Enabled(s, Send(id))
    ensures var steps := [Send(id), Receive(id, Response(false), true), Receive(id, Continuation(true), true)];
            && IsRun(s, steps)
            && var t := Run(s, steps);
               && t.calls == s.calls + [Call(id, Responded)] && t.table == s.table && t.responding == s.responding
               && id !in t.table
  {
    var sent := Next(s, Send(id));
    var begun := Next(sent, Receive(id, Response(false), true));
    var ended := Next(begun, Receive(id, Continuation(true), true));
    var n := |s.calls|;
    ResponseCompletes(sent, n, false);
    LastContinuationEnds(begun, n, true);
    assert ended.table == s.table && ended.responding == s.responding;
    RunTwo(sent, Receive(id, Response(false), true), Receive(id, Continuation(true), true));
    var steps := [Send(id), Receive(id, Response(false), true), Receive(id, Continuation(true), true)];
    assert steps[1..] == [Receive(id, Response(false), true), Receive(id, Continuation(true), true)];
  }

  // ---------- what is kept besides ----------

  /** Whether a response under this id is under construction after the step. */
  lemma {:induction false} RespondingAfter(s: SoundState, step: Step, id: Id)
    requires Enabled(s, step)
    ensures id in Next(s, step).responding <==>
      if step.Receive? && step.id == id && id in s.table then
        match step.answer
        case Error => false
        case Response(last) => id in s.responding || (step.builds && !last)
        case Continuation(last) => id in s.responding && !(step.builds && last)
      else
        id in s.responding
  {
    if id in s.table { assert CallOk(s, s.table[id]); }
  }

  /** The id of a call that timed out while running is remembered until it is forgotten or the connection closes. */
  lemma {:induction false} TombstoneAfter(s: SoundState, step: Step, id: Id)
    requires Enabled(s, step)
    ensures id in Next(s, step).tombstones <==>
      match step
      case Timeout(call) => id in s.tombstones || s.calls[call] == Call(id, Running)
      case Forget(other) => id in s.tombstones && other != id
      case Close => false
      case _ => id in s.tombstones
  {
  }

  /** The steps after which requests are still being written, and whether the connection was closed. */
  lemma {:induction false} StreamingAfter(s: SoundState, step: Step, call: nat)
    requires Enabled(s, step)
    ensures call in Next(s, step).streaming <==>
      (call in s.streaming && !(step.StreamDone? && step.call == call)) || (step.Send? && call == |s.calls|)
    ensures Next(s, step).pendings == |Next(s, step).streaming|
    ensures Next(s, step).closed <==> s.closed || step.Close?
  {
  }
}
