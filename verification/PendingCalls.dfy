/**
 * The table of outgoing calls of a connection (tchannel/tornado/connection.py): what sends,
 * response fragments, errors, timeouts, late messages and closing do to it and to the futures
 * that callers wait on. Events come in any order.
 */
module PendingCalls {
  import opened MessageIds
  import opened Messages

  // ---------- the table as a transition system ----------

  datatype Status = Running | Responded | Failed | TimedOut | Cancelled

  /** A call that was made: its id, and what has become of its future. */
  datatype Call = Call(id: Id, status: Status)

  /** A message that answers a call; `last` where its flags do not announce another fragment. */
  datatype Answer = Response(last: bool) | Continuation(last: bool) | Error

  /**
   * `table` is _outbound_pending_call, by number of the call; `responding` are the ids with a
   * response under construction in the message factory; `streaming` are the calls whose request
   * is still being written, counted by `pendings`.
   */
  datatype State = State(
    table: map<Id, nat>, calls: seq<Call>, responding: set<Id>,
    streaming: set<nat>, pendings: int, tombstones: set<Id>, closed: bool)

  const START := State(map[], [], {}, {}, 0, {}, false)

  datatype Step =
    | Send(id: Id)
    | StreamDone(call: nat, failed: bool)
    | Receive(id: Id, answer: Answer, builds: bool)
    | Timeout(call: nat)
    | Forget(id: Id)
    | Remove(call: nat)
    | Close

  /** Every registered call is still running. */
  predicate AllRunning(s: State) {
    forall id | id in s.table :: s.table[id] < |s.calls| && s.calls[s.table[id]].status == Running
  }

  /**
   * The table refuses an id that is registered. Three provisos: no response to an earlier call is
   * under construction under a new id; a request is not removed while a running call holds its
   * id; and the connection is not closed while a settled call is registered.
   */
  predicate Enabled(s: State, step: Step) {
    match step
    case Send(id) => id !in s.table && id !in s.responding
    case StreamDone(call, _) => call in s.streaming && call < |s.calls|
    case Receive(_, _, _) => true
    case Timeout(call) => call < |s.calls|
    case Forget(_) => true
    case Remove(call) =>
      call < |s.calls| &&
      (s.calls[call].id in s.table ==>
        s.table[s.calls[call].id] < |s.calls| && s.calls[s.table[s.calls[call].id]].status != Running)
    case Close => AllRunning(s)
  }

  function SetStatus(s: State, call: nat, status: Status): State
    requires call < |s.calls|
  {
    s.(calls := s.calls[call := s.calls[call].(status := status)])
  }

  /** The call's future is given this status if it is still running. */
  function Settle(s: State, call: nat, status: Status): State
    requires call < |s.calls|
  {
    if s.calls[call].status == Running then SetStatus(s, call, status) else s
  }

  /** `_on_message` for an answer to a registered call; `builds` is whether the message factory accepts it. */
  function Answered(s: State, id: Id, answer: Answer, builds: bool): State
    requires id in s.table && s.table[id] < |s.calls|
  {
    var call := s.table[id];
    match answer
    case Error =>
      var t := Settle(s.(table := s.table - {id}), call, Failed);
      if s.calls[call].status == Running then t else t.(responding := s.responding - {id})
    case Response(last) =>
      if !builds then s
      else if last then Settle(s.(table := s.table - {id}), call, Responded)
      else Settle(s.(responding := s.responding + {id}), call, Responded)
    case Continuation(last) =>
      if !builds || id !in s.responding || !last then s
      else s.(table := s.table - {id}, responding := s.responding - {id})
  }

  function Apply(s: State, step: Step): State
    requires Enabled(s, step) && forall id | id in s.table :: s.table[id] < |s.calls|
  {
    match step
    case Send(id) =>
      s.(table := s.table[id := |s.calls|], calls := s.calls + [Call(id, Running)],
         streaming := s.streaming + {|s.calls|}, pendings := s.pendings + 1)
    case StreamDone(call, failed) =>
      var t := s.(streaming := s.streaming - {call}, pendings := s.pendings - 1);
      if failed then Settle(t, call, Failed) else t
    case Receive(id, answer, builds) => if id in s.table then Answered(s, id, answer, builds) else s
    case Timeout(call) =>
      if s.calls[call].status != Running then s
      else
        var id := s.calls[call].id;
        SetStatus(s, call, TimedOut).(tombstones := s.tombstones + {id}, table := s.table - {id})
    case Forget(id) => s.(tombstones := s.tombstones - {id})
    case Remove(call) => s.(table := s.table - {s.calls[call].id})
    case Close =>
      s.(calls := Cancelled(s), table := map[], tombstones := {}, closed := true)
  }

  /** Every registered call is failed. */
  function Cancelled(s: State): (calls: seq<Call>)
    ensures |calls| == |s.calls|
  {
    seq(|s.calls|, i requires 0 <= i < |s.calls| =>
      if s.calls[i].id in s.table && s.table[s.calls[i].id] == i
      then s.calls[i].(status := Status.Cancelled) else s.calls[i])
  }

  // ---------- what every run keeps ----------

  ghost predicate Registered(s: State, call: nat)
    requires call < |s.calls|
  {
    s.calls[call].id in s.table && s.table[s.calls[call].id] == call
  }

  ghost predicate CallOk(s: State, call: nat)
    requires call < |s.calls|
  {
    match s.calls[call].status
    case Running => Registered(s, call) && s.calls[call].id !in s.responding
    case Responded => Registered(s, call) ==> s.calls[call].id in s.responding
    case Failed => true
    case TimedOut => !Registered(s, call)
    case Cancelled => !Registered(s, call)
  }

  /**
   * A call that is still running is registered under its own id; one that timed out or was
   * cancelled is not; one that was responded to is registered only while its response arrives.
   */
  ghost predicate Inv(s: State) {
    && (forall id | id in s.table :: s.table[id] < |s.calls| && s.calls[s.table[id]].id == id)
    && (forall i {:trigger CallOk(s, i)} | 0 <= i < |s.calls| :: CallOk(s, i))
    && (forall call | call in s.streaming :: call < |s.calls|)
    && s.pendings == |s.streaming|
  }

  lemma {:induction false} AnswerKeepsCall(s: State, id: Id, answer: Answer, builds: bool, i: nat)
    requires Inv(s) && id in s.table && i < |s.calls|
    ensures CallOk(Answered(s, id, answer, builds), i)
  {
    assert CallOk(s, s.table[id]);
    assert CallOk(s, i);
  }

  lemma {:induction false} AnswerKeepsInv(s: State, id: Id, answer: Answer, builds: bool)
    requires Inv(s) && id in s.table
    ensures Inv(Answered(s, id, answer, builds))
  {
    var t := Answered(s, id, answer, builds);
    forall i | 0 <= i < |t.calls| ensures CallOk(t, i) { AnswerKeepsCall(s, id, answer, builds, i); }
  }

  lemma {:induction false} SendKeepsInv(s: State, id: Id)
    requires Inv(s) && Enabled(s, Send(id))
    ensures Inv(Apply(s, Send(id)))
  {
    var t, n := Apply(s, Send(id)), |s.calls|;
    forall i | 0 <= i < n ensures CallOk(t, i) { assert CallOk(s, i); }
    assert CallOk(t, n);
  }

  lemma {:induction false} CloseKeepsInv(s: State)
    requires Inv(s) && Enabled(s, Close)
    ensures Inv(Apply(s, Close))
  {
    var t := Apply(s, Close);
    forall i | 0 <= i < |t.calls| ensures CallOk(t, i) { assert CallOk(s, i); }
  }

  lemma {:induction false} StreamDoneKeepsInv(s: State, call: nat, failed: bool)
    requires Inv(s) && Enabled(s, StreamDone(call, failed))
    ensures Inv(Apply(s, StreamDone(call, failed)))
  {
    var t := Apply(s, StreamDone(call, failed));
    forall i | 0 <= i < |t.calls| ensures CallOk(t, i) { assert CallOk(s, i); }
  }

  lemma {:induction false} TimeoutKeepsInv(s: State, call: nat)
    requires Inv(s) && call < |s.calls|
    ensures Inv(Apply(s, Timeout(call)))
  {
    var t := Apply(s, Timeout(call));
    assert CallOk(s, call);
    forall i | 0 <= i < |t.calls| ensures CallOk(t, i) { assert CallOk(s, i); }
  }

  lemma {:induction false} RemoveKeepsInv(s: State, call: nat)
    requires Inv(s) && Enabled(s, Remove(call))
    ensures Inv(Apply(s, Remove(call)))
  {
    var t := Apply(s, Remove(call));
    assert CallOk(s, call);
    forall i | 0 <= i < |t.calls| ensures CallOk(t, i) { assert CallOk(s, i); }
  }

  lemma {:induction false} ForgetKeepsInv(s: State, id: Id)
    requires Inv(s)
    ensures Inv(Apply(s, Forget(id)))
  {
    var t := Apply(s, Forget(id));
    forall i | 0 <= i < |t.calls| ensures CallOk(t, i) { assert CallOk(s, i); }
  }

  lemma {:induction false} StepKeepsInv(s: State, step: Step)
    requires Inv(s) && Enabled(s, step)
    ensures Inv(Apply(s, step))
  {
    match step
    case Send(id) => SendKeepsInv(s, id);
    case StreamDone(call, failed) => StreamDoneKeepsInv(s, call, failed);
    case Receive(id, answer, builds) => if id in s.table { AnswerKeepsInv(s, id, answer, builds); }
    case Timeout(call) => TimeoutKeepsInv(s, call);
    case Forget(id) => ForgetKeepsInv(s, id);
    case Remove(call) => RemoveKeepsInv(s, call);
    case Close => CloseKeepsInv(s);
  }

  type SoundState = s: State | Inv(s) ghost witness START

  /** The state after a step. */
  function Next(s: SoundState, step: Step): SoundState
    requires Enabled(s, step)
  {
    StepKeepsInv(s, step);
    Apply(s, step)
  }

  /** The call is still the same in `t`, and if it was settled, as it was settled. */
  ghost predicate StaysSettled(s: State, t: State, call: nat)
    requires call < |s.calls|
  {
    && call < |t.calls| && t.calls[call].id == s.calls[call].id
    && (s.calls[call].status != Running ==> t.calls[call] == s.calls[call])
  }

  lemma {:induction false} AnswerSettlesOnce(s: SoundState, id: Id, answer: Answer, builds: bool, call: nat)
    requires id in s.table && call < |s.calls|
    ensures StaysSettled(s, Answered(s, id, answer, builds), call)
  {
  }

  lemma {:induction false} StepSettlesOnce(s: SoundState, step: Step, call: nat)
    requires Enabled(s, step) && call < |s.calls|
    ensures StaysSettled(s, Next(s, step), call)
  {
    if step.Receive? {
      if step.id in s.table { AnswerSettlesOnce(s, step.id, step.answer, step.builds, call); }
    } else if step.Close? {
      assert CallOk(s, call);
    }
  }

  /** A run of steps each of which is possible when it happens. */
  predicate IsRun(s: SoundState, steps: seq<Step>)
    decreases |steps|
  {
    steps == [] || (Enabled(s, steps[0]) && IsRun(Next(s, steps[0]), steps[1..]))
  }

  /** Every state that a run reaches keeps the invariant. */
  function Run(s: SoundState, steps: seq<Step>): SoundState
    requires IsRun(s, steps)
    decreases |steps|
  {
    if steps == [] then s else Run(Next(s, steps[0]), steps[1..])
  }

  /** Over any run, no call is settled twice. */
  lemma {:induction false} RunSettlesOnce(s: SoundState, steps: seq<Step>, call: nat)
    requires IsRun(s, steps) && call < |s.calls|
    ensures StaysSettled(s, Run(s, steps), call)
    decreases |steps|
  {
    if steps != [] {
      StepSettlesOnce(s, steps[0], call);
      RunSettlesOnce(Next(s, steps[0]), steps[1..], call);
    }
  }

  lemma {:induction false} OtherAnswers(s: SoundState, id: Id, answer: Answer, builds: bool, call: nat)
    requires id in s.table && call < |s.calls| && s.calls[call].id != id
    ensures |Answered(s, id, answer, builds).calls| == |s.calls|
    ensures Answered(s, id, answer, builds).calls[call] == s.calls[call]
  {
  }

  lemma {:induction false} OtherStepsDoNotRespond(s: SoundState, step: Step, call: nat)
    requires Enabled(s, step) && call < |s.calls| && s.calls[call].status != Responded
    requires step.Receive? ==> step.id != s.calls[call].id
    ensures call < |Next(s, step).calls| && Next(s, step).calls[call].id == s.calls[call].id
    ensures Next(s, step).calls[call].status != Responded
  {
    if step.Receive? {
      if step.id in s.table { OtherAnswers(s, step.id, step.answer, step.builds, call); }
    }
  }

  /** Over any run, a call is responded to only by a message with its own id. */
  lemma {:induction false} AnsweredUnderOwnId(s: SoundState, steps: seq<Step>, call: nat)
    requires IsRun(s, steps) && call < |s.calls| && s.calls[call].status != Responded
    requires forall k | 0 <= k < |steps| && steps[k].Receive? :: steps[k].id != s.calls[call].id
    ensures call < |Run(s, steps).calls| && Run(s, steps).calls[call].status != Responded
    decreases |steps|
  {
    if steps != [] {
      OtherStepsDoNotRespond(s, steps[0], call);
      AnsweredUnderOwnId(Next(s, steps[0]), steps[1..], call);
    }
  }

  /**
   * A request with the id 0 is registered under 0 but goes out under an id drawn for it. Since no
   * message comes in under 0, as none goes out under it, it is never responded to.
   */
  lemma {:induction false} ZeroIdUnanswered(steps: seq<Step>, draws: seq<nat>)
    requires IsRun(Next(START, Send(0)), steps) && |draws| == |steps|
    requires forall k | 0 <= k < |steps| && steps[k].Receive? :: exists id :: steps[k].id == FirstId(id, draws[k])
    ensures var s := Run(Next(START, Send(0)), steps); s.calls != [] && s.calls[0].status != Responded
  {
    forall k | 0 <= k < |steps| && steps[k].Receive? ensures steps[k].id != 0 {
      var id :| steps[k].id == FirstId(id, draws[k]);
      FirstIdIsNotZero(id, draws[k]);
    }
    AnsweredUnderOwnId(Next(START, Send(0)), steps, 0);
  }

  lemma {:induction false} AnswersDoNotRegister(s: SoundState, id: Id, answer: Answer, builds: bool, other: Id)
    requires id in s.table && other !in s.table
    ensures other !in Answered(s, id, answer, builds).table
  {
  }

  lemma {:induction false} OtherStepsDoNotRegister(s: SoundState, step: Step, id: Id)
    requires Enabled(s, step) && id !in s.table && step != Send(id)
    ensures id !in Next(s, step).table
  {
    if step.Receive? {
      if step.id in s.table { AnswersDoNotRegister(s, step.id, step.answer, step.builds, id); }
    }
  }

  /** Only a send registers an id. */
  lemma {:induction false} NotSentStaysOut(s: SoundState, steps: seq<Step>, id: Id)
    requires IsRun(s, steps) && id !in s.table && forall k | 0 <= k < |steps| :: steps[k] != Send(id)
    ensures id !in Run(s, steps).table
    decreases |steps|
  {
    if steps != [] {
      OtherStepsDoNotRegister(s, steps[0], id);
      NotSentStaysOut(Next(s, steps[0]), steps[1..], id);
    }
  }

  /**
   * The timeout of a running call finds it under its id, and whatever comes after, the call is
   * never completed or registered again, and its id only by another send.
   */
  lemma {:induction false} TimeoutIsFinal(s: State, call: nat, after: seq<Step>)
    requires Inv(s) && call < |s.calls| && s.calls[call].status == Running
    requires IsRun(Next(s, Timeout(call)), after)
    ensures Registered(s, call)
    ensures var t := Run(Next(s, Timeout(call)), after);
            && call < |t.calls| && t.calls[call] == Call(s.calls[call].id, TimedOut) && !Registered(t, call)
            && (Send(s.calls[call].id) !in after ==> s.calls[call].id !in t.table)
  {
    assert CallOk(s, call);
    var t := Next(s, Timeout(call));
    RunSettlesOnce(t, after, call);
    assert CallOk(Run(t, after), call);
    if Send(s.calls[call].id) !in after { NotSentStaysOut(t, after, s.calls[call].id); }
  }

  // ---------- where the provisos matter ----------

  /** Under an unregistered id a send keeps the invariant exactly if no response is under construction there. */
  lemma {:induction false} SendNeedsFreeId(s: State, id: Id)
    requires Inv(s) && id !in s.table
    ensures var t := s.(table := s.table[id := |s.calls|], calls := s.calls + [Call(id, Running)],
                        streaming := s.streaming + {|s.calls|}, pendings := s.pendings + 1);
            Inv(t) <==> Enabled(s, Send(id))
  {
    if Enabled(s, Send(id)) {
      SendKeepsInv(s, id);
    } else {
      var t := s.(table := s.table[id := |s.calls|], calls := s.calls + [Call(id, Running)],
                  streaming := s.streaming + {|s.calls|}, pendings := s.pendings + 1);
      assert !CallOk(t, |s.calls|);
    }
  }

  /** Removing a request keeps the invariant exactly if no running call holds its id. */
  lemma {:induction false} RemoveNeedsSettledEntry(s: State, call: nat)
    requires Inv(s) && call < |s.calls|
    ensures Inv(s.(table := s.table - {s.calls[call].id})) <==> Enabled(s, Remove(call))
  {
    if Enabled(s, Remove(call)) {
      RemoveKeepsInv(s, call);
    } else {
      var t := s.(table := s.table - {s.calls[call].id});
      assert !CallOk(t, s.table[s.calls[call].id]);
    }
  }

  /** No registered call has a response under construction or has failed. */
  ghost predicate NothingLeftOver(s: State) {
    forall i | 0 <= i < |s.calls| && Registered(s, i) ::
      s.calls[i].id !in s.responding && s.calls[i].status != Failed
  }

  /** In every state that a run can reach, closing finds only running calls exactly when nothing is left over. */
  lemma {:induction false} CloseNeedsNothingLeft(steps: seq<Step>)
    requires IsRun(START, steps)
    ensures Enabled(Run(START, steps), Close) <==> NothingLeftOver(Run(START, steps))
  {
    var s := Run(START, steps);
    forall i | 0 <= i < |s.calls| && Registered(s, i)
      ensures s.calls[i].status == Running <==> s.calls[i].id !in s.responding && s.calls[i].status != Failed
    {
      assert CallOk(s, i);
    }
    forall id | id in s.table ensures Registered(s, s.table[id]) {}
  }

  /** Closing leaves no call running. */
  lemma {:induction false} CloseResolvesAll(s: State)
    requires Inv(s) && Enabled(s, Close)
    ensures var t := Apply(s, Close);
            && t.table == map[]
            && forall i | 0 <= i < |t.calls| ::
                 t.calls[i].status == if s.calls[i].status == Running then Status.Cancelled else s.calls[i].status
  {
    forall i | 0 <= i < |s.calls| ensures s.calls[i].status == Running <==> Registered(s, i) { assert CallOk(s, i); }
  }

  lemma {:induction false} RunTwo(s: SoundState, a: Step, b: Step)
    requires Enabled(s, a) && Enabled(Next(s, a), b)
    ensures IsRun(s, [a, b]) && Run(s, [a, b]) == Next(Next(s, a), b)
  {
    var t := Next(Next(s, a), b);
    assert [a, b][1..] == [b] && [b][1..] == [];
    assert IsRun(t, []) && Run(t, []) == t;
    assert IsRun(Next(s, a), [b]) && Run(Next(s, a), [b]) == t;
  }

  /** A response that is still streaming leaves a settled call registered. */
  lemma {:induction false} StreamingResponseStaysRegistered(id: Id)
    ensures IsRun(START, [Send(id), Receive(id, Response(false), true)])
    ensures !Enabled(Run(START, [Send(id), Receive(id, Response(false), true)]), Close)
  {
    RunTwo(START, Send(id), Receive(id, Response(false), true));
    var t := Next(Next(START, Send(id)), Receive(id, Response(false), true));
    assert t.table[id] == 0 && t.calls[0].status == Responded;
  }

  /** So does a request that could not be written. */
  lemma {:induction false} FailedRequestStaysRegistered(id: Id)
    ensures IsRun(START, [Send(id), StreamDone(0, true)])
    ensures var s := Run(START, [Send(id), StreamDone(0, true)]); s.responding == {} && !Enabled(s, Close)
  {
    RunTwo(START, Send(id), StreamDone(0, true));
    var t := Next(Next(START, Send(id)), StreamDone(0, true));
    assert t.table[id] == 0 && t.calls[0].status == Failed;
  }

  /** A call's status while `_on_close` still has the registered ids `left` to go through. */
  ghost function ClosedSoFar(s: State, i: nat, left: set<Id>): Status
    requires i < |s.calls|
  {
    if Registered(s, i) && s.calls[i].id !in left then Status.Cancelled else s.calls[i].status
  }

  lemma {:induction false} OneMoreClosed(s: State, left: set<Id>, id: Id, i: nat)
    requires Inv(s) && id in left && id in s.table && i < |s.calls|
    ensures ClosedSoFar(s, i, left - {id}) == if i == s.table[id] then Status.Cancelled else ClosedSoFar(s, i, left)
  {
  }

  // ---------- the connection itself ----------

  /** The future of one call. */
  class CallFuture {
    const id: Id
    ghost const number: nat
    var status: Status

    constructor (id: Id, ghost number: nat)
      ensures this.id == id && this.number == number && status == Running
    {
      this.id, this.number, status := id, number, Running;
    }
  }

  /** The table of futures and the table of their numbers say the same. */
  ghost predicate Mirrors<F>(pending: map<Id, F>, futures: seq<F>, table: map<Id, nat>) {
    && pending.Keys == table.Keys
    && forall id | id in pending :: table[id] < |futures| && pending[id] == futures[table[id]]
  }

  lemma {:induction false} MirrorsOneMore<F>(pending: map<Id, F>, futures: seq<F>, table: map<Id, nat>, id: Id, f: F)
    requires Mirrors(pending, futures, table)
    ensures Mirrors(pending[id := f], futures + [f], table[id := |futures|])
  {
  }

  class Connection {
    var outboundPendingCall: map<Id, CallFuture>
    var responding: set<Id>
    var requestTombstones: set<Id>
    var totalOutboundPendings: int
    var closed: bool
    ghost var futures: seq<CallFuture>
    ghost var state: SoundState

    /** The fields are what `state` says they are. */
    ghost predicate Valid()
      reads this, futures
    {
      && |futures| == |state.calls|
      && (forall i | 0 <= i < |futures| ::
            futures[i].number == i && futures[i].id == state.calls[i].id && futures[i].status == state.calls[i].status)
      && Mirrors(outboundPendingCall, futures, state.table)
      && responding == state.responding && requestTombstones == state.tombstones
      && totalOutboundPendings == state.pendings && closed == state.closed
    }

    constructor ()
      ensures Valid() && state == START
    {
      outboundPendingCall, responding, requestTombstones := map[], {}, {};
      totalOutboundPendings, closed, futures, state := 0, false, [], START;
    }

    method SendRequest(id: Id) returns (future: CallFuture)
      requires Valid() && id !in outboundPendingCall && id !in responding
      modifies this`outboundPendingCall, this`totalOutboundPendings, this`futures, this`state
      ensures Valid() && state == Next(old(state), Send(id))
      ensures fresh(future) && futures == old(futures) + [future]
    {
      future := new CallFuture(id, |futures|);
      Register(future);
    }

    method Register(future: CallFuture)
      requires Valid() && future.id !in outboundPendingCall && future.id !in responding
      requires future.number == |futures| && future.status == Running
      modifies this`outboundPendingCall, this`totalOutboundPendings, this`futures, this`state
      ensures Valid() && state == Next(old(state), Send(future.id)) && futures == old(futures) + [future]
    {
      MirrorsOneMore(outboundPendingCall, futures, state.table, future.id, future);
      outboundPendingCall := outboundPendingCall[future.id := future];
      totalOutboundPendings := totalOutboundPendings + 1;
      futures := futures + [future];
      state := Next(state, Send(future.id));
    }

    /** The request has been written, or writing it failed. */
    method StreamFinished(future: CallFuture, failed: bool)
      requires Valid() && future in futures && future.number in state.streaming
      modifies this`totalOutboundPendings, this`state, future`status
      ensures Valid() && state == Next(old(state), StreamDone(future.number, failed))
    {
      if failed && future.status == Running { future.status := Failed; }
      totalOutboundPendings := totalOutboundPendings - 1;
      state := Next(state, StreamDone(future.number, failed));
    }

    /** `_handle_error_message`. */
    method OnError(id: Id, ghost builds: bool)
      requires Valid() && id in outboundPendingCall
      modifies this`outboundPendingCall, this`responding, this`state, {outboundPendingCall[id]}`status
      ensures Valid() && state == Next(old(state), Receive(id, Error, builds))
    {
      state := Next(state, Receive(id, Error, builds));
      var future := outboundPendingCall[id];
      outboundPendingCall := outboundPendingCall - {id};
      if future.status == Running {
        future.status := Failed;
      } else {
        responding := responding - {id};
      }
    }

    /** `_handle_response` for a whole response that the factory accepts. */
    method OnWholeResponse(id: Id)
      requires Valid() && id in outboundPendingCall
      modifies this`outboundPendingCall, this`state, {outboundPendingCall[id]}`status
      ensures Valid() && state == Next(old(state), Receive(id, Response(true), true))
    {
      state := Next(state, Receive(id, Response(true), true));
      var future := outboundPendingCall[id];
      outboundPendingCall := outboundPendingCall - {id};
      if future.status == Running { future.status := Responded; }
    }

    /** `_handle_response` for a first fragment that the factory accepts. */
    method OnFirstFragment(id: Id)
      requires Valid() && id in outboundPendingCall
      modifies this`responding, this`state, {outboundPendingCall[id]}`status
      ensures Valid() && state == Next(old(state), Receive(id, Response(false), true))
    {
      state := Next(state, Receive(id, Response(false), true));
      var future := outboundPendingCall[id];
      responding := responding + {id};
      if future.status == Running { future.status := Responded; }
    }

    /** `_handle_response` for a continuation that the factory accepts if it knows the call. */
    method OnContinuation(id: Id, last: bool)
      requires Valid() && id in outboundPendingCall
      modifies this`outboundPendingCall, this`responding, this`state
      ensures Valid() && state == Next(old(state), Receive(id, Continuation(last), true))
    {
      state := Next(state, Receive(id, Continuation(last), true));
      if id in responding && last {
        responding := responding - {id};
        outboundPendingCall := outboundPendingCall - {id};
      }
    }

    /** `_on_message`; an answer to a call that is not registered is ignored, and so is one the factory refuses. */
    method OnMessage(id: Id, answer: Answer, builds: bool)
      requires Valid()
      modifies this`outboundPendingCall, this`responding, this`state
      modifies (if id in outboundPendingCall then {outboundPendingCall[id]} else {})`status
      ensures Valid() && state == Next(old(state), Receive(id, answer, builds))
    {
      if id !in outboundPendingCall || (!builds && !answer.Error?) { return; }
      match answer
      case Error => OnError(id, builds);
      case Response(last) => if last { OnWholeResponse(id); } else { OnFirstFragment(id); }
      case Continuation(last) => OnContinuation(id, last);
    }

    /** `_request_timed_out`: whether the table held the call it was about to take out. */
    method RequestTimedOut(future: CallFuture) returns (found: bool)
      requires Valid() && future in futures
      modifies this`outboundPendingCall, this`requestTombstones, this`state, future`status
      ensures Valid() && state == Next(old(state), Timeout(future.number)) && found
    {
      assert CallOk(state, future.number);
      state := Next(state, Timeout(future.number));
      if future.status != Running { return true; }
      future.status := TimedOut;
      requestTombstones := requestTombstones + {future.id};
      found := future.id in outboundPendingCall;
      outboundPendingCall := outboundPendingCall - {future.id};
    }

    /** `remove_outstanding_request`. */
    method RemoveOutstandingRequest(future: CallFuture)
      requires Valid() && future in futures
      requires future.id in outboundPendingCall ==> outboundPendingCall[future.id].status != Running
      modifies this`outboundPendingCall, this`state
      ensures Valid() && state == Next(old(state), Remove(future.number))
    {
      outboundPendingCall := outboundPendingCall - {future.id};
      state := Next(state, Remove(future.number));
    }

    /** Fails every registered call. */
    method CancelAll()
      requires Valid()
      modifies outboundPendingCall.Values`status
      ensures forall i | 0 <= i < |futures| :: futures[i].status == ClosedSoFar(state, i, {})
    {
      var left := outboundPendingCall.Keys;
      while left != {}
        invariant left <= outboundPendingCall.Keys
        invariant forall i | 0 <= i < |futures| :: futures[i].status == ClosedSoFar(state, i, left)
        modifies outboundPendingCall.Values`status
      {
        var id :| id in left;
        forall i | 0 <= i < |futures| ensures futures[i] == outboundPendingCall[id] <==> i == state.table[id] {}
        forall i | 0 <= i < |futures|
          ensures ClosedSoFar(state, i, left - {id})
               == if i == state.table[id] then Status.Cancelled else ClosedSoFar(state, i, left)
        {
          OneMoreClosed(state, left, id, i);
        }
        outboundPendingCall[id].status := Status.Cancelled;
        left := left - {id};
      }
    }

    /** `_on_close`. */
    method OnClose()
      requires Valid() && Enabled(state, Close)
      modifies this`outboundPendingCall, this`requestTombstones, this`closed, this`state
      modifies outboundPendingCall.Values`status
      ensures Valid() && state == Next(old(state), Close)
    {
      CancelAll();
      closed := true;
      requestTombstones := {};
      outboundPendingCall := map[];
      state := Next(state, Close);
    }
  }
}
