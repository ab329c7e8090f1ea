/**
 * The receiving side: MessageFactory.build of tchannel/tornado/message_factory.py rebuilds the
 * three argument streams of each call from its frames. What it keeps for one message id is a
 * `Local`; frames of other ids never touch it.
 */
module Reassembly {
  import opened Wrappers
  import opened Bytes
  import opened Messages
  import opened Checksums
  import opened Fragmentation
  import A = Args

  /** One argument stream, by everything ever written to it. */
  datatype Slot = Slot(content: Bytes, closed: bool, failed: bool)

  /** A request or response under construction. */
  datatype Context = Context(streams: seq<Slot>, flags: nat)

  datatype Failure = MissingCall | BadChecksum | UnknownChecksum | ChecksumNotImplemented | StreamClosed | NoSuchStream

  /** The entries of message_buffer and in_checksum for one id. */
  datatype Local = Local(context: Option<Context>, sum: Option<Option<U32>>)

  datatype Reply = Started(context: Context) | Continued(context: Context) | Raised(failure: Failure)

  datatype Outcome = Outcome(local: Local, reply: Reply)

  const NOTHING := Local(None, None)

  // ---------- build ----------

  const FRESH := Slot([], false, false)

  /** The first stream that is not completed, or 0. */
  function FirstOpen(streams: seq<Slot>): nat {
    var i := OpenFrom(streams, 0);
    if i < |streams| then i else 0
  }

  function OpenFrom(streams: seq<Slot>, i: nat): (r: nat)
    requires i <= |streams|
    ensures i <= r <= |streams|
    ensures forall k | i <= k < r :: streams[k].closed
    ensures r < |streams| ==> !streams[r].closed
    decreases |streams| - i
  {
    if i == |streams| || !streams[i].closed then i else OpenFrom(streams, i + 1)
  }

  function CloseFirst(streams: seq<Slot>, n: nat): (closed: seq<Slot>)
    requires n <= |streams|
    ensures |closed| == |streams|
    ensures forall i | 0 <= i < |streams| :: closed[i] == if i < n then streams[i].(closed := true) else streams[i]
  {
    seq(|streams|, i requires 0 <= i < |streams| => if i < n then streams[i].(closed := true) else streams[i])
  }

  datatype Written = Written(streams: seq<Slot>, failure: Option<Failure>)

  /** Writes arguments to consecutive streams, stopping at the first that cannot be written. */
  function PutArgs(streams: seq<Slot>, dst: nat, args: A.Args): (w: Written)
    ensures |w.streams| == |streams|
    ensures w.failure.None? ==> args == [] || dst + |args| <= |streams|
    decreases |args|
  {
    if args == [] then Written(streams, None)
    else if dst >= |streams| then Written(streams, Some(NoSuchStream))
    else if streams[dst].closed then Written(streams, Some(StreamClosed))
    else PutArgs(streams[dst := streams[dst].(content := streams[dst].content + args[0])], dst + 1, args[1..])
  }

  /** `prepare_args`: each argument goes to its own stream, and all but the last are closed. */
  function PrepareArgs(args: A.Args): Written {
    var w := PutArgs([FRESH, FRESH, FRESH], 0, args);
    Written(CloseFirst(w.streams, if 0 < |args| <= MAX_ARGS then |args| - 1 else 0), w.failure)
  }

  datatype Verdict = Accepted | Rejected(failure: Failure)

  function Verify(crc: Crc, previous: Option<Option<U32>>, m: Message): Verdict {
    match Compute(crc, m.checksum.kind, m.args, previous)
    case NoSum => if m.checksum.value.None? then Accepted else Rejected(BadChecksum)
    case Sum(sum) => if m.checksum.value == Some(sum) then Accepted else Rejected(BadChecksum)
    case NotImplemented => Rejected(ChecksumNotImplemented)
    case InvalidType => Rejected(UnknownChecksum)
  }

  /** Marks the open stream as failed. */
  function FailOpen(context: Context): Context
    requires |context.streams| == MAX_ARGS
  {
    var dst := FirstOpen(context.streams);
    context.(streams := context.streams[dst := context.streams[dst].(closed := true, failed := true)])
  }

  datatype Filled = Filled(context: Context, failure: Option<Failure>)

  /** The context of a call message, with the streams it has filled closed. */
  function Begin(m: Message): Filled {
    var prepared := PrepareArgs(m.args);
    if prepared.failure.Some? then Filled(Context(prepared.streams, m.flags), prepared.failure) else
    var num := FirstOpen(prepared.streams) + (if m.flags == NONE then 1 else 0);
    Filled(Context(CloseFirst(prepared.streams, num), m.flags), None)
  }

  /** The context once the arguments of a continue message have been written to it. */
  function Fill(context: Context, m: Message): Filled
    requires |context.streams| == MAX_ARGS
  {
    var dst := FirstOpen(context.streams);
    var written := PutArgs(context.streams, dst, m.args);
    if written.failure.Some? then Filled(context.(streams := written.streams), written.failure) else
    var flags := if m.flags != FRAGMENT then NONE else context.flags;
    var num := dst + |m.args| - (if flags == NONE then 0 else 1);
    Filled(Context(CloseFirst(written.streams, if num < 0 then 0 else num), flags), None)
  }

  /** The first message of a call. */
  function BuildCall(crc: Crc, local: Local, m: Message): Outcome {
    match Verify(crc, local.sum, m)
    case Rejected(BadChecksum) => Outcome(local.(sum := None), Raised(BadChecksum))
    case Rejected(failure) => Outcome(local, Raised(failure))
    case Accepted =>
      var begun := Begin(m);
      if begun.failure.Some? then
        Outcome(local.(sum := Remembered(m)), Raised(begun.failure.value))
      else
        Outcome(Local(if m.flags == FRAGMENT then Some(begun.context) else local.context, Remembered(m)),
                Started(begun.context))
  }

  /** A continue message. */
  function BuildContinue(crc: Crc, local: Local, m: Message): Outcome
    requires local.context.Some? ==> |local.context.value.streams| == MAX_ARGS
  {
    if local.context.None? then Outcome(local, Raised(MissingCall)) else
    var context := local.context.value;
    match Verify(crc, local.sum, m)
    case Rejected(BadChecksum) => Outcome(Local(Some(FailOpen(context)), None), Raised(BadChecksum))
    case Rejected(UnknownChecksum) => Outcome(local.(context := Some(FailOpen(context))), Raised(UnknownChecksum))
    case Rejected(failure) => Outcome(local, Raised(failure))
    case Accepted =>
      var filled := Fill(context, m);
      if filled.failure.Some? then
        Outcome(Local(Some(filled.context), Remembered(m)), Raised(filled.failure.value))
      else
        Outcome(Local(if m.flags != FRAGMENT then None else Some(filled.context), Remembered(m)),
                Continued(filled.context))
  }

  function Build(crc: Crc, local: Local, m: Message): Outcome
    requires local.context.Some? ==> |local.context.value.streams| == MAX_ARGS
  {
    if m.kind.IsCall() then BuildCall(crc, local, m) else BuildContinue(crc, local, m)
  }

  lemma {:induction false} BuildKeepsThreeStreams(crc: Crc, local: Local, m: Message)
    requires local.context.Some? ==> |local.context.value.streams| == MAX_ARGS
    ensures var local' := Build(crc, local, m).local;
            local'.context.Some? ==> |local'.context.value.streams| == MAX_ARGS
  {
  }

  lemma {:induction false} PutSkipsClosed(streams: seq<Slot>, dst: nat, args: A.Args, i: nat)
    requires i < |streams| && streams[i].closed
    ensures PutArgs(streams, dst, args).streams[i] == streams[i]
    decreases |args|
  {
    if args != [] && dst < |streams| && !streams[dst].closed {
      PutSkipsClosed(streams[dst := streams[dst].(content := streams[dst].content + args[0])], dst + 1, args[1..], i);
    }
  }

  /** Whatever continues a call, good or bad, a stream that has been closed keeps its content and stays closed. */
  lemma {:induction false} ClosedForGood(crc: Crc, context: Context, sum: Option<Option<U32>>, m: Message, i: nat)
    requires |context.streams| == MAX_ARGS && i < MAX_ARGS && context.streams[i].closed && !m.kind.IsCall()
    ensures var after := Build(crc, Local(Some(context), sum), m);
            && (after.reply.Continued? ==>
                  |after.reply.context.streams| == MAX_ARGS
                  && SameAndClosed(context.streams[i], after.reply.context.streams[i]))
            && (after.local.context.Some? ==>
                  |after.local.context.value.streams| == MAX_ARGS
                  && SameAndClosed(context.streams[i], after.local.context.value.streams[i]))
  {
    PutSkipsClosed(context.streams, FirstOpen(context.streams), m.args, i);
  }

  predicate SameAndClosed(before: Slot, after: Slot) { after.closed && after.content == before.content }

  /** What is kept for an id once its frames have arrived. */
  function After(crc: Crc, frames: seq<Message>): (local: Local)
    ensures local.context.Some? ==> |local.context.value.streams| == MAX_ARGS
  {
    if frames == [] then NOTHING else
    var last := |frames| - 1;
    BuildKeepsThreeStreams(crc, After(crc, frames[..last]), frames[last]);
    Build(crc, After(crc, frames[..last]), frames[last]).local
  }

  /** What `build` does with the last of these frames. */
  function LastReply(crc: Crc, frames: seq<Message>): Reply
    requires frames != []
  {
    var last := |frames| - 1;
    Build(crc, After(crc, frames[..last]), frames[last]).reply
  }

  // ---------- what a call's frames amount to ----------

  /** The frames of one call, in order: a call first, continues after it, flag none exactly on the last. */
  predicate Streamed(frames: seq<Message>) {
    && frames != []
    && frames[0].kind.IsCall()
    && (forall i | 1 <= i < |frames| :: !frames[i].kind.IsCall())
    && (forall i | 0 <= i < |frames| :: frames[i].flags == if i == |frames| - 1 then NONE else FRAGMENT)
    && (forall i | 0 <= i < |frames| :: frames[i].id == frames[0].id)
    && (forall i | 0 <= i < |frames| :: frames[i].checksum.kind == frames[0].checksum.kind)
    && (forall i | 0 <= i < |frames| :: frames[i].args != [])
  }

  /** The context holding `args`: every stream but the last one begun is closed, and all are when `done`. */
  function Holding(args: A.Args, done: bool): Context
    requires 0 < |args| <= MAX_ARGS
  {
    Context(seq(MAX_ARGS, i requires 0 <= i < MAX_ARGS =>
              Slot(if i < |args| then args[i] else [], i < |args| - 1 || (done && i < |args|), false)),
            if done then NONE else FRAGMENT)
  }

  lemma {:induction false} PutAppends(streams: seq<Slot>, dst: nat, args: A.Args)
    requires dst < |streams| && args != []
    requires forall i | dst <= i < |streams| :: !streams[i].closed
    requires forall i | dst < i < |streams| :: streams[i] == FRESH
    ensures dst + |args| <= |streams| ==>
      PutArgs(streams, dst, args) == Written(
        seq(|streams|, i requires 0 <= i < |streams| =>
          if dst <= i < dst + |args|
          then streams[i].(content := streams[i].content + args[i - dst]) else streams[i]), None)
    ensures dst + |args| > |streams| ==> PutArgs(streams, dst, args).failure == Some(NoSuchStream)
    decreases |args|
  {
    var streams' := streams[dst := streams[dst].(content := streams[dst].content + args[0])];
    if |args| == 1 {
      assert args[1..] == [];
      assert streams' == seq(|streams|, i requires 0 <= i < |streams| =>
        if dst <= i < dst + 1 then streams[i].(content := streams[i].content + args[i - dst]) else streams[i]);
    } else if dst + 1 < |streams| {
      PutAppends(streams', dst + 1, args[1..]);
      if dst + |args| <= |streams| {
        assert PutArgs(streams', dst + 1, args[1..]).streams
            == seq(|streams|, i requires 0 <= i < |streams| =>
                 if dst <= i < dst + |args|
                 then streams[i].(content := streams[i].content + args[i - dst]) else streams[i]);
      }
    }
  }

  lemma {:induction false} SignedIsAccepted(crc: Crc, previous: Option<Option<U32>>, m: Message)
    requires Supported(m.checksum.kind)
    ensures Verify(crc, previous, Sign(crc, previous, m)) == Accepted
  {
  }

  lemma {:induction false} OpenOfHolding(args: A.Args)
    requires 0 < |args| <= MAX_ARGS
    ensures FirstOpen(Holding(args, false).streams) == |args| - 1
  {
    var streams := Holding(args, false).streams;
    var r := OpenFrom(streams, 0);
    assert !streams[|args| - 1].closed;
    assert r <= |args| - 1;
    assert !streams[r].closed;
  }

  lemma {:induction false} PreparedHolds(args: A.Args)
    requires 0 < |args| <= MAX_ARGS
    ensures PrepareArgs(args) == Written(Holding(args, false).streams, None)
  {
    var streams := [FRESH, FRESH, FRESH];
    PutAppends(streams, 0, args);
    var prepared := PrepareArgs(args);
    forall i | 0 <= i < MAX_ARGS
      ensures prepared.streams[i] == Holding(args, false).streams[i]
    {
      if i < |args| { assert FRESH.content + args[i] == args[i]; }
    }
  }

  lemma {:induction false} BeginHolds(m: Message)
    requires 0 < |m.args| <= MAX_ARGS && m.flags <= FRAGMENT
    ensures Begin(m) == Filled(Holding(m.args, m.flags == NONE), None)
  {
    PreparedHolds(m.args);
    OpenOfHolding(m.args);
    var num := |m.args| - 1 + (if m.flags == NONE then 1 else 0);
    assert CloseFirst(Holding(m.args, false).streams, num) == Holding(m.args, m.flags == NONE).streams;
  }

  lemma {:induction false} FirstFrame(crc: Crc, m: Message)
    requires m.kind.IsCall() && 0 < |m.args| <= MAX_ARGS && m.flags <= FRAGMENT && Verify(crc, None, m) == Accepted
    ensures Build(crc, NOTHING, m) ==
      Outcome(Local(if m.flags == FRAGMENT then Some(Holding(m.args, false)) else None, Remembered(m)),
              Started(Holding(m.args, m.flags == NONE)))
  {
    BeginHolds(m);
  }

  /** Writing to the open stream and those after it, then closing all but the last one written. */
  lemma {:induction false} WriteOn(args: A.Args, more: A.Args, last: bool)
    requires 0 < |args| <= MAX_ARGS && more != []
    ensures var joined, before, dst := A.Join(args, more), Holding(args, false).streams, |args| - 1;
            if |joined| <= MAX_ARGS then
              && PutArgs(before, dst, more).failure == None
              && CloseFirst(PutArgs(before, dst, more).streams, dst + |more| - (if last then 0 else 1))
              == Holding(joined, last).streams
            else
              PutArgs(before, dst, more).failure == Some(NoSuchStream)
  {
    var joined, before, dst := A.Join(args, more), Holding(args, false).streams, |args| - 1;
    PutAppends(before, dst, more);
    if |joined| <= MAX_ARGS {
      var num := dst + |more| - (if last then 0 else 1);
      var closed := CloseFirst(PutArgs(before, dst, more).streams, num);
      forall i | 0 <= i < MAX_ARGS ensures closed[i] == Holding(joined, last).streams[i] {
        if i > dst && i < |joined| { assert [] + more[i - dst] == more[i - dst]; }
      }
      assert closed == Holding(joined, last).streams;
    }
  }

  lemma {:induction false} NextFrame(crc: Crc, args: A.Args, sum: Option<Option<U32>>, m: Message)
    requires !m.kind.IsCall() && 0 < |args| <= MAX_ARGS && m.args != [] && m.flags <= FRAGMENT
    requires Verify(crc, sum, m) == Accepted
    ensures var joined, local := A.Join(args, m.args), Local(Some(Holding(args, false)), sum);
            if |joined| <= MAX_ARGS then
              Build(crc, local, m) ==
                Outcome(Local(if m.flags == FRAGMENT then Some(Holding(joined, false)) else None, Remembered(m)),
                        Continued(Holding(joined, m.flags == NONE)))
            else
              Build(crc, local, m).reply == Raised(NoSuchStream)
  {
    OpenOfHolding(args);
    WriteOn(args, m.args, m.flags == NONE);
  }

  /** What the receiver has and does once `k` frames have arrived. */
  ghost predicate Received(crc: Crc, frames: seq<Message>, k: nat)
    requires 0 < k <= |frames|
  {
    var args, done, wire := Joined(frames[..k]), k == |frames|, Signed(crc, frames)[..k];
    && 0 < |args| <= MAX_ARGS
    && After(crc, wire) == Local(if done then None else Some(Holding(args, false)), SumAfter(crc, frames[..k]))
    && LastReply(crc, wire) == (if k == 1 then Started(Holding(args, done)) else Continued(Holding(args, done)))
  }

  /** As long as the frames join to at most three arguments, the receiver holds exactly what was sent. */
  lemma {:induction false} StateAfter(crc: Crc, frames: seq<Message>, k: nat)
    requires Streamed(frames) && AllSupported(frames) && 0 < k <= |frames|
    requires |Joined(frames[..k])| <= MAX_ARGS
    ensures Received(crc, frames, k)
  {
    OneMoreArrives(crc, frames, k);
    JoinGrows(frames, k);
    if k == 1 {
      FirstFrame(crc, Signed(crc, frames)[0]);
    } else {
      StateAfter(crc, frames, k - 1);
      NextArrives(crc, frames, k);
    }
  }

  /** The `k`-th frame when all before it have been received. */
  lemma {:induction false} NextArrives(crc: Crc, frames: seq<Message>, k: nat)
    requires Streamed(frames) && AllSupported(frames) && 1 < k <= |frames|
    requires Received(crc, frames, k - 1) && |Joined(frames[..k])| <= MAX_ARGS
    ensures Received(crc, frames, k)
  {
    OneMoreArrives(crc, frames, k);
    JoinGrows(frames, k);
    NextFrame(crc, Joined(frames[..k - 1]), SumAfter(crc, frames[..k - 1]), Signed(crc, frames)[k - 1]);
  }

  /** A fourth argument has no stream to go to. */
  lemma {:induction false} NextOverflows(crc: Crc, frames: seq<Message>, k: nat)
    requires Streamed(frames) && AllSupported(frames) && 1 < k <= |frames|
    requires Received(crc, frames, k - 1) && |Joined(frames[..k])| > MAX_ARGS
    ensures LastReply(crc, Signed(crc, frames)[..k]) == Raised(NoSuchStream)
  {
    OneMoreArrives(crc, frames, k);
    JoinGrows(frames, k);
    NextFrame(crc, Joined(frames[..k - 1]), SumAfter(crc, frames[..k - 1]), Signed(crc, frames)[k - 1]);
  }

  lemma {:induction false} JoinGrows(frames: seq<Message>, k: nat)
    requires 0 < k <= |frames|
    ensures Joined(frames[..k]) == A.Join(Joined(frames[..k - 1]), frames[k - 1].args)
    ensures k == 1 ==> Joined(frames[..k]) == frames[0].args
  {
    assert frames[..k][..k - 1] == frames[..k - 1];
  }

  lemma {:induction false} OneMoreBuilt(crc: Crc, wire: seq<Message>, k: nat)
    requires 0 < k <= |wire|
    ensures After(crc, wire[..k]) == Build(crc, After(crc, wire[..k - 1]), wire[k - 1]).local
    ensures LastReply(crc, wire[..k]) == Build(crc, After(crc, wire[..k - 1]), wire[k - 1]).reply
    ensures k == 1 ==> After(crc, wire[..k - 1]) == NOTHING
  {
    assert wire[..k][..k - 1] == wire[..k - 1] && wire[..k][k - 1] == wire[k - 1];
  }

  lemma {:induction false} OneMoreArrives(crc: Crc, frames: seq<Message>, k: nat)
    requires AllSupported(frames) && 0 < k <= |frames|
    ensures var wire := Signed(crc, frames);
            && After(crc, wire[..k]) == Build(crc, After(crc, wire[..k - 1]), wire[k - 1]).local
            && LastReply(crc, wire[..k]) == Build(crc, After(crc, wire[..k - 1]), wire[k - 1]).reply
            && wire[k - 1] == Sign(crc, SumAfter(crc, frames[..k - 1]), frames[k - 1])
            && Verify(crc, SumAfter(crc, frames[..k - 1]), wire[k - 1]) == Accepted
            && SumAfter(crc, frames[..k]) == Remembered(wire[k - 1])
            && (k == 1 ==> After(crc, wire[..k - 1]) == NOTHING && SumAfter(crc, frames[..k - 1]) == None)
  {
    OneMoreBuilt(crc, Signed(crc, frames), k);
    SignedAt(crc, frames, k - 1);
    assert frames[..k][..k - 1] == frames[..k - 1] && frames[..k][k - 1] == frames[k - 1];
    SignedIsAccepted(crc, SumAfter(crc, frames[..k - 1]), frames[k - 1]);
  }

  /** No frame of the run makes `build` raise. */
  ghost predicate NothingRaised(crc: Crc, wire: seq<Message>) {
    forall k {:trigger wire[..k]} | 0 < k <= |wire| :: !LastReply(crc, wire[..k]).Raised?
  }

  lemma {:induction false} JoinIsMonotone(frames: seq<Message>, k: nat)
    requires k <= |frames|
    ensures |Joined(frames[..k])| <= |Joined(frames)|
    decreases |frames| - k
  {
    if k == |frames| {
      assert frames[..k] == frames;
    } else {
      JoinGrows(frames, k + 1);
      JoinIsMonotone(frames, k + 1);
    }
  }

  /** The call gets through exactly when its frames join to at most three arguments. */
  lemma {:induction false} GetsThrough(crc: Crc, frames: seq<Message>)
    requires Streamed(frames) && AllSupported(frames) && |frames[0].args| <= MAX_ARGS
    ensures NothingRaised(crc, Signed(crc, frames)) <==> |Joined(frames)| <= MAX_ARGS
  {
    var wire := Signed(crc, frames);
    if |Joined(frames)| <= MAX_ARGS {
      forall k | 0 < k <= |wire| ensures !LastReply(crc, wire[..k]).Raised? {
        JoinIsMonotone(frames, k);
        StateAfter(crc, frames, k);
      }
    } else {
      assert frames[..|frames|] == frames;
      JoinGrows(frames, 1);
      var k := FirstOverflow(crc, frames, |frames|);
      assert LastReply(crc, wire[..k]).Raised?;
    }
  }

  /** The frame that brings a fourth argument. */
  lemma {:induction false} Overflows(crc: Crc, frames: seq<Message>, n: nat)
    requires Streamed(frames) && AllSupported(frames) && 1 < n <= |frames|
    requires |Joined(frames[..n - 1])| <= MAX_ARGS < |Joined(frames[..n])|
    ensures LastReply(crc, Signed(crc, frames)[..n]) == Raised(NoSuchStream)
  {
    StateAfter(crc, frames, n - 1);
    NextOverflows(crc, frames, n);
  }

  lemma {:induction false} FirstOverflow(crc: Crc, frames: seq<Message>, n: nat) returns (k: nat)
    requires Streamed(frames) && AllSupported(frames) && 0 < n <= |frames|
    requires |Joined(frames[..1])| <= MAX_ARGS < |Joined(frames[..n])|
    ensures 0 < k <= n && LastReply(crc, Signed(crc, frames)[..k]) == Raised(NoSuchStream)
  {
    if |Joined(frames[..n - 1])| <= MAX_ARGS {
      Overflows(crc, frames, n);
      k := n;
    } else {
      k := FirstOverflow(crc, frames, n - 1);
    }
  }
}
