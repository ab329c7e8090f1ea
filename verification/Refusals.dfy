/**
 * What one frame does to the state of its call, branch by branch: when `build` refuses it, what a
 * refused frame leaves behind, and what an accepted one writes and closes
 * (tchannel/tornado/message_factory.py).
 */
module Refusals {
  import opened Wrappers
  import opened Bytes
  import opened Messages
  import opened Checksums
  import opened Fragmentation
  import opened Reassembly
  import A = Args

  // ---------- when a checksum is accepted ----------

  /** The sum a frame is verified from: what was kept for its id, and otherwise 0. */
  function StartOf(kept: Option<Option<U32>>): U32 {
    match kept case Some(Some(sum)) => sum case _ => 0
  }

  /** Without a checksum there is no value; of the two CRCs the value is that of all bytes on top of what was kept. */
  predicate SumMatches(crc: Crc, kept: Option<Option<U32>>, m: Message) {
    match m.checksum.kind
    case 0 => m.checksum.value == None
    case 1 => m.checksum.value == Some(FoldBytes(crc.crc32, StartOf(kept), Concat(m.args)))
    case 3 => m.checksum.value == Some(FoldBytes(crc.crc32c, StartOf(kept), Concat(m.args)))
    case _ => false
  }

  /** Every message, call or continue, is accepted exactly if its sum matches; each refusal has its own reason. */
  lemma {:induction false} AcceptedIffSumMatches(crc: Crc, kept: Option<Option<U32>>, m: Message)
    ensures Verify(crc, kept, m) == Accepted <==> SumMatches(crc, kept, m)
    ensures Verify(crc, kept, m) == Rejected(BadChecksum)
       <==> m.checksum.kind in {0, 1, 3} && !SumMatches(crc, kept, m)
    ensures Verify(crc, kept, m) == Rejected(ChecksumNotImplemented) <==> m.checksum.kind == 2
    ensures Verify(crc, kept, m) == Rejected(UnknownChecksum) <==> m.checksum.kind > 3
  {
    if m.checksum.kind == 1 { FoldArgsSeesBytes(crc.crc32, StartOf(kept), m.args); }
    if m.checksum.kind == 3 { FoldArgsSeesBytes(crc.crc32c, StartOf(kept), m.args); }
  }

  /** Signing gives a message the checksum under which it is accepted, and no other message field changes. */
  lemma {:induction false} SignedIffSumMatches(crc: Crc, kept: Option<Option<U32>>, m: Message)
    requires Supported(m.checksum.kind)
    ensures var signed := Sign(crc, kept, m);
            && SumMatches(crc, kept, signed) && signed == m.(checksum := signed.checksum)
            && signed.checksum.kind == m.checksum.kind
            && (SumMatches(crc, kept, m) <==> signed == m)
  {
    if m.checksum.kind == 1 { FoldArgsSeesBytes(crc.crc32, StartOf(kept), m.args); }
    if m.checksum.kind == 3 { FoldArgsSeesBytes(crc.crc32c, StartOf(kept), m.args); }
  }

  // ---------- what a refused frame leaves behind ----------

  /** The first stream that is open, or stream 0 if none is. */
  predicate IsFirstOpen(streams: seq<Slot>, i: nat)
    requires i < |streams|
  {
    && (forall k | 0 <= k < i :: streams[k].closed)
    && (!streams[i].closed || (i == 0 && forall k | 0 <= k < |streams| :: streams[k].closed))
  }

  /** The first open stream has been closed and has failed; the content and the other streams are as they were. */
  predicate OpenFailed(before: Context, after: Context) {
    && after.flags == before.flags && |after.streams| == |before.streams|
    && forall i | 0 <= i < |before.streams| ::
         after.streams[i] == if IsFirstOpen(before.streams, i) then Slot(before.streams[i].content, true, true)
                             else before.streams[i]
  }

  lemma {:induction false} FailOpenFailsOpen(context: Context)
    requires |context.streams| == MAX_ARGS
    ensures OpenFailed(context, FailOpen(context))
  {
    var r := OpenFrom(context.streams, 0);
    forall i | 0 <= i < MAX_ARGS ensures IsFirstOpen(context.streams, i) <==> i == FirstOpen(context.streams) {}
  }

  /** A continue frame with a wrong checksum is refused: the sum is forgotten and the open stream fails. */
  lemma {:induction false} WrongSumFailsCall(crc: Crc, context: Context, kept: Option<Option<U32>>, m: Message)
    requires |context.streams| == MAX_ARGS && !m.kind.IsCall()
    requires m.checksum.kind in {0, 1, 3} && !SumMatches(crc, kept, m)
    ensures var after := Build(crc, Local(Some(context), kept), m);
            && after.reply == Raised(BadChecksum) && after.local.sum == None
            && after.local.context.Some? && OpenFailed(context, after.local.context.value)
  {
    AcceptedIffSumMatches(crc, kept, m);
    FailOpenFailsOpen(context);
  }

  /** A call message with a wrong checksum is refused: the sum is forgotten, a call under way under its id stays. */
  lemma {:induction false} WrongSumRefusesCall(crc: Crc, local: Local, m: Message)
    requires local.context.Some? ==> |local.context.value.streams| == MAX_ARGS
    requires m.kind.IsCall() && m.checksum.kind in {0, 1, 3} && !SumMatches(crc, local.sum, m)
    ensures Build(crc, local, m) == Outcome(Local(local.context, None), Raised(BadChecksum))
  {
    AcceptedIffSumMatches(crc, local.sum, m);
  }

  /** An unknown checksum type is refused; the open stream of the call it continues fails. */
  lemma {:induction false} UnknownSumRefused(crc: Crc, local: Local, m: Message)
    requires local.context.Some? ==> |local.context.value.streams| == MAX_ARGS
    requires m.checksum.kind > 3 && (m.kind.IsCall() || local.context.Some?)
    ensures var after := Build(crc, local, m);
            && after.reply == Raised(UnknownChecksum) && after.local.sum == local.sum
            && (if m.kind.IsCall() then after.local.context == local.context
                else after.local.context.Some? && OpenFailed(local.context.value, after.local.context.value))
  {
    AcceptedIffSumMatches(crc, local.sum, m);
    if local.context.Some? { FailOpenFailsOpen(local.context.value); }
  }

  /** A farm32 checksum, and a continue frame of no known call, are refused and change nothing. */
  lemma {:induction false} RefusedUnchanged(crc: Crc, local: Local, m: Message)
    requires local.context.Some? ==> |local.context.value.streams| == MAX_ARGS
    requires m.checksum.kind == 2 || (!m.kind.IsCall() && local.context.None?)
    ensures Build(crc, local, m) == Outcome(local, Raised(
              if !m.kind.IsCall() && local.context.None? then MissingCall else ChecksumNotImplemented))
  {
    AcceptedIffSumMatches(crc, local.sum, m);
  }

  // ---------- what an accepted frame writes and closes ----------

  /** What is kept of the sum: nothing after a last frame, and otherwise the sum of the frame. */
  predicate SumKept(m: Message, sum: Option<Option<U32>>) {
    if m.flags == 0 then sum == None
    else sum.Some? && (sum.value.Some? <==> m.checksum.kind in {1, 3})
         && (sum.value.Some? ==> m.checksum.value == Some(sum.value.value))
  }

  /** How many streams a call message closes: all it fills but the last, and that one too if it is the only frame. */
  function ClosedByCall(m: Message): nat {
    (if m.args == [] then 0 else |m.args| - 1) + (if m.flags == 0 then 1 else 0)
  }

  /** Writing goes on in order, and stops where there is no stream left. */
  lemma {:induction false} PutArgsAppends(streams: seq<Slot>, dst: nat, args: A.Args)
    requires dst <= |streams| && forall i | dst <= i < |streams| :: !streams[i].closed
    ensures var w := PutArgs(streams, dst, args);
            && w.failure == (if dst + |args| <= |streams| then None else Some(NoSuchStream))
            && |w.streams| == |streams|
            && forall i | 0 <= i < |streams| ::
                 w.streams[i] == if dst <= i < dst + |args|
                                 then streams[i].(content := streams[i].content + args[i - dst]) else streams[i]
    decreases |args|
  {
    if args != [] && dst < |streams| {
      PutArgsAppends(streams[dst := streams[dst].(content := streams[dst].content + args[0])], dst + 1, args[1..]);
    }
  }

  /** The streams of a new call. */
  predicate HoldsArgs(m: Message, context: Context) {
    && context.flags == m.flags && |context.streams| == 3
    && forall i | 0 <= i < 3 ::
         context.streams[i] == Slot(if i < |m.args| then m.args[i] else [], i < ClosedByCall(m), false)
  }

  lemma {:induction false} BeginFills(m: Message)
    ensures if |m.args| > 3 then Begin(m).failure == Some(NoSuchStream)
            else Begin(m).failure == None && HoldsArgs(m, Begin(m).context)
  {
    PutArgsAppends([FRESH, FRESH, FRESH], 0, m.args);
    if |m.args| <= 3 {
      PreparedFills(m.args);
      FilledUpTo(PrepareArgs(m.args).streams, if m.args == [] then 0 else |m.args| - 1);
    }
  }

  lemma {:induction false} FirstPut(args: A.Args)
    requires |args| <= 3
    ensures var w := PutArgs([FRESH, FRESH, FRESH], 0, args);
            && w.failure == None && |w.streams| == 3
            && forall i | 0 <= i < 3 :: w.streams[i] == Slot(if i < |args| then args[i] else [], false, false)
  {
    PutArgsAppends([FRESH, FRESH, FRESH], 0, args);
    forall i | 0 <= i < |args| ensures FRESH.content + args[i] == args[i] {}
  }

  lemma {:induction false} PreparedFills(args: A.Args)
    requires |args| <= 3
    ensures var prepared := PrepareArgs(args);
            && prepared.failure == None && |prepared.streams| == 3
            && forall i | 0 <= i < 3 ::
                 prepared.streams[i] == Slot(if i < |args| then args[i] else [], i + 1 < |args|, false)
  {
    FirstPut(args);
  }

  lemma {:induction false} FilledUpTo(streams: seq<Slot>, n: nat)
    requires |streams| == 3 && n < 3 && forall i | 0 <= i < 3 :: streams[i].closed <==> i < n
    ensures FirstOpen(streams) == n
  {
    assert !streams[n].closed;
  }

  /**
   * A call message that is accepted fills one stream for each argument, which is kept for its id
   * exactly if more is announced; a fourth argument is refused after the sum has been kept.
   */
  lemma {:induction false} CallFills(crc: Crc, local: Local, m: Message)
    requires local.context.Some? ==> |local.context.value.streams| == MAX_ARGS
    requires m.kind.IsCall() && SumMatches(crc, local.sum, m)
    ensures var after := Build(crc, local, m);
            && SumKept(m, after.local.sum)
            && if |m.args| > 3 then
                 after.reply == Raised(NoSuchStream) && after.local.context == local.context
               else
                 && after.reply.Started? && HoldsArgs(m, after.reply.context)
                 && after.local.context == if m.flags == 1 then Some(after.reply.context) else local.context
  {
    AcceptedIffSumMatches(crc, local.sum, m);
    BeginFills(m);
  }

  /** The streams in front of `dst` are closed and the others are open. */
  predicate OpenFromHere(streams: seq<Slot>, dst: nat) {
    |streams| == 3 && dst < 3 && forall i | 0 <= i < 3 :: streams[i].closed <==> i < dst
  }

  /** The content a stream has once a continue frame has been written from stream `dst` on. */
  function Extended(content: Bytes, args: A.Args, dst: nat, i: nat): Bytes {
    if dst <= i < dst + |args| then content + args[i - dst] else content
  }

  /**
   * A continue frame that is accepted goes on where the open stream left off. It closes all the
   * streams it writes to but the last one, and that one too once the call is complete. Unless more is
   * announced the call is complete, and nothing is kept for it. A fourth argument is refused once the others have been
   * written and the sum has been kept.
   */
  lemma {:induction false} ContinueFills(crc: Crc, context: Context, kept: Option<Option<U32>>, m: Message, dst: nat)
    requires !m.kind.IsCall() && OpenFromHere(context.streams, dst) && SumMatches(crc, kept, m)
    ensures var after := Build(crc, Local(Some(context), kept), m);
            && SumKept(m, after.local.sum)
            && if dst + |m.args| > 3 then
                 && after.reply == Raised(NoSuchStream)
                 && after.local.context.Some? && after.local.context.value.flags == context.flags
                 && |after.local.context.value.streams| == 3
                 && forall i | 0 <= i < 3 ::
                      after.local.context.value.streams[i]
                      == context.streams[i].(content := Extended(context.streams[i].content, m.args, dst, i))
               else
                 && after.reply.Continued?
                 && after.local.context == (if m.flags == 1 then Some(after.reply.context) else None)
                 && after.reply.context.flags == (if m.flags == 1 then context.flags else 0)
                 && |after.reply.context.streams| == 3
                 && forall i | 0 <= i < 3 ::
                      after.reply.context.streams[i]
                      == Slot(Extended(context.streams[i].content, m.args, dst, i),
                              i < dst || i < dst + |m.args| - (if after.reply.context.flags == 0 then 0 else 1),
                              context.streams[i].failed)
  {
    AcceptedIffSumMatches(crc, kept, m);
    assert !context.streams[dst].closed;
    assert FirstOpen(context.streams) == dst;
    PutArgsAppends(context.streams, dst, m.args);
  }

  /** With every stream closed, as after failures, a continue frame with arguments is refused; its sum is kept. */
  lemma {:induction false} NothingOpenRefused(crc: Crc, context: Context, kept: Option<Option<U32>>, m: Message)
    requires !m.kind.IsCall() && |context.streams| == 3 && SumMatches(crc, kept, m) && m.args != []
    requires forall i | 0 <= i < 3 :: context.streams[i].closed
    ensures var after := Build(crc, Local(Some(context), kept), m);
            && after.reply == Raised(StreamClosed) && after.local.context == Some(context)
            && SumKept(m, after.local.sum)
  {
    AcceptedIffSumMatches(crc, kept, m);
    assert FirstOpen(context.streams) == 0;
  }

  // ---------- a frame changed on the way ----------

  lemma {:induction false} SumBefore(crc: Crc, frames: seq<Message>, k: nat)
    requires Streamed(frames) && AllSupported(frames) && 0 < k <= |frames| && frames[0].checksum.kind != NO_CHECKSUM
    ensures Signed(crc, frames)[k - 1].checksum == Checksum(frames[0].checksum.kind,
              Some(FoldBytes(UpdateOf(crc, frames[0].checksum.kind), 0, Concat(Joined(frames[..k])))))
    ensures k < |frames| ==>
      StartOf(SumAfter(crc, frames[..k]))
      == FoldBytes(UpdateOf(crc, frames[0].checksum.kind), 0, Concat(Joined(frames[..k])))
  {
    ChecksumOfAllBytes(crc, frames[..k]);
    SignedAt(crc, frames, k - 1);
    SignedAt(crc, frames[..k], k - 1);
    assert frames[..k][..k - 1] == frames[..k - 1];
  }

  /** A continue frame of type CRC32 or CRC32C is accepted exactly if its value is the sum of all bytes received. */
  lemma {:induction false} AcceptedIffAllBytes(crc: Crc, before: Bytes, kept: Option<Option<U32>>, m: Message)
    requires m.checksum.kind in {CRC32, CRC32C}
    requires StartOf(kept) == FoldBytes(UpdateOf(crc, m.checksum.kind), 0, before)
    ensures SumMatches(crc, kept, m)
       <==> m.checksum.value == Some(FoldBytes(UpdateOf(crc, m.checksum.kind), 0, before + Concat(m.args)))
  {
    FoldBytesAppend(UpdateOf(crc, m.checksum.kind), 0, before, Concat(m.args));
  }

  /** The bytes that have been received when the `k`-th frame arrives with other arguments than were sent. */
  function BytesReceived(frames: seq<Message>, k: nat, args: A.Args): Bytes
    requires 0 < k <= |frames|
  {
    Concat(Joined(frames[..k - 1])) + Concat(args)
  }

  /** The `k`-th frame as it was signed, but with these arguments. */
  function Changed(crc: Crc, frames: seq<Message>, k: nat, args: A.Args): Message
    requires 0 < k <= |frames|
  {
    Signed(crc, frames)[k - 1].(args := args)
  }

  lemma {:induction false} ChangedMatchesIff(
      crc: Crc, frames: seq<Message>, k: nat, args: A.Args, kept: Option<Option<U32>>)
    requires Streamed(frames) && AllSupported(frames) && 1 < k <= |frames| && frames[0].checksum.kind != NO_CHECKSUM
    requires kept == SumAfter(crc, frames[..k - 1])
    ensures Changed(crc, frames, k, args).checksum.kind in {CRC32, CRC32C}
    ensures !Changed(crc, frames, k, args).kind.IsCall()
    ensures var update := UpdateOf(crc, frames[0].checksum.kind);
            SumMatches(crc, kept, Changed(crc, frames, k, args))
            <==> FoldBytes(update, 0, BytesReceived(frames, k, args))
                 == FoldBytes(update, 0, Concat(Joined(frames[..k])))
  {
    SumBefore(crc, frames, k - 1);
    SumBefore(crc, frames, k);
    SignedAt(crc, frames, k - 1);
    AcceptedIffAllBytes(crc, Concat(Joined(frames[..k - 1])), kept, Changed(crc, frames, k, args));
  }

  /**
   * The frames of a call have arrived in order, and the next one arrives with other arguments but
   * its own checksum. It is refused exactly when the bytes received come to another sum than the
   * bytes sent; then the sum is forgotten and the open stream fails.
   */
  lemma {:induction false} ChangedFrame(crc: Crc, frames: seq<Message>, k: nat, args: A.Args)
    requires Streamed(frames) && AllSupported(frames) && 1 < k <= |frames| && frames[0].checksum.kind != NO_CHECKSUM
    requires |Joined(frames[..k - 1])| <= MAX_ARGS
    ensures var update := UpdateOf(crc, frames[0].checksum.kind);
            var before := Signed(crc, frames)[..k - 1];
            var wire := before + [Changed(crc, frames, k, args)];
            if FoldBytes(update, 0, BytesReceived(frames, k, args))
               == FoldBytes(update, 0, Concat(Joined(frames[..k])))
            then
              LastReply(crc, wire) != Raised(BadChecksum)
            else
              && LastReply(crc, wire) == Raised(BadChecksum) && After(crc, wire).sum == None
              && After(crc, before).context.Some? && After(crc, wire).context.Some?
              && OpenFailed(After(crc, before).context.value, After(crc, wire).context.value)
  {
    var before, m := Signed(crc, frames)[..k - 1], Changed(crc, frames, k, args);
    StateAfter(crc, frames, k - 1);
    var local := After(crc, before);
    ChangedMatchesIff(crc, frames, k, args, local.sum);
    OneMore(crc, before, m);
    BuildRefusesIff(crc, local, m);
  }

  lemma {:induction false} OneMore(crc: Crc, before: seq<Message>, m: Message)
    ensures After(crc, before + [m]) == Build(crc, After(crc, before), m).local
    ensures LastReply(crc, before + [m]) == Build(crc, After(crc, before), m).reply
  {
    assert (before + [m])[..|before|] == before;
  }

  lemma {:induction false} BuildRefusesIff(crc: Crc, local: Local, m: Message)
    requires local.context.Some? && |local.context.value.streams| == MAX_ARGS
    requires !m.kind.IsCall() && m.checksum.kind in {CRC32, CRC32C}
    ensures var after := Build(crc, local, m);
            if SumMatches(crc, local.sum, m) then after.reply != Raised(BadChecksum)
            else
              && after.reply == Raised(BadChecksum) && after.local.sum == None && after.local.context.Some?
              && OpenFailed(local.context.value, after.local.context.value)
  {
    AcceptedIffSumMatches(crc, local.sum, m);
    if SumMatches(crc, local.sum, m) {
      FillFailsForPlace(local.context.value.streams, FirstOpen(local.context.value.streams), m.args);
    } else {
      WrongSumFailsCall(crc, local.context.value, local.sum, m);
    }
  }

  lemma {:induction false} FillFailsForPlace(streams: seq<Slot>, dst: nat, args: A.Args)
    ensures PutArgs(streams, dst, args).failure in {None, Some(NoSuchStream), Some(StreamClosed)}
    decreases |args|
  {
    if args != [] && dst < |streams| && !streams[dst].closed {
      FillFailsForPlace(streams[dst := streams[dst].(content := streams[dst].content + args[0])], dst + 1, args[1..]);
    }
  }
}
