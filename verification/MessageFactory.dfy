/**
 * MessageFactory of tchannel/tornado/message_factory.py and the in-place splitter of
 * tchannel/messages/call_continue.py, method by method, against the functions of
 * Fragmentation, Reassembly and Multiplexing.
 */
module MessageFactory {
  import opened Wrappers
  import opened Bytes
  import opened ReadWriter
  import opened Messages
  import opened Checksums
  import opened Fragmentation
  import opened Reassembly
  import opened Multiplexing
  import A = Args

  // ---------- the splitter's loop ----------

  /** One round of the loop: what it has kept and shifted, and the space it has left. */
  function Advance(c: A.Cut, arg: Bytes): A.Cut {
    if c.left < A.KEY_LENGTH then c.(rest := c.rest + [arg])
    else if c.left - A.KEY_LENGTH < |arg| then
      A.Cut(c.kept + [arg[..c.left - A.KEY_LENGTH]], c.rest + [arg[c.left - A.KEY_LENGTH..]], 0)
    else
      var left := c.left - A.KEY_LENGTH - |arg|;
      A.Cut(c.kept + [arg], if left <= A.KEY_LENGTH then c.rest + [[]] else c.rest, left)
  }

  function Sweep(c: A.Cut, args: A.Args): A.Cut
    decreases args
  {
    if args == [] then c else Sweep(Advance(c, args[0]), args[1..])
  }

  lemma {:induction false} SweepWithoutSpace(c: A.Cut, args: A.Args)
    requires c.left < A.KEY_LENGTH
    ensures Sweep(c, args) == c.(rest := c.rest + args)
    decreases args
  {
    if args == [] {
      assert c.rest + [] == c.rest;
    } else {
      SweepWithoutSpace(Advance(c, args[0]), args[1..]);
      assert c.rest + [args[0]] + args[1..] == c.rest + args;
    }
  }

  /** What is kept and shifted already comes before what later rounds keep and shift. */
  function Before(c: A.Cut, later: A.Cut): A.Cut { A.Cut(c.kept + later.kept, c.rest + later.rest, later.left) }

  lemma {:induction false} BeforeGroups(c: A.Cut, kept: A.Args, shifted: A.Args, left: int, later: A.Cut)
    ensures Before(A.Cut(c.kept + kept, c.rest + shifted, left), later)
         == Before(c, A.Cut(kept + later.kept, shifted + later.rest, later.left))
  {
    assert c.kept + kept + later.kept == c.kept + (kept + later.kept);
    assert c.rest + shifted + later.rest == c.rest + (shifted + later.rest);
  }

  lemma {:induction false} FirstRound(c: A.Cut, args: A.Args)
    requires args != [] && A.KEY_LENGTH <= c.left
    ensures var next := Advance(c, args[0]);
            Before(next, A.Split(args[1..], next.left)) == Before(c, A.Split(args, c.left))
  {
    var arg, room := args[0], c.left - A.KEY_LENGTH;
    if room < |arg| {
      assert A.Split(args[1..], 0) == A.Cut([], args[1..], 0);
      BeforeGroups(c, [arg[..room]], [arg[room..]], 0, A.Cut([], args[1..], 0));
    } else {
      var left := room - |arg|;
      var later := A.Split(args[1..], left);
      BeforeGroups(c, [arg], if left <= A.KEY_LENGTH then [[]] else [], left, later);
      assert c.rest + [] == c.rest;
    }
  }

  /** Rounds of the loop, one argument after the other, come to what `Split` says of all of them. */
  lemma {:induction false} SweepIsSplit(c: A.Cut, args: A.Args)
    ensures Sweep(c, args) == Before(c, A.Split(args, c.left))
    decreases args
  {
    if args == [] || c.left < A.KEY_LENGTH {
      if args != [] { SweepWithoutSpace(c, args); }
      assert c.rest + [] == c.rest && c.kept + [] == c.kept;
    } else {
      SweepIsSplit(Advance(c, args[0]), args[1..]);
      FirstRound(c, args);
    }
  }

  // ---------- messages that are split in place ----------

  class CallMessage {
    const kind: Kind
    const header: seq<Value>
    var id: Id
    var flags: nat
    var checksum: Checksum
    var args: A.Args

    function Value(): Message
      reads this
    {
      Message(kind, id, flags, header, checksum, args)
    }

    constructor (kind: Kind, id: Id, flags: nat, header: seq<Value>, checksum: Checksum, args: A.Args)
      ensures Value() == Message(kind, id, flags, header, checksum, args)
    {
      this.kind, this.id, this.flags, this.header, this.checksum, this.args := kind, id, flags, header, checksum, args;
    }

    /** The rounds of the splitter once the space is used up. */
    method ShiftFrom(fragmentMsg: CallMessage, first: nat)
      requires fragmentMsg != this && first <= |args|
      modifies fragmentMsg`args
      ensures fragmentMsg.args == old(fragmentMsg.args) + args[first..]
    {
      for l := first to |args|
        invariant fragmentMsg.args == old(fragmentMsg.args) + args[first..l]
      {
        assert args[first..l] + [args[l]] == args[first..l + 1];
        fragmentMsg.args := fragmentMsg.args + [args[l]];
      }
      assert args[first..|args|] == args[first..];
    }

    /** Keeps what fits in `spaceLeft` and shifts the rest to `fragmentMsg`; whether anything was shifted. */
    method FragmentInto(spaceLeft: int, fragmentMsg: CallMessage) returns (more: bool)
      requires fragmentMsg != this && fragmentMsg.args == []
      modifies this`args, this`flags, fragmentMsg`args, fragmentMsg`id
      ensures var cut := A.Split(old(args), spaceLeft);
              && args == cut.kept && fragmentMsg.args == cut.rest
              && more == (cut.left < 0 || cut.rest != [])
              && flags == (if more then FRAGMENT else old(flags))
              && fragmentMsg.id == (if more then id else old(fragmentMsg.id))
    {
      var newArgs: A.Args, left, i := [], spaceLeft, 0;
      ghost var whole := Sweep(A.Cut([], [], spaceLeft), args);
      assert args[0..] == args;
      while i < |args|
        invariant 0 <= i <= |args| && args == old(args) && flags == old(flags) && fragmentMsg.id == old(fragmentMsg.id)
        invariant Sweep(A.Cut(newArgs, fragmentMsg.args, left), args[i..]) == whole
      {
        var arg := args[i];
        assert args[i..][1..] == args[i + 1..];
        if left < A.KEY_LENGTH {
          SweepWithoutSpace(A.Cut(newArgs, fragmentMsg.args, left), args[i..]);
          ShiftFrom(fragmentMsg, i);
          i := |args|;
          break;
        }
        left := left - A.KEY_LENGTH;
        if left < |arg| {
          fragmentMsg.args := fragmentMsg.args + [arg[left..]];
          newArgs := newArgs + [arg[..left]];
          left := 0;
        } else {
          newArgs := newArgs + [arg];
          left := left - |arg|;
          if left <= A.KEY_LENGTH {
            fragmentMsg.args := fragmentMsg.args + [[]];
          }
        }
        i := i + 1;
      }
      SweepIsSplit(A.Cut([], [], spaceLeft), args);
      args := newArgs;
      if left >= 0 && |fragmentMsg.args| == 0 {
        return false;
      }
      flags := FRAGMENT;
      fragmentMsg.id := id;
      more := true;
    }

    /** The subclasses' `fragment`: the message that carries what did not fit, if any. */
    method Fragment(spaceLeft: int) returns (next: CallMessage?)
      requires WellFormed(Value()) && spaceLeft == Space(Value())
      modifies this`args, this`flags
      ensures next != null ==> fresh(next)
      ensures next != null ==>
        next.kind == if kind in {CallRequest, CallRequestContinue} then CallRequestContinue else CallResponseContinue
      ensures Value() == FragmentOnce(old(Value())).frame
      ensures FragmentOnce(old(Value())).next == (if next == null then None else Some(next.Value()))
    {
      var fragmentMsg := new CallMessage(kind.Continuation(), 0, flags, [], checksum, []);
      var more := FragmentInto(spaceLeft, fragmentMsg);
      next := if more then fragmentMsg else null;
    }
  }

  // ---------- signing frame by frame ----------

  lemma {:induction false} SignOneMore(crc: Crc, before: seq<Message>, m: Message)
    ensures var signed := Sign(crc, SumAfter(crc, before), m);
            && Signed(crc, before + [m]) == Signed(crc, before) + [signed]
            && SumAfter(crc, before + [m]) == Remembered(signed)
  {
    assert (before + [m])[..|before|] == before;
  }

  /** The frames still to come. The trigger keeps `Cut` folded where only the name matters. */
  ghost predicate ToCome(next: Option<Message>, rest: seq<Message>) {
    && (next.None? ==> rest == [])
    && (next.Some? ==> WellFormed(next.value))
    && forall m: Sound {:trigger Cut(m)} :: next == Some(m) ==> rest == Cut(m)
  }

  /** What the sender has put on the wire and keeps for the id, once `done` are sent. */
  ghost predicate SentSoFar(crc: Crc, done: seq<Message>, wire: seq<Message>, entry: Option<Option<U32>>) {
    forall frames {:trigger Signed(crc, frames)} :: frames == done ==>
      wire == Signed(crc, frames) && entry == SumAfter(crc, frames)
  }

  /** Cutting off and signing one more frame. */
  lemma {:induction false} OneMoreSent(
      crc: Crc, done: seq<Message>, wire: seq<Message>, entry: Option<Option<U32>>, m: Message, rest: seq<Message>)
    requires WellFormed(m) && ToCome(Some(m), rest) && SentSoFar(crc, done, wire, entry)
    ensures var pieces := FragmentOnce(m);
            var signed := Sign(crc, entry, pieces.frame);
            && rest != [] && ToCome(pieces.next, rest[1..])
            && SentSoFar(crc, done + [rest[0]], wire + [signed], Remembered(signed))
            && (pieces.next.Some? ==> WellFormed(pieces.next.value) && Effort(pieces.next.value) < Effort(m))
  {
    var pieces := FragmentOnce(m);
    assert rest == Cut(m) && wire == Signed(crc, done);
    SignOneMore(crc, done, pieces.frame);
    if pieces.next.Some? { EffortDecreases(m); }
  }

  // ---------- contexts ----------

  /** The number of rounds of a loop over `range(n)`. */
  function Clamp(n: int): nat { if n < 0 then 0 else n }

  function Failed(streams: seq<Slot>): (failed: seq<Slot>)
    ensures |failed| == |streams|
    ensures forall i | 0 <= i < |streams| :: failed[i] == Slot(streams[i].content, true, true)
  {
    seq(|streams|, i requires 0 <= i < |streams| => streams[i].(closed := true, failed := true))
  }

  /** A request or response whose argument streams are being filled. */
  class CallContext {
    var streams: seq<Slot>
    var flags: nat

    ghost function Value(): Context
      reads this
    {
      Context(streams, flags)
    }

    constructor (streams: seq<Slot>, flags: nat)
      ensures Value() == Context(streams, flags)
    {
      this.streams, this.flags := streams, flags;
    }

    /** Index of the first stream that is not completed, or 0. */
    method FindOpen() returns (num: nat)
      ensures num == FirstOpen(streams)
    {
      num := 0;
      for i := 0 to |streams|
        invariant num == 0 && OpenFrom(streams, 0) == OpenFrom(streams, i)
      {
        if !streams[i].closed { return i; }
      }
    }

    /** `close_argstream`. */
    method CloseArgstreams(num: int)
      requires num + (if flags == NONE then 1 else 0) <= |streams|
      modifies this`streams
      ensures streams == CloseFirst(old(streams), Clamp(num + (if flags == NONE then 1 else 0)))
    {
      var n := if flags == NONE then num + 1 else num;
      for i := 0 to Clamp(n)
        invariant streams == CloseFirst(old(streams), i)
      {
        streams := streams[i := streams[i].(closed := true)];
      }
    }

    /** Writes arguments to consecutive streams from `dst` on; a write that raises ends it. */
    method WriteArgs(start: nat, args: A.Args) returns (failure: Option<Failure>)
      modifies this`streams
      ensures PutArgs(old(streams), start, args) == Written(streams, failure)
    {
      var dst, src := start, 0;
      assert args[0..] == args;
      while src < |args|
        invariant 0 <= src <= |args| && dst == start + src && |streams| == |old(streams)|
        invariant PutArgs(streams, dst, args[src..]) == PutArgs(old(streams), start, args)
        decreases |args| - src
      {
        assert args[src..][1..] == args[src + 1..];
        if dst >= |streams| { return Some(NoSuchStream); }
        if streams[dst].closed { return Some(StreamClosed); }
        streams := streams[dst := streams[dst].(content := streams[dst].content + args[src])];
        dst, src := dst + 1, src + 1;
      }
      failure := None;
    }

    /** `set_exception` of a request or response: every stream fails. */
    method FailAll()
      modifies this`streams
      ensures streams == Failed(old(streams))
    {
      for i := 0 to |streams|
        invariant |streams| == |old(streams)|
        invariant forall k | 0 <= k < |streams| ::
          streams[k] == if k < i then old(streams)[k].(closed := true, failed := true) else old(streams)[k]
      {
        SetException(i);
      }
    }

    /** Writes the arguments of a continue message and closes the streams they complete. */
    method Fill(m: Message) returns (failure: Option<Failure>)
      requires |streams| == MAX_ARGS
      modifies this
      ensures Reassembly.Fill(old(Value()), m) == Filled(Value(), failure)
      ensures |streams| == MAX_ARGS
    {
      var dst := FindOpen();
      failure := WriteArgs(dst, m.args);
      if failure.Some? { return; }
      if m.flags != FRAGMENT { flags := NONE; }
      CloseArgstreams(dst + |m.args| - 1);
    }

    /** Marks the stream being filled as failed. */
    method SetException(dst: nat)
      requires dst < |streams|
      modifies this`streams
      ensures streams == old(streams)[dst := old(streams)[dst].(closed := true, failed := true)]
    {
      streams := streams[dst := streams[dst].(closed := true, failed := true)];
    }
  }

  // ---------- preparing the streams of a call ----------

  /** Stream `k` once the first `i` arguments have been put in their streams. */
  function Prepared(args: A.Args, i: nat, k: nat): Slot
    requires i <= |args|
  {
    Slot(if k < i then args[k] else [], k + 1 < i, false)
  }

  lemma {:induction false} PreparedStreams(args: A.Args)
    ensures |args| > MAX_ARGS ==> PrepareArgs(args).failure == Some(NoSuchStream)
    ensures |args| <= MAX_ARGS ==>
      && PrepareArgs(args).failure.None? && |PrepareArgs(args).streams| == MAX_ARGS
      && forall k | 0 <= k < MAX_ARGS :: PrepareArgs(args).streams[k] == Prepared(args, |args|, k)
  {
    if args != [] {
      PutAppends([FRESH, FRESH, FRESH], 0, args);
      forall k | 0 <= k < |args| ensures [] + args[k] == args[k] {}
    }
  }

  // ---------- the factory ----------

  class MessageFactory {
    const crc: Crc
    var messageBuffer: map<Id, CallContext>
    var inChecksum: Sums
    var outChecksum: Sums

    /** Each context belongs to one id and has three argument streams. */
    ghost predicate Valid()
      reads this, messageBuffer.Values
    {
      && (forall id | id in messageBuffer :: |messageBuffer[id].streams| == MAX_ARGS)
      && (forall i, j | i in messageBuffer && j in messageBuffer :: messageBuffer[i] == messageBuffer[j] ==> i == j)
    }

    /** Every context was there before or is a new one. */
    twostate predicate OnlyNewContexts(before: map<Id, CallContext>)
      reads this
    {
      forall id | id in messageBuffer :: (id in before && messageBuffer[id] == before[id]) || fresh(messageBuffer[id])
    }

    /** What is kept for one id. */
    ghost function Kept(id: Id): Local
      reads this, messageBuffer.Values
    {
      Local(if id in messageBuffer then Some(messageBuffer[id].Value()) else None, Entry(inChecksum, id))
    }

    constructor (crc: Crc)
      ensures Valid() && this.crc == crc && messageBuffer == map[] && outChecksum == map[]
      ensures forall id :: Kept(id) == NOTHING
    {
      this.crc, messageBuffer, inChecksum, outChecksum := crc, map[], map[], map[];
    }

    // ---------- sending ----------

    /** `generate_checksum`; a type without an implementation raises and changes nothing. */
    method GenerateChecksum(message: CallMessage) returns (ok: bool)
      modifies this`outChecksum, message`checksum
      ensures ok == Supported(message.checksum.kind)
      ensures ok ==> message.Value() == Sign(crc, Entry(old(outChecksum), message.id), old(message.Value()))
      ensures ok ==> outChecksum == Store(old(outChecksum), message.id, Remembered(message.Value()))
      ensures !ok ==> message.Value() == old(message.Value()) && outChecksum == old(outChecksum)
    {
      var sum := ComputeChecksum(crc, message.checksum.kind, message.args, Entry(outChecksum, message.id));
      if sum.NotImplemented? || sum.InvalidType? { return false; }
      message.checksum := Checksum(message.checksum.kind, SumValue(sum));
      outChecksum := outChecksum[message.id := SumValue(sum)];
      if message.flags == NONE {
        outChecksum := outChecksum - {message.id};
      }
      ok := true;
    }

    /**
     * One round of `fragment`: cuts one frame off and signs it; nothing is sent if signing
     * raises. `done` are the frames of this id already sent, `rest` those this message is cut into.
     */
    method NextFrame(message: CallMessage, ghost done: seq<Message>, ghost wire: seq<Message>, ghost rest: seq<Message>)
      returns (frame: Option<Message>, next: CallMessage?)
      requires ToCome(Some(message.Value()), rest)
      requires SentSoFar(crc, done, wire, Entry(outChecksum, message.id))
      modifies this`outChecksum, message
      ensures rest != [] && ToCome(if next == null then None else Some(next.Value()), rest[1..])
      ensures next != null ==>
        && fresh(next) && Effort(next.Value()) < Effort(old(message.Value()))
        && next.id == old(message.id) && next.checksum == old(message.checksum)
      ensures frame.Some? == Supported(old(message.checksum.kind))
      ensures frame.None? ==> outChecksum == old(outChecksum)
      ensures frame.Some? ==>
        && SentSoFar(crc, done + [rest[0]], wire + [frame.value], Entry(outChecksum, old(message.id)))
        && outChecksum == Store(old(outChecksum), old(message.id), Entry(outChecksum, old(message.id)))
    {
      OneMoreSent(crc, done, wire, Entry(outChecksum, message.id), message.Value(), rest);
      next := message.Fragment(Space(message.Value()));
      var ok := GenerateChecksum(message);
      frame := if ok then Some(message.Value()) else None;
    }

    /** The generator: cuts and signs one frame after the other. */
    method Emit(start: CallMessage, ghost before: seq<Message>, ghost wire: seq<Message>, ghost rest: seq<Message>)
      returns (sent: seq<Message>)
      requires ToCome(Some(start.Value()), rest)
      requires SentSoFar(crc, before, wire, Entry(outChecksum, start.id))
      modifies this`outChecksum, start
      ensures !Supported(old(start.checksum.kind)) ==> sent == [] && outChecksum == old(outChecksum)
      ensures Supported(old(start.checksum.kind)) ==>
        && SentSoFar(crc, before + rest, wire + sent, Entry(outChecksum, old(start.id)))
        && outChecksum == Store(old(outChecksum), old(start.id), Entry(outChecksum, old(start.id)))
    {
      ghost var id := start.id;
      var frame, next := NextFrame(start, before, wire, rest);
      ghost var done, left := before + [rest[0]], rest[1..];
      if frame.None? { return []; }
      sent := [frame.value];
      while next != null
        invariant next != null ==> fresh(next) && next.id == id && Supported(next.checksum.kind)
        invariant ToCome(if next == null then None else Some(next.Value()), left)
        invariant SentSoFar(crc, done, wire + sent, Entry(outChecksum, id))
        invariant done + left == before + rest
        invariant outChecksum == Store(old(outChecksum), id, Entry(outChecksum, id))
        decreases if next == null then 0 else 1 + Effort(next.Value())
      {
        frame, next := NextFrame(next, done, wire + sent, left);
        done, left := done + [left[0]], left[1..];
        assert wire + sent + [frame.value] == wire + (sent + [frame.value]);
        sent := sent + [frame.value];
      }
      assert done + [] == done;
    }

    /**
     * `fragment`: the message leaves as the frames it is cut into, signed on top of the frames
     * of this id sent `before`; a message whose checksum cannot be computed leaves nothing.
     */
    method Fragment(start: CallMessage, ghost before: seq<Message>) returns (sent: seq<Message>)
      requires WellFormed(start.Value())
      requires Entry(outChecksum, start.id) == SumAfter(crc, before)
      modifies this`outChecksum, start
      ensures !Supported(old(start.checksum.kind)) ==> sent == [] && outChecksum == old(outChecksum)
      ensures Supported(old(start.checksum.kind)) ==>
        && Signed(crc, before + Cut(old(start.Value()))) == Signed(crc, before) + sent
        && outChecksum == Store(old(outChecksum), old(start.id), SumAfter(crc, before + Cut(old(start.Value()))))
    {
      sent := Emit(start, before, Signed(crc, before), Cut(start.Value()));
    }

    // ---------- receiving ----------

    method VerifyMessage(m: Message) returns (verdict: Verdict)
      modifies this`inChecksum
      ensures verdict == Verify(crc, Entry(old(inChecksum), m.id), m)
      ensures inChecksum == (match verdict
                             case Accepted => Store(old(inChecksum), m.id, Remembered(m))
                             case Rejected(BadChecksum) => Store(old(inChecksum), m.id, None)
                             case Rejected(_) => old(inChecksum))
    {
      var sum := ComputeChecksum(crc, m.checksum.kind, m.args, Entry(inChecksum, m.id));
      if sum.NotImplemented? { return Rejected(ChecksumNotImplemented); }
      if sum.InvalidType? { return Rejected(UnknownChecksum); }
      if m.checksum.value == SumValue(sum) {
        inChecksum := inChecksum[m.id := SumValue(sum)];
        if m.flags == NONE {
          inChecksum := inChecksum - {m.id};
        }
        verdict := Accepted;
      } else {
        inChecksum := inChecksum - {m.id};
        verdict := Rejected(BadChecksum);
      }
    }

    /** `prepare_args`: each argument closes the stream before it and goes to its own. */
    method PrepareArgs(args: A.Args) returns (streams: seq<Slot>, failure: Option<Failure>)
      ensures failure == Reassembly.PrepareArgs(args).failure
      ensures failure.None? ==> streams == Reassembly.PrepareArgs(args).streams
    {
      PreparedStreams(args);
      streams := [FRESH, FRESH, FRESH];
      for i := 0 to |args|
        invariant i <= MAX_ARGS && |streams| == MAX_ARGS
        invariant forall k | 0 <= k < MAX_ARGS :: streams[k] == Prepared(args, i, k)
      {
        if i > 0 { streams := streams[i - 1 := streams[i - 1].(closed := true)]; }
        if i >= |streams| { return streams, Some(NoSuchStream); }
        assert [] + args[i] == args[i];
        streams := streams[i := streams[i].(content := streams[i].content + args[i])];
      }
      failure := None;
    }

    /** `build_context`, and the closing of the streams the message fills. */
    method BuildContext(m: Message) returns (failure: Option<Failure>, context: CallContext?)
      ensures failure == Begin(m).failure && (context == null) == failure.Some?
      ensures context != null ==>
        fresh(context) && context.Value() == Begin(m).context && |context.streams| == MAX_ARGS
    {
      context := null;
      var streams;
      streams, failure := PrepareArgs(m.args);
      if failure.Some? { return; }
      context := new CallContext(streams, m.flags);
      var num := context.FindOpen();
      context.CloseArgstreams(num);
    }

    /** A call message: verifies it, builds its context, and closes the streams it has filled. */
    method BuildCall(m: Message) returns (failure: Option<Failure>, context: CallContext?)
      requires Valid()
      modifies this`messageBuffer, this`inChecksum
      ensures Valid()
      ensures var outcome := Reassembly.BuildCall(crc, old(Kept(m.id)), m);
              && Kept(m.id) == outcome.local
              && failure.Some? == outcome.reply.Raised? == (context == null)
              && (if failure.Some? then outcome.reply == Raised(failure.value)
                  else fresh(context) && outcome.reply == Started(context.Value()))
      ensures forall id | id != m.id :: Kept(id) == old(Kept(id))
      ensures OnlyNewContexts(old(messageBuffer))
    {
      context := null;
      var verdict := VerifyMessage(m);
      if verdict.Rejected? { return Some(verdict.failure), null; }
      failure, context := BuildContext(m);
      if failure.None? && m.flags == FRAGMENT {
        messageBuffer := messageBuffer[m.id := context];
      }
    }

    /** A continue message: goes on filling the context of its id, and drops it when it is the last. */
    method BuildContinue(m: Message) returns (failure: Option<Failure>)
      requires Valid()
      modifies this`messageBuffer, this`inChecksum
      modifies if m.id in messageBuffer then {messageBuffer[m.id]} else {}
      ensures Valid()
      ensures var outcome := Reassembly.BuildContinue(crc, old(Kept(m.id)), m);
              && Kept(m.id) == outcome.local
              && (if failure.Some? then outcome.reply == Raised(failure.value)
                  else old(m.id in messageBuffer) && outcome.reply == Continued(old(messageBuffer)[m.id].Value()))
      ensures forall id | id != m.id :: Kept(id) == old(Kept(id))
      ensures OnlyNewContexts(old(messageBuffer))
    {
      if m.id !in messageBuffer { return Some(MissingCall); }
      var context := messageBuffer[m.id];
      var verdict := VerifyMessage(m);
      if verdict.Rejected? {
        var dst := context.FindOpen();
        if verdict.failure == BadChecksum || verdict.failure == UnknownChecksum { context.SetException(dst); }
        return Some(verdict.failure);
      }
      failure := context.Fill(m);
      if failure.None? && m.flags != FRAGMENT {
        messageBuffer := messageBuffer - {m.id};
      }
    }

    /** `build` for call messages: only what is kept for the message's own id changes. */
    method Build(m: Message) returns (failure: Option<Failure>, context: CallContext?)
      requires Valid()
      modifies this`messageBuffer, this`inChecksum
      modifies if m.id in messageBuffer then {messageBuffer[m.id]} else {}
      ensures Valid()
      ensures var outcome := Reassembly.Build(crc, old(Kept(m.id)), m);
              && Kept(m.id) == outcome.local
              && (failure.Some? ==> outcome.reply == Raised(failure.value))
              && (failure.None? && m.kind.IsCall() ==> context != null && outcome.reply == Started(context.Value()))
              && (failure.None? && !m.kind.IsCall() ==>
                    context == null && old(m.id in messageBuffer)
                    && outcome.reply == Continued(old(messageBuffer)[m.id].Value()))
      ensures forall id | id != m.id :: Kept(id) == old(Kept(id))
      ensures OnlyNewContexts(old(messageBuffer))
    {
      if m.kind.IsCall() {
        failure, context := BuildCall(m);
      } else {
        failure := BuildContinue(m);
        context := null;
      }
    }

    /**
     * `build` for an error message: the call's context is dropped and every stream of it fails.
     * The running checksum of the id stays behind.
     */
    method BuildError(id: Id) returns (context: CallContext?)
      requires Valid()
      modifies this`messageBuffer
      modifies if id in messageBuffer then {messageBuffer[id]} else {}
      ensures Valid()
      ensures context == (if id in old(messageBuffer) then old(messageBuffer)[id] else null)
      ensures context != null ==> context.streams == Failed(old(messageBuffer[id].streams))
      ensures Kept(id) == Local(None, old(Kept(id)).sum)
      ensures forall id' | id' != id :: Kept(id') == old(Kept(id'))
      ensures messageBuffer == old(messageBuffer) - {id}
    {
      if id !in messageBuffer { return null; }
      context := messageBuffer[id];
      messageBuffer := messageBuffer - {id};
      context.FailAll();
    }
  }

  // ---------- a whole connection ----------

  /** The factory holds for every id what the receiver of Multiplexing holds after these frames. */
  ghost predicate HasTaken(factory: MessageFactory, wire: seq<Message>)
    reads factory, factory.messageBuffer.Values
  {
    factory.Valid() && forall id :: factory.Kept(id) == At(Arrived(factory.crc, wire), id)
  }

  /** Whether, and how, `build` raises for the last of these frames. */
  function FailureOfLast(crc: Crc, wire: seq<Message>): Option<Failure>
    requires wire != []
  {
    match ReplyToLast(crc, wire) case Raised(failure) => Some(failure) case _ => None
  }

  lemma {:induction false} OneMoreArrived(crc: Crc, wire: seq<Message>, m: Message, id: Id)
    ensures var before := At(Arrived(crc, wire), m.id);
            && (before.context.Some? ==> |before.context.value.streams| == MAX_ARGS)
            && At(Arrived(crc, wire + [m]), id)
               == (if id == m.id then Reassembly.Build(crc, before, m).local else At(Arrived(crc, wire), id))
            && ReplyToLast(crc, wire + [m]) == Reassembly.Build(crc, before, m).reply
  {
    assert (wire + [m])[..|wire|] == wire;
  }

  method BuildNext(factory: MessageFactory, ghost wire: seq<Message>, m: Message) returns (failure: Option<Failure>)
    requires HasTaken(factory, wire)
    modifies factory`messageBuffer, factory`inChecksum
    modifies if m.id in factory.messageBuffer then {factory.messageBuffer[m.id]} else {}
    ensures HasTaken(factory, wire + [m]) && factory.OnlyNewContexts(old(factory.messageBuffer))
    ensures failure == FailureOfLast(factory.crc, wire + [m])
  {
    OneMoreArrived(factory.crc, wire, m, m.id);
    var context;
    failure, context := factory.Build(m);
    forall id ensures factory.Kept(id) == At(Arrived(factory.crc, wire + [m]), id) {
      OneMoreArrived(factory.crc, wire, m, id);
    }
  }

  /**
   * A new factory that builds one frame after the other holds for every id what the receiver of
   * Multiplexing holds, and raises for exactly those frames for which the receiver does.
   */
  method BuildAll(crc: Crc, wire: seq<Message>) returns (factory: MessageFactory, failures: seq<Option<Failure>>)
    ensures fresh(factory) && factory.crc == crc && HasTaken(factory, wire)
    ensures |failures| == |wire|
    ensures forall i | 0 <= i < |wire| :: failures[i] == FailureOfLast(crc, wire[..i + 1])
  {
    factory := new MessageFactory(crc);
    failures := [];
    for i := 0 to |wire|
      invariant factory.crc == crc && HasTaken(factory, wire[..i]) && |failures| == i
      invariant forall id | id in factory.messageBuffer :: fresh(factory.messageBuffer[id])
      invariant forall k | 0 <= k < i :: failures[k] == FailureOfLast(crc, wire[..k + 1])
    {
      assert wire[..i] + [wire[i]] == wire[..i + 1];
      var failure := BuildNext(factory, wire[..i], wire[i]);
      failures := failures + [failure];
    }
    assert wire[..|wire|] == wire;
  }
}
