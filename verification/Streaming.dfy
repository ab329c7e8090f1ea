/**
 * From argument streams to call messages: `_stream` of tchannel/tornado/connection.py and the
 * message builders of tchannel/tornado/message_factory.py. A stream is the list of chunks that
 * reading it yields, one after the other, before it reports its end.
 */
module Streaming {
  import opened Wrappers
  import opened Bytes
  import opened ReadWriter
  import opened Messages
  import opened Checksums
  import opened Fragmentation
  import opened Reassembly
  import opened EndToEnd
  import A = Args

  type Chunks = seq<Bytes>

  predicate AllNonEmpty(chunks: Chunks) { forall i | 0 <= i < |chunks| :: chunks[i] != [] }

  /** The contents of each stream, however it was divided into chunks. */
  function Contents(streams: seq<Chunks>): (args: A.Args)
    ensures |args| == |streams| && forall i | 0 <= i < |streams| :: args[i] == Concat(streams[i])
  {
    seq(|streams|, i requires 0 <= i < |streams| => Concat(streams[i]))
  }

  lemma {:induction false} ContentsAre(streams: seq<Chunks>, args: A.Args)
    requires |args| == |streams| && forall i | 0 <= i < |streams| :: args[i] == Concat(streams[i])
    ensures Contents(streams) == args
  {
  }

  lemma {:induction false} OpenArgument(sent: A.Args, args: A.Args, first: Bytes)
    requires args != [] || sent == []
    ensures A.Join(sent, args + [first]) == A.Join(sent, args) + [first]
  {
    if sent != [] && args != [] {
      assert (args + [first])[1..] == args[1..] + [first];
    }
  }

  /** Sending what there is and going on with the next chunk appends the chunk to the open argument. */
  lemma {:induction false} NextChunk(ms: seq<Message>, m: Message, done: A.Args, content: Bytes, chunk: Bytes)
    requires A.Join(Joined(ms), m.args) == done + [content]
    ensures A.Join(Joined(ms + [m]), [chunk]) == done + [content + chunk]
  {
    assert (ms + [m])[..|ms|] == ms;
    assert (done + [content])[..|done|] == done;
  }

  lemma {:induction false} OneMoreChunk(chunks: Chunks, k: nat)
    requires k < |chunks|
    ensures Concat(chunks[..k + 1]) == Concat(chunks[..k]) + chunks[k]
    ensures k == 0 ==> Concat(chunks[..1]) == chunks[0]
  {
    assert chunks[..k + 1][..k] == chunks[..k];
  }

  // ---------- the shape of what is sent ----------

  /** What all messages of a request or response share; the header goes with the first only. */
  datatype Envelope = Envelope(kind: Kind, id: Id, header: seq<Value>, checksum: Checksum)

  /** The message that carries `args`: a call the first time, a continuation after that. */
  function MessageOf(e: Envelope, args: A.Args, first: bool, last: bool): Message {
    Message(if first then e.kind else e.kind.Continuation(), e.id, if last then NONE else FRAGMENT,
            if first then e.header else [], e.checksum, args)
  }

  /** A call message followed by continuations, none of them the last. */
  predicate Begun(e: Envelope, ms: seq<Message>) {
    forall i | 0 <= i < |ms| :: 0 < |ms[i].args| <= MAX_ARGS && ms[i] == MessageOf(e, ms[i].args, i == 0, false)
  }

  /** All messages of a request or response; exactly the last one says so. */
  predicate Complete(e: Envelope, ms: seq<Message>) {
    && ms != [] && Begun(e, ms[..|ms| - 1])
    && 0 < |ms[|ms| - 1].args| <= MAX_ARGS
    && ms[|ms| - 1] == MessageOf(e, ms[|ms| - 1].args, |ms| == 1, true)
  }

  /**
   * Field by field: the first message is the call with its header, the others continue a request or
   * a response; all have the same id and checksum; flags are 0 on the last and 1 on the others.
   */
  lemma {:induction false} MessagesHaveShape(e: Envelope, ms: seq<Message>, i: nat)
    requires Complete(e, ms) && i < |ms|
    ensures ms[i].kind == (if i == 0 then e.kind
                           else if e.kind in {CallRequest, CallRequestContinue} then CallRequestContinue
                           else CallResponseContinue)
    ensures ms[i].header == (if i == 0 then e.header else [])
    ensures ms[i].id == e.id && ms[i].checksum == e.checksum && 0 < |ms[i].args| <= 3
    ensures ms[i].flags == if i == |ms| - 1 then 0 else 1
  {
    if i < |ms| - 1 { assert ms[..|ms| - 1][i] == ms[i]; }
  }

  /** The chunks of all streams, not counting the first of each. */
  function LaterChunks(streams: seq<Chunks>): nat {
    if streams == [] then 0 else
    var last := |streams| - 1;
    LaterChunks(streams[..last]) + Later(streams[last])
  }

  function Later(chunks: Chunks): nat { if chunks == [] then 0 else |chunks| - 1 }

  lemma {:induction false} LaterInPrefix(streams: seq<Chunks>, i: nat)
    requires i < |streams|
    ensures LaterChunks(streams[..i + 1]) == LaterChunks(streams[..i]) + Later(streams[i])
  {
    assert streams[..i + 1][..i] == streams[..i];
  }

  lemma {:induction false} LastMessage(e: Envelope, ms: seq<Message>, m: Message)
    requires Begun(e, ms) && 0 < |m.args| <= MAX_ARGS && m == MessageOf(e, m.args, ms == [], true)
    ensures Complete(e, ms + [m]) && Joined(ms + [m]) == A.Join(Joined(ms), m.args)
  {
    assert (ms + [m])[..|ms|] == ms;
  }

  lemma {:induction false} NextMessage(e: Envelope, ms: seq<Message>, m: Message)
    requires Begun(e, ms) && 0 < |m.args| <= MAX_ARGS && m == MessageOf(e, m.args, ms == [], false)
    ensures Begun(e, ms + [m])
  {
  }

  /** An envelope whose fields are in range, leave room in the payload, and have a checksum that can be computed. */
  predicate EnvelopeFits(e: Envelope) {
    && e.kind.IsCall() && e.id < Capacity(4)
    && Supported(e.checksum.kind) && (e.checksum.kind == NO_CHECKSUM || e.checksum.value.Some?)
    && HeaderFits(MessageOf(e, [], true, true)) && Space(MessageOf(e, [], true, true)) >= 0
  }

  /** It also has an id. */
  predicate EnvelopeOk(e: Envelope) { EnvelopeFits(e) && e.id != 0 }

  lemma {:induction false} PartOf(e: Envelope, ms: seq<Message>, i: nat)
    requires EnvelopeFits(e) && Complete(e, ms) && i < |ms|
    ensures 0 < |ms[i].args| <= MAX_ARGS
    ensures ms[i] == MessageOf(e, ms[i].args, i == 0, i == |ms| - 1)
    ensures WellFormed(ms[i]) && HeaderFits(ms[i]) && Space(ms[i]) >= 0
    ensures i == 0 ==> Space(ms[0]) == Space(MessageOf(e, [], true, true))
  {
    if i < |ms| - 1 { assert ms[..|ms| - 1][i] == ms[i]; }
    if i == 0 {
      SpaceIgnoresFlags(MessageOf(e, [], true, true), ms[0]);
    } else {
      ContinueSpace(ms[i]);
    }
  }

  lemma {:induction false} PartsAreSound(e: Envelope, ms: seq<Message>)
    requires EnvelopeFits(e) && Complete(e, ms)
    ensures forall i | 0 <= i < |ms| :: WellFormed(ms[i])
  {
    forall i | 0 <= i < |ms| ensures WellFormed(ms[i]) { PartOf(e, ms, i); }
  }

  /** What the streaming layer hands on is a call as the rest of the model understands it, if it has an id. */
  lemma {:induction false} CompleteIsCall(e: Envelope, ms: seq<Sound>)
    requires EnvelopeFits(e) && Complete(e, ms)
    ensures IsStreamed(ms) && (IsCall(ms) <==> e.id != 0)
  {
    PartOf(e, ms, 0);
    forall i | 0 <= i < |ms| ensures IsPart(ms, i) { PartOf(e, ms, i); }
  }

  /** The frames written for it keep the id of the envelope if and only if that is not 0. */
  lemma {:induction false} StreamsKeepId(e: Envelope, ms: seq<Message>, draws: (nat, nat) -> nat)
    requires EnvelopeFits(e) && Complete(e, ms)
    ensures forall i | 0 <= i < |ms| :: WellFormed(ms[i])
    ensures (forall i | 0 <= i < |Numbered(ms, draws)| :: Numbered(ms, draws)[i].id == e.id) <==> e.id != 0
    ensures e.id != 0 ==> Numbered(ms, draws) == Frames(ms)
  {
    PartsAreSound(e, ms);
    forall i | 0 <= i < |ms| ensures ms[i].id == e.id { PartOf(e, ms, i); }
    FramesKeepId(ms, draws);
  }

  /**
   * However the three streams of a request are divided into chunks, the messages that `Stream`
   * makes of them are a call, and its frames rebuild exactly their contents if and only if the
   * call is clean; otherwise the receiver raises.
   */
  lemma {:induction false} StreamsArrive(
      crc: Crc, e: Envelope, ms: seq<Message>, streams: seq<Chunks>, draws: (nat, nat) -> nat)
    requires EnvelopeOk(e) && Complete(e, ms) && |streams| == MAX_ARGS && Joined(ms) == Contents(streams)
    ensures forall i | 0 <= i < |ms| :: WellFormed(ms[i])
    ensures IsCall(ms) && Numbered(ms, draws) == Frames(ms) && Arriving(crc, ms) != []
    ensures Clean(ms) <==> NothingRaised(crc, Arriving(crc, ms))
    ensures Clean(ms) ==>
      var context := Holding(Contents(streams), true);
      LastReply(crc, Arriving(crc, ms)) in {Started(context), Continued(context)}
  {
    PartsAreSound(e, ms);
    CompleteIsCall(e, ms);
    StreamsKeepId(e, ms, draws);
    CallRoundTrip(crc, ms, Contents(streams));
  }

  // ---------- streaming ----------

  datatype StreamState = Init | Streaming | Completed

  /** A request or response being sent. */
  class Outgoing {
    const envelope: Envelope
    var flags: nat
    var state: StreamState

    constructor (envelope: Envelope)
      ensures this.envelope == envelope && state == Init
    {
      this.envelope := envelope;
      flags, state := NONE, Init;
    }

    /** `build_raw_message`; nothing is built once the request or response is complete. */
    method BuildRawMessage(args: A.Args, isCompleted: bool) returns (m: Option<Message>)
      modifies this
      ensures m == if old(state) == Completed then None
                   else Some(MessageOf(envelope, args, old(state) == Init, isCompleted))
      ensures state == if isCompleted || old(state) == Completed then Completed else Streaming
      ensures flags == if isCompleted then 0 else 1
    {
      flags := if isCompleted then NONE else FRAGMENT;
      if state == Init {
        m := Some(Message(envelope.kind, envelope.id, flags, envelope.header, envelope.checksum, args));
      } else if state == Streaming {
        m := Some(Message(envelope.kind.Continuation(), envelope.id, flags, [], envelope.checksum, args));
      } else {
        return None;
      }
      state := if isCompleted then Completed else Streaming;
    }

    /**
     * `_stream`: the messages sent join to the three full contents, whatever the chunks; the
     * first is a call and the others continue it; exactly the last carries flag none. Every chunk
     * of a stream but its first sends what there is so far.
     */
    method Stream(streams: seq<Chunks>) returns (ms: seq<Message>)
      requires state == Init && |streams| == MAX_ARGS
      requires forall i | 0 <= i < |streams| :: AllNonEmpty(streams[i])
      modifies this
      ensures state == Completed
      ensures Joined(ms) == Contents(streams)
      ensures Complete(envelope, ms) && |ms| == LaterChunks(streams) + 1
    {
      ms := [];
      var args: A.Args := [];
      ghost var contents := Contents(streams);
      for i := 0 to |streams|
        invariant Begun(envelope, ms) && state == (if ms == [] then Init else Streaming)
        invariant |args| <= i && (if i == 0 then ms == [] else args != [])
        invariant A.Join(Joined(ms), args) == contents[..i] && |ms| == LaterChunks(streams[..i])
      {
        LaterInPrefix(streams, i);
        ms, args := StreamNext(ms, args, streams[i], contents, i);
      }
      assert contents[..|streams|] == contents && streams[..|streams|] == streams;
      ms := FinishStream(ms, args);
    }

    /** The last piece of a request or response. */
    method FinishStream(sent: seq<Message>, args: A.Args) returns (ms: seq<Message>)
      requires Begun(envelope, sent) && state == (if sent == [] then Init else Streaming) && 0 < |args| <= MAX_ARGS
      modifies this
      ensures state == Completed && Complete(envelope, ms) && Joined(ms) == A.Join(Joined(sent), args)
      ensures |ms| == |sent| + 1
    {
      var m := BuildRawMessage(args, true);
      LastMessage(envelope, sent, m.value);
      ms := sent + [m.value];
    }

    /** One argument stream after `i` others. */
    method StreamNext(sent: seq<Message>, begun: A.Args, chunks: Chunks, ghost contents: A.Args, ghost i: nat)
      returns (ms: seq<Message>, args: A.Args)
      requires Begun(envelope, sent) && state == (if sent == [] then Init else Streaming)
      requires |begun| < MAX_ARGS && (begun == [] ==> sent == [])
      requires i < |contents| && contents[i] == Concat(chunks) && A.Join(Joined(sent), begun) == contents[..i]
      modifies this
      ensures Begun(envelope, ms) && state == (if ms == [] then Init else Streaming)
      ensures 0 < |args| <= |begun| + 1
      ensures A.Join(Joined(ms), args) == contents[..i + 1] && |ms| == |sent| + Later(chunks)
    {
      ms, args := StreamArgument(sent, begun, chunks, contents[..i]);
      assert contents[..i] + [contents[i]] == contents[..i + 1];
    }

    /** The rounds of `_stream` for one argument stream. */
    method StreamArgument(sent: seq<Message>, begun: A.Args, chunks: Chunks, ghost done: A.Args)
      returns (ms: seq<Message>, args: A.Args)
      requires Begun(envelope, sent) && state == (if sent == [] then Init else Streaming)
      requires |begun| < MAX_ARGS && (begun == [] ==> sent == []) && A.Join(Joined(sent), begun) == done
      modifies this
      ensures Begun(envelope, ms) && state == (if ms == [] then Init else Streaming)
      ensures 0 < |args| <= |begun| + 1
      ensures A.Join(Joined(ms), args) == done + [Concat(chunks)] && |ms| == |sent| + Later(chunks)
    {
      ms := sent;
      if chunks == [] {
        OpenArgument(Joined(ms), begun, []);
        args := begun + [[]];
        return;
      }
      OpenArgument(Joined(ms), begun, chunks[0]);
      OneMoreChunk(chunks, 0);
      args := begun + [chunks[0]];
      for k := 1 to |chunks|
        invariant Begun(envelope, ms) && state == (if ms == [] then Init else Streaming)
        invariant 0 < |args| <= |begun| + 1
        invariant A.Join(Joined(ms), args) == done + [Concat(chunks[..k])] && |ms| == |sent| + k - 1
      {
        var m := BuildRawMessage(args, false);
        NextMessage(envelope, ms, m.value);
        NextChunk(ms, m.value, done, Concat(chunks[..k]), chunks[k]);
        OneMoreChunk(chunks, k);
        ms := ms + [m.value];
        args := [chunks[k]];
      }
      assert chunks[..|chunks|] == chunks;
    }
  }
}
