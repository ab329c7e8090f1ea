/**
 * In-memory argument streams (tchannel/tornado/stream.py) and the replay of a request from
 * saved copies of them (tchannel/tornado/request.py).
 */
module Replay {
  import opened Wrappers
  import opened Bytes
  import opened Messages
  import A = Args
  import S = Streaming

  datatype StreamState = Init | Completed

  datatype ReadResult = Chunk(bytes: Bytes) | Waiting | Raised

  /** The first chunks have been taken off; without the last of them the limit was not reached. */
  ghost predicate TakenSoFar(before: seq<Bytes>, taken: Bytes, left: seq<Bytes>) {
    && |left| <= |before| && left == before[|before| - |left|..]
    && taken == Concat(before[..|before| - |left|])
    && (|left| < |before| ==> |Concat(before[..|before| - |left| - 1])| < 0xFFEF)
  }

  /** A read takes whole chunks off the front, until the limit is reached or none is left, and no more than that. */
  ghost predicate WholeChunks(before: seq<Bytes>, taken: Bytes, left: seq<Bytes>) {
    TakenSoFar(before, taken, left) && (left == [] || |taken| >= 0xFFEF)
  }

  lemma {:induction false} OneMoreTaken(before: seq<Bytes>, taken: Bytes, left: seq<Bytes>)
    requires TakenSoFar(before, taken, left) && left != [] && |taken| < 0xFFEF
    ensures TakenSoFar(before, taken + left[0], left[1..])
  {
    var n := |before| - |left|;
    assert before[..n + 1][..n] == before[..n];
  }

  lemma {:induction false} TakenAndLeft(before: seq<Bytes>, taken: Bytes, left: seq<Bytes>)
    requires TakenSoFar(before, taken, left) && forall i | 0 <= i < |before| :: before[i] != []
    ensures Concat(before) == taken + Concat(left)
    ensures (taken == [] <==> left == before) && (taken != [] ==> |left| < |before|)
  {
    var n := |before| - |left|;
    ConcatAppend(before[..n], left);
    assert before[..n] + left == before;
    if n > 0 { assert before[..n][..n - 1] == before[..n - 1]; }
  }

  /** A FIFO of chunks; a read waits while it is empty and still open. */
  class InMemStream {
    var chunks: seq<Bytes>
    var state: StreamState
    var failed: bool
    const autoClose: bool

    ghost function Content(): Bytes
      reads this
    {
      Concat(chunks)
    }

    /** No chunk is empty: `write` drops those. */
    ghost predicate Valid()
      reads this
    {
      (forall i | 0 <= i < |chunks| :: chunks[i] != []) && (failed ==> state == Completed)
    }

    constructor (buf: Bytes, autoClose: bool)
      ensures Valid() && Content() == buf && state == Init && !failed && this.autoClose == autoClose
    {
      this.autoClose := autoClose;
      chunks := if buf == [] then [] else [buf];
      state, failed := Init, false;
      new;
      ConcatAppend([], [buf]);
      assert [buf][..0] == [] && [] + buf == buf;
    }

    /** A copy with its own deque, in the same state; an exception is not copied. */
    constructor Clone(original: InMemStream)
      requires original.Valid()
      ensures Valid() && chunks == original.chunks && state == original.state && !failed
      ensures autoClose == original.autoClose
    {
      chunks, state, failed, autoClose := original.chunks, original.state, false, original.autoClose;
    }

    /** `read`: whole chunks until MAX_PAYLOAD_SIZE bytes are there or none are left. */
    method Read() returns (r: ReadResult)
      requires Valid()
      modifies this`chunks
      ensures Valid()
      ensures r == Waiting <==> old(state != Completed && chunks == [])
      ensures r == Raised <==> old(failed)
      ensures !r.Chunk? ==> chunks == old(chunks)
      ensures r.Chunk? ==> old(Content()) == r.bytes + Content()
      ensures r.Chunk? ==> (r.bytes == [] <==> old(chunks) == [])
      ensures r.Chunk? && r.bytes != [] ==> |chunks| < |old(chunks)|
      ensures r.Chunk? ==> WholeChunks(old(chunks), r.bytes, chunks)
    {
      if state != Completed && chunks == [] { return Waiting; }
      if failed { return Raised; }
      var chunk: Bytes := [];
      while chunks != [] && |chunk| < MAX_PAYLOAD_SIZE
        invariant Valid() && TakenSoFar(old(chunks), chunk, chunks)
        decreases |chunks|
      {
        OneMoreTaken(old(chunks), chunk, chunks);
        chunk := chunk + chunks[0];
        chunks := chunks[1..];
      }
      TakenAndLeft(old(chunks), chunk, chunks);
      r := Chunk(chunk);
    }

    /**
     * Reads until the end is reported or no read is left. Read to its end, the stream yields its
     * content, whatever writes it came from.
     */
    method ReadSome(limit: Option<nat>) returns (read: S.Chunks, left: Option<nat>, ended: bool)
      requires Valid() && state == Completed && !failed
      modifies this`chunks
      ensures Valid() && S.AllNonEmpty(read) && Concat(read) <= old(Content())
      ensures ended ==> Concat(read) == old(Content())
      ensures !ended ==> left == Some(0)
      ensures limit.None? ==> ended && left.None?
    {
      read, left := [], limit;
      while left != Some(0)
        invariant Valid() && S.AllNonEmpty(read)
        invariant Concat(read) + Content() == old(Content())
        invariant left.None? <==> limit.None?
        decreases |chunks|
      {
        var r := Read();
        if r.bytes == [] {
          assert Concat(read) + [] == Concat(read);
          return read, left, true;
        }
        ConcatLast(read, r.bytes);
        assert Concat(read) + (r.bytes + Content()) == Concat(read) + r.bytes + Content();
        read := read + [r.bytes];
        if left.Some? { left := Some(left.value - 1); }
      }
      ended := false;
    }

    method Write(chunk: Bytes) returns (ok: bool)
      requires Valid()
      modifies this`chunks
      ensures Valid() && ok == (state != Completed)
      ensures Content() == old(Content()) + (if ok then chunk else [])
      ensures chunks == old(chunks) + (if ok && chunk != [] then [chunk] else [])
    {
      if failed || state == Completed { return false; }
      if chunk != [] {
        ConcatAppend(chunks, [chunk]);
        assert [chunk][..0] == [] && [] + chunk == chunk;
        chunks := chunks + [chunk];
      }
      ok := true;
    }

    method Close()
      requires Valid()
      modifies this`state
      ensures Valid() && state == Completed
    {
      state := Completed;
    }

    method SetException()
      modifies this`failed, this`state
      ensures failed && state == Completed
    {
      failed := true;
      state := Completed;
    }
  }

  // ---------- requests ----------

  /** The stream can be sent, and would deliver this content. */
  ghost predicate Holds(s: InMemStream, content: Bytes)
    reads s
  {
    s.Valid() && !s.failed && s.Content() == content && (s.autoClose || s.state == Completed)
  }

  ghost predicate HoldAll(streams: seq<InMemStream>, contents: A.Args)
    reads streams
  {
    && |streams| == |contents| == 3
    && Holds(streams[0], contents[0]) && Holds(streams[1], contents[1]) && Holds(streams[2], contents[2])
  }

  predicate Distinct(streams: seq<InMemStream>) {
    forall i, j | 0 <= i < j < |streams| :: streams[i] != streams[j]
  }

  method CloneOne(original: InMemStream, ghost content: Bytes) returns (clone: InMemStream)
    requires Holds(original, content)
    ensures Holds(clone, content) && fresh(clone)
  {
    clone := new InMemStream.Clone(original);
  }

  method CloneAll(originals: seq<InMemStream>, ghost contents: A.Args) returns (clones: seq<InMemStream>)
    requires HoldAll(originals, contents)
    ensures HoldAll(clones, contents) && Distinct(clones) && fresh(clones)
  {
    var c1 := CloneOne(originals[0], contents[0]);
    var c2 := CloneOne(originals[1], contents[1]);
    var c3 := CloneOne(originals[2], contents[2]);
    clones := [c1, c2, c3];
  }

  /** `_is_streaming_request`, for in-memory streams. */
  predicate IsStreaming(arg2: InMemStream, arg3: InMemStream)
    reads arg2, arg3
  {
    !((arg2.autoClose && arg3.autoClose) || (arg2.state == Completed && arg3.state == Completed))
  }

  /**
   * A request. If it is not a streaming one it has saved copies of its streams that are its own:
   * what happens to the live streams, in whatever way, never reaches them.
   */
  class Request {
    var id: nat
    var argstreams: seq<InMemStream>
    const isStreaming: bool
    const copies: seq<InMemStream>
    ghost const saved: A.Args

    ghost predicate Valid()
      reads this, copies
    {
      && |argstreams| == 3 && Distinct(argstreams)
      && (forall i, j | 0 <= i < 3 && 0 <= j < |copies| :: argstreams[i] != copies[j])
      && (if isStreaming then copies == [] else HoldAll(copies, saved))
    }

    /**
     * A request is streaming unless both later arguments close automatically, or both are complete.
     * `arg1` does or is, as `send` makes it.
     */
    constructor (id: nat, argstreams: seq<InMemStream>, ghost contents: A.Args)
      requires |argstreams| == |contents| == 3 && Distinct(argstreams)
      requires forall i | 0 <= i < 3 ::
        argstreams[i].Valid() && !argstreams[i].failed && argstreams[i].Content() == contents[i]
      requires argstreams[0].autoClose || argstreams[0].state == Completed
      ensures Valid() && this.id == id && this.argstreams == argstreams && saved == contents && fresh(copies)
      ensures !isStreaming <==>
        || (argstreams[1].autoClose && argstreams[2].autoClose)
        || (argstreams[1].state == Completed && argstreams[2].state == Completed)
    {
      var streaming := IsStreaming(argstreams[1], argstreams[2]);
      var clones := [];
      if !streaming { clones := CloneAll(argstreams, contents); }
      this.id, this.argstreams, isStreaming, copies, saved := id, argstreams, streaming, clones, contents;
    }

    /**
     * `rewind`: fresh clones of the saved streams take the place of whatever the live ones have
     * become; a streaming request is left with what it has.
     */
    method Rewind(id: nat)
      requires Valid()
      modifies this`id, this`argstreams
      ensures Valid() && this.id == id
      ensures if isStreaming then argstreams == old(argstreams) else HoldAll(argstreams, saved) && fresh(argstreams)
    {
      this.id := id;
      if !isStreaming { argstreams := CloneAll(copies, saved); }
    }

    /** `set_exception`, when an attempt has failed. */
    method SetException()
      requires Valid()
      modifies argstreams
      ensures Valid()
      ensures forall i | 0 <= i < 3 :: argstreams[i].failed && argstreams[i].state == Completed
    {
      for i := 0 to 3
        invariant forall k | 0 <= k < i :: argstreams[k].failed && argstreams[k].state == Completed
      {
        argstreams[i].SetException();
      }
    }

    method CloseArgstreams(force: bool, ghost contents: A.Args)
      requires Valid() && HoldAll(argstreams, contents)
      modifies argstreams
      ensures Valid() && HoldAll(argstreams, contents)
      ensures forall i | 0 <= i < 3 :: argstreams[i].state == Completed
    {
      for i := 0 to 3
        invariant HoldAll(argstreams, contents)
        invariant forall k | 0 <= k < i :: argstreams[k].state == Completed
      {
        assert Holds(argstreams[i], contents[i]);
        if argstreams[i].autoClose || force { argstreams[i].Close(); }
      }
    }

    /**
     * One attempt: the streams are closed and read one after the other, to their ends unless the
     * attempt breaks off after so many reads. It sends what the live streams held, or as much of
     * it as was read, and leaves the saved copies alone.
     */
    method Attempt(ghost contents: A.Args, limit: Option<nat>) returns (streams: seq<S.Chunks>, whole: bool)
      requires Valid() && HoldAll(argstreams, contents)
      modifies argstreams
      ensures Valid() && |contents| == 3
      ensures |streams| == 3 && forall i | 0 <= i < 3 :: S.AllNonEmpty(streams[i])
      ensures BrokenOff(streams, contents)
      ensures whole ==> S.Contents(streams) == contents
      ensures limit.None? ==> whole
    {
      CloseArgstreams(false, contents);
      streams, whole := ReadStreams(argstreams[0], argstreams[1], argstreams[2], contents, limit);
    }
  }

  /** Reads one stream after the other. */
  method ReadStreams(
      a1: InMemStream, a2: InMemStream, a3: InMemStream, ghost contents: A.Args, limit: Option<nat>)
    returns (streams: seq<S.Chunks>, whole: bool)
    requires a1 != a2 && a1 != a3 && a2 != a3 && |contents| == 3
    requires Holds(a1, contents[0]) && Holds(a2, contents[1]) && Holds(a3, contents[2])
    requires a1.state == Completed && a2.state == Completed && a3.state == Completed
    modifies a1`chunks, a2`chunks, a3`chunks
    ensures |streams| == 3 && forall i | 0 <= i < 3 :: S.AllNonEmpty(streams[i])
    ensures BrokenOff(streams, contents)
    ensures whole ==> S.Contents(streams) == contents
    ensures limit.None? ==> whole
  {
    var r1, left1, ended1 := a1.ReadSome(limit);
    if !ended1 { return [r1, [], []], false; }
    var r2, left2, ended2 := a2.ReadSome(left1);
    if !ended2 { return [r1, r2, []], false; }
    var r3, left3, ended3 := a3.ReadSome(left2);
    streams, whole := [r1, r2, r3], ended3;
    if whole { S.ContentsAre(streams, contents); }
  }

  /** A part of the contents from the front: each stream is begun only when the one before it has been read. */
  predicate BrokenOff(streams: seq<S.Chunks>, contents: A.Args)
    requires |streams| == |contents| == 3
  {
    && (forall i | 0 <= i < 3 :: Concat(streams[i]) <= contents[i])
    && (forall i | 1 <= i < 3 && streams[i] != [] :: Concat(streams[i - 1]) == contents[i - 1])
  }

  predicate SentAgain(streams: seq<S.Chunks>, contents: A.Args, limit: Option<nat>) {
    && |streams| == |contents| == 3 && BrokenOff(streams, contents)
    && (limit.None? ==> S.Contents(streams) == contents)
  }

  /** One rewind and the attempt that follows, which fails. */
  method TryAgain(request: Request, id: nat, limit: Option<nat>) returns (streams: seq<S.Chunks>)
    requires request.Valid() && !request.isStreaming
    modifies request`id, request`argstreams
    ensures request.Valid() && fresh(request.argstreams)
    ensures SentAgain(streams, request.saved, limit)
  {
    request.Rewind(id);
    var whole;
    streams, whole := request.Attempt(request.saved, limit);
    request.SetException();
  }

  /**
   * Any number of failed attempts, each followed by a rewind; attempt `k` breaks off after
   * `breaks(k)` reads, or not at all. Every attempt after a rewind sends the contents saved when
   * the request was made, from the front and, unless it breaks off, to the end.
   */
  method Replays(request: Request, attempts: nat, breaks: nat -> Option<nat>) returns (sent: seq<seq<S.Chunks>>)
    requires request.Valid() && !request.isStreaming
    modifies request`id, request`argstreams, request.argstreams
    ensures |sent| == attempts && request.Valid()
    ensures forall k | 0 <= k < attempts :: SentAgain(sent[k], request.saved, breaks(k))
  {
    sent := [];
    request.SetException();
    for k := 0 to attempts
      invariant |sent| == k && request.Valid()
      invariant request.argstreams == old(request.argstreams) || fresh(request.argstreams)
      invariant forall i | 0 <= i < k :: SentAgain(sent[i], request.saved, breaks(i))
    {
      var streams := TryAgain(request, k, breaks(k));
      sent := sent + [streams];
    }
  }
}
