/**
 * Frames of many calls on one connection. The sender keeps one running checksum per id; the
 * receiver one context and one running checksum per id. Whatever the order in which the calls
 * take turns, each of them is rebuilt as if it had the connection to itself.
 */
module Multiplexing {
  import opened Wrappers
  import opened Bytes
  import opened ReadWriter
  import opened Messages
  import opened Checksums
  import opened Fragmentation
  import opened Reassembly
  import opened EndToEnd

  // ---------- tables keyed by message id ----------

  function Entry<T>(table: map<Id, T>, id: Id): Option<T> {
    if id in table then Some(table[id]) else None
  }

  function Store<T>(table: map<Id, T>, id: Id, entry: Option<T>): map<Id, T> {
    if entry.Some? then table[id := entry.value] else table - {id}
  }

  type Sums = map<Id, Option<U32>>

  // ---------- the receiver ----------

  /** message_buffer and in_checksum. */
  datatype Receiver = Receiver(buffer: map<Id, Context>, sums: Sums)

  predicate ThreeStreams(r: Receiver) {
    forall id | id in r.buffer :: |r.buffer[id].streams| == MAX_ARGS
  }

  function At(r: Receiver, id: Id): Local { Local(Entry(r.buffer, id), Entry(r.sums, id)) }

  function Put(r: Receiver, id: Id, local: Local): Receiver {
    Receiver(Store(r.buffer, id, local.context), Store(r.sums, id, local.sum))
  }

  /** The receiver after a run of frames, whatever they are. */
  function Arrived(crc: Crc, wire: seq<Message>): (r: Receiver)
    ensures ThreeStreams(r)
  {
    if wire == [] then Receiver(map[], map[]) else
    var last := |wire| - 1;
    var before, m := Arrived(crc, wire[..last]), wire[last];
    BuildKeepsThreeStreams(crc, At(before, m.id), m);
    Put(before, m.id, Build(crc, At(before, m.id), m).local)
  }

  /** What `build` does with the last frame of the run. */
  function ReplyToLast(crc: Crc, wire: seq<Message>): Reply
    requires wire != []
  {
    var last := |wire| - 1;
    Build(crc, At(Arrived(crc, wire[..last]), wire[last].id), wire[last]).reply
  }

  /** The frames with this id. */
  function OfId(wire: seq<Message>, id: Id): seq<Message> {
    if wire == [] then [] else
    var last := |wire| - 1;
    OfId(wire[..last], id) + (if wire[last].id == id then [wire[last]] else [])
  }

  /** What is kept for an id depends on the frames with that id alone. */
  lemma {:induction false} OthersDoNotMatter(crc: Crc, wire: seq<Message>, id: Id)
    ensures At(Arrived(crc, wire), id) == After(crc, OfId(wire, id))
  {
    if wire != [] {
      var last := |wire| - 1;
      OthersDoNotMatter(crc, wire[..last], id);
      if wire[last].id == id {
        var mine := OfId(wire[..last], id);
        assert (mine + [wire[last]])[..|mine|] == mine;
      } else {
        assert OfId(wire, id) == OfId(wire[..last], id);
      }
    }
  }

  /** So does the reply to each frame: even the failure of one call is invisible to the others. */
  lemma {:induction false} ReplyIsLocal(crc: Crc, wire: seq<Message>)
    requires wire != []
    ensures OfId(wire, wire[|wire| - 1].id) != []
    ensures ReplyToLast(crc, wire) == LastReply(crc, OfId(wire, wire[|wire| - 1].id))
  {
    var last := |wire| - 1;
    var id := wire[last].id;
    var mine := OfId(wire[..last], id);
    OthersDoNotMatter(crc, wire[..last], id);
    assert (mine + [wire[last]])[..|mine|] == mine;
  }

  // ---------- the sender ----------

  /** The frames of each call in flight, before signing. */
  type Calls = map<Id, seq<Message>>

  predicate CallOk(id: Id, frames: seq<Message>) {
    Streamed(frames) && frames[0].id == id && AllSupported(frames)
  }

  predicate CallsOk(calls: Calls) {
    forall id {:trigger calls[id]} | id in calls :: CallOk(id, calls[id])
  }

  /** How many frames of a call a schedule has sent. */
  function Turns(order: seq<Id>, id: Id): nat {
    if order == [] then 0 else
    var last := |order| - 1;
    Turns(order[..last], id) + (if order[last] == id then 1 else 0)
  }

  /** An interleaving, complete or not, of the frames of the calls. */
  predicate Schedule(calls: Calls, order: seq<Id>) {
    forall i {:trigger order[i]} | 0 <= i < |order| ::
      order[i] in calls && Turns(order[..i], order[i]) < |calls[order[i]]|
  }

  lemma {:induction false} SchedulePrefix(calls: Calls, order: seq<Id>, n: nat)
    requires Schedule(calls, order) && n <= |order|
    ensures Schedule(calls, order[..n])
  {
    forall i | 0 <= i < n
      ensures order[..n][i] in calls && Turns(order[..n][..i], order[..n][i]) < |calls[order[..n][i]]|
    {
      assert order[..n][..i] == order[..i] && order[..n][i] == order[i];
    }
  }

  lemma {:induction false} TurnsBounded(calls: Calls, order: seq<Id>, id: Id)
    requires Schedule(calls, order)
    ensures id in calls ==> Turns(order, id) <= |calls[id]|
    ensures id !in calls ==> Turns(order, id) == 0
  {
    if order != [] {
      var last := |order| - 1;
      SchedulePrefix(calls, order, last);
      TurnsBounded(calls, order[..last], id);
      assert order[last] in calls;
    }
  }

  datatype Transmitted = Transmitted(wire: seq<Message>, sums: Sums)

  /** The signed frames in the order of the schedule, and out_checksum after them. */
  function Transmit(crc: Crc, calls: Calls, order: seq<Id>): (t: Transmitted)
    requires Schedule(calls, order)
    ensures |t.wire| == |order|
  {
    if order == [] then Transmitted([], map[]) else
    var last, id := |order| - 1, order[|order| - 1];
    SchedulePrefix(calls, order, last);
    var before := Transmit(crc, calls, order[..last]);
    var signed := Sign(crc, Entry(before.sums, id), calls[id][Turns(order[..last], id)]);
    Transmitted(before.wire + [signed], Store(before.sums, id, Remembered(signed)))
  }

  predicate IdsOk(calls: Calls) {
    forall id, k {:trigger calls[id][k]} | id in calls && 0 <= k < |calls[id]| :: calls[id][k].id == id
  }

  lemma {:induction false} OkCallsHaveIds(calls: Calls)
    requires CallsOk(calls)
    ensures IdsOk(calls)
  {
    forall id, k | id in calls && 0 <= k < |calls[id]| ensures calls[id][k].id == id {
      assert CallOk(id, calls[id]);
    }
  }

  lemma {:induction false} SignedGrows(crc: Crc, frames: seq<Message>, n: nat)
    requires 0 < n <= |frames|
    ensures var signed := Sign(crc, SumAfter(crc, frames[..n - 1]), frames[n - 1]);
            && Signed(crc, frames[..n]) == Signed(crc, frames[..n - 1]) + [signed]
            && SumAfter(crc, frames[..n]) == Remembered(signed)
  {
    assert frames[..n][..n - 1] == frames[..n - 1];
  }

  lemma {:induction false} TransmitGrows(crc: Crc, calls: Calls, order: seq<Id>)
    requires IdsOk(calls) && Schedule(calls, order) && order != []
    ensures var last, id := |order| - 1, order[|order| - 1];
            && Schedule(calls, order[..last]) && id in calls && Turns(order[..last], id) < |calls[id]|
            && var t, before := Transmit(crc, calls, order), Transmit(crc, calls, order[..last]);
               var signed := Sign(crc, Entry(before.sums, id), calls[id][Turns(order[..last], id)]);
               && t.wire == before.wire + [signed] && t.wire[..last] == before.wire
               && t.wire[last] == signed && signed.id == id
               && t.sums == Store(before.sums, id, Remembered(signed))
  {
    SchedulePrefix(calls, order, |order| - 1);
    assert order[|order| - 1] in calls;
  }

  /** Each call's frames are on the wire in order, signed as if nothing else had been sent. */
  lemma {:induction false} WireOfOneCall(crc: Crc, calls: Calls, order: seq<Id>, id: Id)
    requires IdsOk(calls) && Schedule(calls, order) && id in calls
    ensures Turns(order, id) <= |calls[id]|
    ensures var n, t := Turns(order, id), Transmit(crc, calls, order);
            && OfId(t.wire, id) == Signed(crc, calls[id][..n])
            && Entry(t.sums, id) == SumAfter(crc, calls[id][..n])
  {
    TurnsBounded(calls, order, id);
    if order != [] {
      var last := |order| - 1;
      TransmitGrows(crc, calls, order);
      WireOfOneCall(crc, calls, order[..last], id);
      if order[last] == id {
        SignedGrows(crc, calls[id], Turns(order, id));
      } else {
        var wire := Transmit(crc, calls, order).wire;
        assert OfId(wire, id) == OfId(wire[..last], id);
      }
    }
  }

  lemma {:induction false} OtherIdsSilent(crc: Crc, calls: Calls, order: seq<Id>, id: Id)
    requires IdsOk(calls) && Schedule(calls, order) && id !in calls
    ensures OfId(Transmit(crc, calls, order).wire, id) == [] && id !in Transmit(crc, calls, order).sums
  {
    if order != [] {
      TransmitGrows(crc, calls, order);
      OtherIdsSilent(crc, calls, order[..|order| - 1], id);
    }
  }

  // ---------- any interleaving ----------

  /** A call is under way: some but not all of its frames have been sent. */
  predicate UnderWay(calls: Calls, order: seq<Id>, id: Id) {
    id in calls && 0 < Turns(order, id) < |calls[id]|
  }

  predicate FitsStreams(frames: seq<Message>) { |Joined(frames)| <= MAX_ARGS }

  /** One call among others, after any part of any interleaving. */
  lemma {:induction false} OneAmongMany(crc: Crc, calls: Calls, order: seq<Id>, id: Id)
    requires CallsOk(calls) && Schedule(calls, order) && id in calls && FitsStreams(calls[id])
    ensures var n, t := Turns(order, id), Transmit(crc, calls, order);
            && n <= |calls[id]|
            && (UnderWay(calls, order, id) ==>
                  && 0 < |Joined(calls[id][..n])| <= MAX_ARGS
                  && At(Arrived(crc, t.wire), id)
                     == Local(Some(Holding(Joined(calls[id][..n]), false)), Entry(t.sums, id))
                  && Entry(t.sums, id).Some?)
            && (!UnderWay(calls, order, id) ==> At(Arrived(crc, t.wire), id) == NOTHING && id !in t.sums)
  {
    var frames, n := calls[id], Turns(order, id);
    OkCallsHaveIds(calls);
    WireOfOneCall(crc, calls, order, id);
    OthersDoNotMatter(crc, Transmit(crc, calls, order).wire, id);
    LastForgets(crc, frames);
    assert frames[..|frames|] == frames;
    if n > 0 {
      JoinIsMonotone(frames, n);
      StateAfter(crc, frames, n);
      SignedPrefix(crc, frames, n);
    }
  }

  lemma {:induction false} SignedPrefix(crc: Crc, frames: seq<Message>, n: nat)
    requires n <= |frames|
    ensures Signed(crc, frames)[..n] == Signed(crc, frames[..n])
  {
    if n < |frames| { SignedAt(crc, frames, n); } else { assert frames[..n] == frames; }
  }

  lemma {:induction false} SameEntries<T>(a: map<Id, T>, b: map<Id, T>)
    requires forall id {:trigger Entry(a, id)} :: Entry(a, id) == Entry(b, id)
    ensures a == b
  {
    forall id: Id ensures (id in a <==> id in b) && (id in a ==> a[id] == b[id]) {
      assert Entry(a, id) == Entry(b, id);
    }
  }

  lemma {:induction false} TablesAgreeAt(crc: Crc, calls: Calls, order: seq<Id>, id: Id)
    requires CallsOk(calls) && Schedule(calls, order)
    requires forall id | id in calls :: FitsStreams(calls[id])
    ensures var t := Transmit(crc, calls, order);
            var r := Arrived(crc, t.wire);
            && Entry(r.sums, id) == Entry(t.sums, id)
            && (id in r.buffer <==> UnderWay(calls, order, id))
            && (id in r.sums <==> id in r.buffer)
  {
    var t := Transmit(crc, calls, order);
    OkCallsHaveIds(calls);
    if id in calls {
      OneAmongMany(crc, calls, order, id);
    } else {
      OtherIdsSilent(crc, calls, order, id);
      OthersDoNotMatter(crc, t.wire, id);
    }
  }

  /**
   * After any part of any interleaving the sender's and the receiver's running checksums are
   * the same, and the ids they and the message buffer hold are exactly the calls under way.
   */
  lemma {:induction false} TablesAgree(crc: Crc, calls: Calls, order: seq<Id>)
    requires CallsOk(calls) && Schedule(calls, order)
    requires forall id | id in calls :: FitsStreams(calls[id])
    ensures var t := Transmit(crc, calls, order);
            var r := Arrived(crc, t.wire);
            && r.sums == t.sums
            && r.sums.Keys == r.buffer.Keys
            && forall id :: id in r.buffer <==> UnderWay(calls, order, id)
  {
    var t := Transmit(crc, calls, order);
    var r := Arrived(crc, t.wire);
    forall id: Id
      ensures Entry(r.sums, id) == Entry(t.sums, id)
      ensures id in r.buffer <==> UnderWay(calls, order, id)
      ensures id in r.sums <==> id in r.buffer
    {
      TablesAgreeAt(crc, calls, order, id);
    }
    SameEntries(r.sums, t.sums);
  }

  /** A reply that hands out, or goes on filling, the context holding the first `n` frames. */
  ghost predicate RepliesWith(frames: seq<Message>, n: nat, reply: Reply) {
    && 0 < n <= |frames| && 0 < |Joined(frames[..n])| <= MAX_ARGS
    && !reply.Raised? && reply.Started? == (n == 1)
    && reply.context == Holding(Joined(frames[..n]), n == |frames|)
  }

  lemma {:induction false} ReplyInCall(crc: Crc, frames: seq<Message>, n: nat)
    requires Streamed(frames) && AllSupported(frames) && FitsStreams(frames) && 0 < n <= |frames|
    ensures RepliesWith(frames, n, LastReply(crc, Signed(crc, frames[..n])))
  {
    JoinIsMonotone(frames, n);
    StateAfter(crc, frames, n);
    SignedPrefix(crc, frames, n);
  }

  lemma {:induction false} CompleteReply(frames: seq<Message>, reply: Reply)
    requires RepliesWith(frames, |frames|, reply)
    ensures 0 < |Joined(frames)| <= MAX_ARGS && reply.context == Holding(Joined(frames), true)
  {
    assert frames[..|frames|] == frames;
  }

  /** Every frame passes verification, and the one that ends a call finds all its arguments in place. */
  lemma {:induction false} EveryFrameIsTaken(crc: Crc, calls: Calls, order: seq<Id>)
    requires CallsOk(calls) && Schedule(calls, order) && order != []
    requires FitsStreams(calls[order[|order| - 1]])
    ensures var id := order[|order| - 1];
            RepliesWith(calls[id], Turns(order, id), ReplyToLast(crc, Transmit(crc, calls, order).wire))
  {
    var id := order[|order| - 1];
    var n, wire := Turns(order, id), Transmit(crc, calls, order).wire;
    LastIsMine(crc, calls, order);
    LastFrames(crc, calls, order);
    assert CallOk(id, calls[id]);
    ReplyIsLocal(crc, wire);
    ReplyInCall(crc, calls[id], n);
  }

  lemma {:induction false} LastFrames(crc: Crc, calls: Calls, order: seq<Id>)
    requires CallsOk(calls) && Schedule(calls, order) && order != []
    ensures var id := order[|order| - 1];
            && id in calls && Turns(order, id) <= |calls[id]|
            && OfId(Transmit(crc, calls, order).wire, id) == Signed(crc, calls[id][..Turns(order, id)])
  {
    OkCallsHaveIds(calls);
    LastIsMine(crc, calls, order);
    WireOfOneCall(crc, calls, order, order[|order| - 1]);
  }

  lemma {:induction false} LastIsMine(crc: Crc, calls: Calls, order: seq<Id>)
    requires CallsOk(calls) && Schedule(calls, order) && order != []
    ensures order[|order| - 1] in calls
    ensures Transmit(crc, calls, order).wire[|order| - 1].id == order[|order| - 1]
    ensures Turns(order, order[|order| - 1]) > 0
  {
    OkCallsHaveIds(calls);
    TransmitGrows(crc, calls, order);
  }

  /**
   * An error message drops the context of a call but leaves its running checksum behind. A
   * later call with the same id is then refused exactly when its bytes, summed on top of what
   * was left behind, give another sum than on their own.
   */
  lemma {:induction false} SumLeftBehind(crc: Crc, sum: U32, m: Message)
    requires m.kind.IsCall() && |m.args| <= MAX_ARGS && Supported(m.checksum.kind) && m.checksum.kind != NO_CHECKSUM
    ensures var update, bytes := UpdateOf(crc, m.checksum.kind), Concat(m.args);
            BuildCall(crc, Local(None, Some(Some(sum))), Sign(crc, None, m)).reply.Raised?
            <==> FoldBytes(update, sum, bytes) != FoldBytes(update, 0, bytes)
  {
    var update := UpdateOf(crc, m.checksum.kind);
    FoldArgsSeesBytes(update, sum, m.args);
    FoldArgsSeesBytes(update, 0, m.args);
    BeginSucceeds(Sign(crc, None, m));
  }

  /** Different sums stay different whatever byte is added, as with CRC-32 and CRC-32C. */
  ghost predicate Reversible(update: Update) {
    forall x, y, byte {:trigger update(x, byte), update(y, byte)} | update(x, byte) == update(y, byte) :: x == y
  }

  lemma {:induction false} SumsStayApart(update: Update, x: U32, y: U32, bytes: Bytes)
    requires Reversible(update)
    ensures FoldBytes(update, x, bytes) == FoldBytes(update, y, bytes) <==> x == y
  {
    if bytes != [] { SumsStayApart(update, x, y, bytes[..|bytes| - 1]); }
  }

  /** For such a checksum any sum but 0 that is left behind makes the id unusable. */
  lemma {:induction false} SumLeftBehindRefuses(crc: Crc, sum: U32, m: Message)
    requires m.kind.IsCall() && |m.args| <= MAX_ARGS && Supported(m.checksum.kind) && m.checksum.kind != NO_CHECKSUM
    requires Reversible(UpdateOf(crc, m.checksum.kind))
    ensures BuildCall(crc, Local(None, Some(Some(sum))), Sign(crc, None, m)).reply.Raised? <==> sum != 0
  {
    SumLeftBehind(crc, sum, m);
    SumsStayApart(UpdateOf(crc, m.checksum.kind), sum, 0, Concat(m.args));
  }

  lemma {:induction false} BeginSucceeds(m: Message)
    requires |m.args| <= MAX_ARGS
    ensures Begin(m).failure.None?
  {
    if m.args != [] { PutAppends([FRESH, FRESH, FRESH], 0, m.args); }
  }

  // ---------- from bytes to bytes ----------

  /** The messages of several calls, by id. */
  type Streams = map<Id, seq<Sound>>

  predicate StreamsOk(streams: Streams) {
    forall id | id in streams ::
      IsCall(streams[id]) && streams[id][0].id == id && Clean(streams[id]) && |Joined(streams[id])| == MAX_ARGS
  }

  function FramesOf(streams: Streams): Calls { map id | id in streams :: Frames(streams[id]) }

  lemma {:induction false} FramesOfOneCall(ms: seq<Sound>)
    requires IsCall(ms) && Clean(ms) && |Joined(ms)| == MAX_ARGS
    ensures Streamed(Frames(ms)) && AllSupported(Frames(ms)) && Frames(ms)[0].id == ms[0].id
    ensures Joined(Frames(ms)) == Joined(ms)
  {
    DecodedFramesStreamed(ms);
    DecodedJoin(ms);
    MessagesHaveArgs(ms);
    FramesJoin(ms);
    AllFramesOk(ms);
    assert FrameOk(ms, 0, Frames(ms)[0]);
  }

  lemma {:induction false} FramesOfCalls(streams: Streams)
    requires StreamsOk(streams)
    ensures CallsOk(FramesOf(streams))
    ensures forall id | id in streams ::
      FitsStreams(FramesOf(streams)[id]) && Joined(FramesOf(streams)[id]) == Joined(streams[id])
  {
    forall id | id in streams
      ensures Streamed(Frames(streams[id])) && Frames(streams[id])[0].id == id && AllSupported(Frames(streams[id]))
      ensures Joined(Frames(streams[id])) == Joined(streams[id])
    {
      FramesOfOneCall(streams[id]);
    }
  }

  /** A frame on the wire is one its own call would have sent. */
  lemma {:induction false} LastFrameSendable(crc: Crc, streams: Streams, order: seq<Id>)
    requires StreamsOk(streams) && Schedule(FramesOf(streams), order) && order != []
    ensures var m := Transmit(crc, FramesOf(streams), order).wire[|order| - 1];
            Sendable(m) && WithDefaultArgs(m) == m
  {
    var calls, last, id := FramesOf(streams), |order| - 1, order[|order| - 1];
    FramesOfCalls(streams);
    OkCallsHaveIds(calls);
    TransmitGrows(crc, calls, order);
    var n := Turns(order[..last], id);
    WireOfOneCall(crc, calls, order[..last], id);
    SentIsSendable(crc, streams[id], n);
    SignedAt(crc, calls[id], n);
    assert CallOk(id, calls[id]);
  }

  /** What is on the wire already does not change. */
  lemma {:induction false} WirePrefix(crc: Crc, calls: Calls, order: seq<Id>, i: nat)
    requires IdsOk(calls) && Schedule(calls, order) && i < |order|
    ensures Schedule(calls, order[..i + 1])
    ensures Transmit(crc, calls, order).wire[i] == Transmit(crc, calls, order[..i + 1]).wire[i]
  {
    var last := |order| - 1;
    if i == last {
      assert order[..i + 1] == order;
    } else {
      TransmitGrows(crc, calls, order);
      WirePrefix(crc, calls, order[..last], i);
      assert order[..last][..i + 1] == order[..i + 1];
    }
  }

  lemma {:induction false} EachFrameSendable(crc: Crc, streams: Streams, order: seq<Id>, i: nat)
    requires StreamsOk(streams) && Schedule(FramesOf(streams), order) && i < |order|
    ensures var m := Transmit(crc, FramesOf(streams), order).wire[i];
            Sendable(m) && WithDefaultArgs(m) == m
  {
    FramesOfCalls(streams);
    OkCallsHaveIds(FramesOf(streams));
    WirePrefix(crc, FramesOf(streams), order, i);
    LastFrameSendable(crc, streams, order[..i + 1]);
  }

  lemma {:induction false} MapIsIdentity<T>(f: T -> T, xs: seq<T>)
    requires forall i | 0 <= i < |xs| :: f(xs[i]) == xs[i]
    ensures Map(f, xs) == xs
  {
  }

  lemma {:induction false} SameOverWire(wire: seq<Message>)
    requires forall i | 0 <= i < |wire| :: Sendable(wire[i]) && WithDefaultArgs(wire[i]) == wire[i]
    ensures WriteMessages(wire).Some?
    ensures ReadMessages(|wire|, WriteMessages(wire).value) == Parsed(wire, [])
  {
    MessagesOverWire(wire, []);
    MapIsIdentity(WithDefaultArgs, wire);
    assert WriteMessages(wire).value + [] == WriteMessages(wire).value;
  }

  /** The bytes on the wire decode to the frames sent, whatever the interleaving. */
  lemma {:induction false} InterleavedOverWire(crc: Crc, streams: Streams, order: seq<Id>)
    requires StreamsOk(streams) && Schedule(FramesOf(streams), order)
    ensures var wire := Transmit(crc, FramesOf(streams), order).wire;
            && WriteMessages(wire).Some?
            && ReadMessages(|order|, WriteMessages(wire).value) == Parsed(wire, [])
  {
    var wire := Transmit(crc, FramesOf(streams), order).wire;
    forall i | 0 <= i < |wire| ensures Sendable(wire[i]) && WithDefaultArgs(wire[i]) == wire[i] {
      EachFrameSendable(crc, streams, order, i);
    }
    SameOverWire(wire);
  }

  /** When all calls are through, no table holds anything. */
  lemma {:induction false} NothingLeft(crc: Crc, calls: Calls, order: seq<Id>)
    requires CallsOk(calls) && Schedule(calls, order)
    requires forall id | id in calls :: FitsStreams(calls[id])
    requires forall id | id in calls :: Turns(order, id) == |calls[id]|
    ensures Arrived(crc, Transmit(crc, calls, order).wire) == Receiver(map[], map[])
    ensures Transmit(crc, calls, order).sums == map[]
  {
    TablesAgree(crc, calls, order);
    var r := Arrived(crc, Transmit(crc, calls, order).wire);
    assert r.buffer == map[] by {
      forall id: Id ensures id !in r.buffer { assert !UnderWay(calls, order, id); }
    }
    assert r.sums.Keys == {};
  }

  /** Whether the last frame on the wire is taken, and completes its call if it is that call's last. */
  ghost predicate Taken(crc: Crc, streams: Streams, order: seq<Id>, wire: seq<Message>)
    requires order != [] && wire != []
  {
    var id, reply := order[|order| - 1], ReplyToLast(crc, wire);
    && !reply.Raised?
    && id in streams && |Joined(streams[id])| == MAX_ARGS
    && (Turns(order, id) == |Frames(streams[id])| ==> reply.context == Holding(Joined(streams[id]), true))
  }

  lemma {:induction false} LastFrameTaken(crc: Crc, streams: Streams, order: seq<Id>)
    requires StreamsOk(streams) && Schedule(FramesOf(streams), order) && order != []
    ensures Taken(crc, streams, order, Transmit(crc, FramesOf(streams), order).wire)
  {
    var calls, id := FramesOf(streams), order[|order| - 1];
    FramesOfCalls(streams);
    LastIsMine(crc, calls, order);
    EveryFrameIsTaken(crc, calls, order);
    if Turns(order, id) == |calls[id]| {
      CompleteReply(calls[id], ReplyToLast(crc, Transmit(crc, calls, order).wire));
    }
  }

  /**
   * However the frames of any number of calls are interleaved, the bytes on the wire decode to
   * the frames sent; every one of them is taken; and a call's last frame completes exactly the
   * three arguments that were sent.
   */
  lemma {:induction false} MultiplexedRoundTrip(crc: Crc, streams: Streams, order: seq<Id>)
    requires StreamsOk(streams) && Schedule(FramesOf(streams), order) && order != []
    ensures var wire := Transmit(crc, FramesOf(streams), order).wire;
            && WriteMessages(wire).Some?
            && ReadMessages(|order|, WriteMessages(wire).value) == Parsed(wire, [])
            && Taken(crc, streams, order, wire)
  {
    InterleavedOverWire(crc, streams, order);
    LastFrameTaken(crc, streams, order);
  }
}
