/**
 * The ids of messages (Writer.next_message_id, _enqueue and write of
 * tchannel/tornado/connection.py). An id of 0 stands for one that is still to be drawn.
 */
module MessageIds {
  import opened Bytes
  import opened ReadWriter
  import opened Messages

  const MAX_MESSAGE_ID := 0xFFFF_FFFE

  /** What the `n`-th draw of `next_message_id` on a connection returns; 0 is where the sequence starts. */
  function DrawnId(n: nat): (id: Id)
    ensures id < MAX_MESSAGE_ID
  {
    if n == 0 then 0 else (DrawnId(n - 1) + 1) % MAX_MESSAGE_ID
  }

  lemma {:induction false} Wraps(x: nat)
    requires x < MAX_MESSAGE_ID
    ensures (x + 1) % MAX_MESSAGE_ID == if x + 1 == MAX_MESSAGE_ID then 0 else x + 1
  {
  }

  lemma {:induction false} DrawnLater(m: nat, k: nat)
    requires k < MAX_MESSAGE_ID
    ensures var id := DrawnId(m) + k; DrawnId(m + k) == if id < MAX_MESSAGE_ID then id else id - MAX_MESSAGE_ID
  {
    if k > 0 {
      DrawnLater(m, k - 1);
      Wraps(DrawnId(m + k - 1));
    }
  }

  /** Ids repeat only after MAX_MESSAGE_ID draws. */
  lemma {:induction false} DrawnIdsDiffer(m: nat, n: nat)
    requires m < n < m + MAX_MESSAGE_ID
    ensures DrawnId(m) != DrawnId(n)
  {
    DrawnLater(m, n - m);
  }

  /** Every MAX_MESSAGE_ID-th draw, and no other, is 0. */
  lemma {:induction false} ZeroIsDrawn(n: nat)
    ensures DrawnId(n) == n % 0xFFFF_FFFE
    ensures DrawnId(n) == 0 <==> n % MAX_MESSAGE_ID == 0
  {
    if n > 0 { ZeroIsDrawn(n - 1); }
  }

  // ---------- ids are drawn for messages without one ----------

  /** `message.id or next_message_id()` after so many draws. */
  function Assigned(id: Id, draws: nat): Id { if id == 0 then DrawnId(draws + 1) else id }

  function DrawsAfter(id: Id, draws: nat): nat { if id == 0 then draws + 1 else draws }

  /** The id under which the first frame of a message goes out: `write` assigns it, and then `_enqueue`. */
  function FirstId(id: Id, draws: nat): Id { Assigned(Assigned(id, draws), DrawsAfter(id, draws)) }

  /** No message begins under the id 0, so a message keeps its id exactly if that is not 0. */
  lemma {:induction false} FirstIdIsNotZero(id: Id, draws: nat)
    ensures FirstId(id, draws) != 0
    ensures FirstId(id, draws) == id <==> id != 0
  {
    if Assigned(id, draws) == 0 { DrawnIdsDiffer(draws + 1, draws + 2); }
  }

  /**
   * The id under which frame `k` of a message goes out. `draws(k)` ids have been drawn on the
   * connection before that frame, or before `write` for the first one.
   */
  function FrameId(id: Id, draws: nat -> nat, k: nat): Id {
    if k == 0 then FirstId(id, draws(0)) else Assigned(Assigned(id, draws(0)), draws(k))
  }

  /** The draws that have been made once frame `k` has gone out. */
  function DrawsPast(id: Id, draws: nat -> nat, k: nat): nat {
    var written := Assigned(id, draws(0));
    DrawsAfter(written, if k == 0 then DrawsAfter(id, draws(0)) else draws(k))
  }

  /** A drawn id of a frame is one of the draws made since the message was written. */
  lemma {:induction false} FrameIdIsDrawn(draws: nat -> nat, k: nat) returns (n: nat)
    requires draws(0) <= draws(k) && (k > 0 ==> draws(0) < draws(k))
    ensures draws(0) < n <= DrawsPast(0, draws, k) && FrameId(0, draws, k) == DrawnId(n)
  {
    if k == 0 {
      n := if DrawnId(draws(0) + 1) == 0 then draws(0) + 2 else draws(0) + 1;
    } else {
      n := if DrawnId(draws(0) + 1) == 0 then draws(k) + 1 else draws(0) + 1;
    }
  }

  // ---------- messages put on the wire one by one ----------

  /** The messages as `_enqueue` leaves them, `draws[i]` ids having been drawn before message `i`. */
  function Enqueued(ms: seq<Message>, draws: seq<nat>): (put: seq<Message>)
    requires |draws| == |ms|
    ensures |put| == |ms|
  {
    seq(|ms|, i requires 0 <= i < |ms| => ms[i].(id := Assigned(ms[i].id, draws[i])))
  }

  lemma {:induction false} AssignedIsSendable(m: Message, draws: nat)
    requires Sendable(m)
    ensures Sendable(m.(id := Assigned(m.id, draws)))
  {
    SmallCapacities();
    assert FieldValues(m.(id := Assigned(m.id, draws))) == FieldValues(m);
  }

  /** A run of messages is read back under the ids assigned, and a message that has an id is read back under its own. */
  lemma {:induction false} EnqueuedOverWire(ms: seq<Message>, draws: seq<nat>, rest: Bytes)
    requires |draws| == |ms| && forall i | 0 <= i < |ms| :: Sendable(ms[i])
    ensures var put := Enqueued(ms, draws);
            && WriteMessages(put).Some?
            && ReadMessages(|ms|, WriteMessages(put).value + rest) == Parsed(Decoded(put), rest)
            && forall i | 0 <= i < |ms| ::
                 && put[i] == ms[i].(id := put[i].id)
                 && (put[i].id == ms[i].id <==> ms[i].id != 0 || (draws[i] + 1) % 0xFFFF_FFFE == 0)
  {
    var put := Enqueued(ms, draws);
    forall i | 0 <= i < |ms|
      ensures Sendable(put[i])
      ensures put[i].id == ms[i].id <==> ms[i].id != 0 || (draws[i] + 1) % MAX_MESSAGE_ID == 0
    {
      AssignedIsSendable(ms[i], draws[i]);
      ZeroIsDrawn(draws[i] + 1);
    }
    MessagesOverWire(put, rest);
  }
}
