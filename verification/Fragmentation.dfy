/**
 * The sending side: a call message is cut into frames under the payload budget, and each
 * frame is given the running checksum (tchannel/messages/call_continue.py and
 * MessageFactory.fragment of tchannel/tornado/message_factory.py).
 */
module Fragmentation {
  import opened Wrappers
  import opened Bytes
  import opened ReadWriter
  import opened Messages
  import opened Checksums
  import A = Args

  // ---------- one step of the generator ----------

  predicate WellFormed(m: Message) {
    |m.header| == HeaderCount(m.kind)
  }

  /** The messages the splitter is called with: they have the header fields of their kind. */
  type Sound = m: Message | WellFormed(m)
    witness Message(CallRequestContinue, 0, NONE, [], Checksum(NO_CHECKSUM, None), [])

  function Space(m: Message): int
    requires WellFormed(m)
  {
    MAX_PAYLOAD_SIZE - LengthNoArgs(m)
  }

  datatype Pieces = Pieces(frame: Message, next: Option<Message>)

  /** `fragment`: the message as it is sent, and the message holding what did not fit. */
  function FragmentOnce(m: Message): Pieces
    requires WellFormed(m)
  {
    var cut := A.Split(m.args, Space(m));
    if cut.left >= 0 && cut.rest == [] then
      Pieces(m.(args := cut.kept), None)
    else
      Pieces(m.(args := cut.kept, flags := FRAGMENT),
             Some(Message(m.kind.Continuation(), m.id, m.flags, [], m.checksum, cut.rest)))
  }

  /** The budget of every continue frame is all but six bytes of the payload. */
  lemma {:induction false} ContinueSpace(m: Message)
    requires WellFormed(m) && !m.kind.IsCall()
    ensures MAX_PAYLOAD_SIZE - 6 <= Space(m) <= MAX_PAYLOAD_SIZE - 2
  {
    var schemas, values := FieldSchemas(m.kind), FieldValues(m);
    assert m.header == [];
    assert schemas == [Number(1), ChecksumSchema()] && values == [Num(m.flags), ChecksumValue(m.checksum)];
    assert schemas[1..] == [ChecksumSchema()] && values[1..] == [ChecksumValue(m.checksum)];
    assert schemas[1..][1..] == [] && values[1..][1..] == [];
    assert LengthChain(schemas[1..], values[1..]) == Length(ChecksumSchema(), ChecksumValue(m.checksum));
    LengthOfChain(schemas, values);
  }

  lemma {:induction false} LengthOfChain(links: seq<Schema>, items: seq<Value>)
    requires |items| == |links| && links != []
    ensures LengthChain(links, items) == Length(links[0], items[0]) + LengthChain(links[1..], items[1..])
  {
  }

  /** Every fragment after the first brings the bytes still to be sent down. */
  lemma {:induction false} FragmentShrinks(m: Message)
    requires WellFormed(m) && FragmentOnce(m).next.Some?
    ensures WellFormed(FragmentOnce(m).next.value) && !FragmentOnce(m).next.value.kind.IsCall()
    ensures A.WireLength(FragmentOnce(m).next.value.args) <= A.WireLength(m.args) + 4
    ensures Space(m) >= 0 ==>
      A.WireLength(FragmentOnce(m).next.value.args) + Space(m) <= A.WireLength(m.args) + 6
  {
    A.SplitShrinks(m.args, Space(m));
    if Space(m) >= 0 { A.SplitFillsFrame(m.args, Space(m)); }
  }

  function Effort(m: Message): nat { A.WireLength(m.args) + (if m.kind.IsCall() then 5 else 0) }

  lemma {:induction false} EffortDecreases(m: Message)
    requires WellFormed(m) && FragmentOnce(m).next.Some?
    ensures WellFormed(FragmentOnce(m).next.value)
    ensures Effort(FragmentOnce(m).next.value) < Effort(m)
  {
    FragmentShrinks(m);
    if !m.kind.IsCall() { ContinueSpace(m); }
  }

  /** All frames a message is cut into, before they are signed. */
  function Cut(m: Sound): (frames: seq<Sound>)
    ensures frames != []
    decreases Effort(m)
  {
    var pieces := FragmentOnce(m);
    if pieces.next.None? then [pieces.frame] else
    EffortDecreases(m);
    [pieces.frame] + Cut(pieces.next.value)
  }

  // ---------- the shape of what is sent ----------

  /** The arguments that a run of messages amounts to. */
  function Joined(ms: seq<Message>): A.Args {
    if ms == [] then [] else A.Join(Joined(ms[..|ms| - 1]), ms[|ms| - 1].args)
  }

  lemma {:induction false} JoinedAppend(xs: seq<Message>, ys: seq<Message>)
    ensures Joined(xs + ys) == A.Join(Joined(xs), Joined(ys))
  {
    if ys == [] {
      assert xs + ys == xs;
    } else {
      var last := |ys| - 1;
      JoinedAppend(xs, ys[..last]);
      assert (xs + ys)[..|xs| + last] == xs + ys[..last];
      A.JoinIsAssociative(Joined(xs), Joined(ys[..last]), ys[last].args);
    }
  }

  /** How often, on the way through a message, a kept argument leaves exactly two bytes over. */
  function Residues(m: Message): nat
    requires WellFormed(m)
    decreases Effort(m)
  {
    var here := if A.Residue(m.args, Space(m)) then 1 else 0;
    var pieces := FragmentOnce(m);
    if pieces.next.None? then here else
    EffortDecreases(m);
    here + Residues(pieces.next.value)
  }

  lemma {:induction false} CutStep(m: Message)
    requires WellFormed(m) && FragmentOnce(m).next.Some?
    ensures WellFormed(FragmentOnce(m).next.value)
    ensures Cut(m) == [FragmentOnce(m).frame] + Cut(FragmentOnce(m).next.value)
  {
    EffortDecreases(m);
  }

  /** One of the frames. */
  lemma {:induction false} CutShapeAt(m: Message, i: nat)
    requires WellFormed(m) && i < |Cut(m)|
    ensures Cut(m)[i].kind == (if i == 0 then m.kind else m.kind.Continuation())
    ensures Cut(m)[i].header == (if i == 0 then m.header else [])
    ensures Cut(m)[i].id == m.id && Cut(m)[i].checksum == m.checksum
    ensures Cut(m)[i].flags == if i == |Cut(m)| - 1 then m.flags else FRAGMENT
    decreases Effort(m)
  {
    if FragmentOnce(m).next.Some? {
      CutStep(m);
      if i > 0 {
        EffortDecreases(m);
        CutShapeAt(FragmentOnce(m).next.value, i - 1);
      }
    }
  }

  /**
   * The frames follow the message: the same id and checksum throughout, the message's own
   * kind first and continue messages after it, of a request for a request and of a response for a
   * response; flags 1 on all but the last, which carries the message's own flags.
   */
  lemma {:induction false} CutShape(m: Message)
    requires WellFormed(m)
    ensures Cut(m)[0].kind == m.kind && Cut(m)[0].header == m.header
    ensures forall i | 1 <= i < |Cut(m)| ::
      && Cut(m)[i].header == []
      && Cut(m)[i].kind == (if m.kind in {CallRequest, CallRequestContinue} then CallRequestContinue
                            else CallResponseContinue)
    ensures forall i | 0 <= i < |Cut(m)| :: Cut(m)[i].id == m.id && Cut(m)[i].checksum == m.checksum
    ensures forall i | 0 <= i < |Cut(m)| - 1 :: Cut(m)[i].flags == 1
    ensures Cut(m)[|Cut(m)| - 1].flags == m.flags
  {
    forall i | 0 <= i < |Cut(m)|
      ensures Cut(m)[i].kind == (if i == 0 then m.kind else m.kind.Continuation())
      ensures Cut(m)[i].header == (if i == 0 then m.header else [])
      ensures Cut(m)[i].id == m.id && Cut(m)[i].checksum == m.checksum
      ensures Cut(m)[i].flags == if i == |Cut(m)| - 1 then m.flags else FRAGMENT
    {
      CutShapeAt(m, i);
    }
  }

  /**
   * The frames join to the message's arguments exactly when no cut leaves two bytes over; each
   * cut that does adds one empty argument.
   */
  lemma {:induction false} CutJoins(m: Message)
    requires WellFormed(m)
    ensures Residues(m) == 0 <==> Joined(Cut(m)) == m.args
    ensures |Joined(Cut(m))| == |m.args| + Residues(m)
    decreases Effort(m)
  {
    var pieces := FragmentOnce(m);
    var cut := A.Split(m.args, Space(m));
    A.SplitJoins(m.args, Space(m));
    if pieces.next.None? {
      assert A.Join(cut.kept, []) == cut.kept;
      JoinedOne(pieces.frame);
    } else {
      EffortDecreases(m);
      var next := pieces.next.value;
      CutJoins(next);
      JoinedMore(pieces.frame, Cut(next));
      var rest := Joined(Cut(next));
      RestNeverVanishes(m);
      JoinedLength(cut.kept, rest, next.args);
    }
  }

  lemma {:induction false} RestNeverVanishes(m: Message)
    requires WellFormed(m) && FragmentOnce(m).next.Some?
    ensures FragmentOnce(m).next.value.args == [] ==> m.args == [] && A.Split(m.args, Space(m)).kept == []
  {
    if Space(m) >= 0 { A.SplitFillsFrame(m.args, Space(m)); }
  }

  lemma {:induction false} JoinedLength(kept: A.Args, rest: A.Args, args: A.Args)
    requires |rest| >= |args| && (args == [] ==> kept == [])
    ensures |A.Join(kept, rest)| == |A.Join(kept, args)| + (|rest| - |args|)
    ensures |rest| == |args| ==> (A.Join(kept, rest) == A.Join(kept, args) <==> rest == args)
  {
    if kept != [] && rest != [] && args != [] && A.Join(kept, rest) == A.Join(kept, args) {
      var n := |kept| - 1;
      assert A.Join(kept, rest)[n] == kept[n] + rest[0] && A.Join(kept, args)[n] == kept[n] + args[0];
      assert rest[0] == (kept[n] + rest[0])[|kept[n]|..] && args[0] == (kept[n] + args[0])[|kept[n]|..];
      assert A.Join(kept, rest)[n + 1..] == rest[1..] && A.Join(kept, args)[n + 1..] == args[1..];
      assert rest == [rest[0]] + rest[1..] && args == [args[0]] + args[1..];
    }
  }

  lemma {:induction false} JoinedOne(m: Message)
    ensures Joined([m]) == m.args
  {
    assert [m][..0] == [];
  }

  lemma {:induction false} JoinedMore(m: Message, ms: seq<Message>)
    ensures Joined([m] + ms) == A.Join(m.args, Joined(ms))
  {
    JoinedAppend([m], ms);
    JoinedOne(m);
  }

  // ---------- sizes ----------

  /** A message goes out in one frame exactly if it has no arguments, or they leave more than two bytes over. */
  lemma {:induction false} OneFrame(m: Message)
    requires WellFormed(m)
    ensures |Cut(m)| == 1
       <==> (m.args == [] && Space(m) >= 0) || A.WireLength(m.args) + A.KEY_LENGTH < Space(m)
  {
    A.SplitShiftsNothing(m.args, Space(m));
    if Space(m) >= 0 { A.SplitFillsFrame(m.args, Space(m)); }
    if FragmentOnce(m).next.Some? { CutStep(m); }
  }

  /**
   * Every frame fits in the payload, and every frame but the last wastes at most two bytes.
   */
  lemma {:induction false} FramesFit(m: Message)
    requires WellFormed(m) && Space(m) >= 0
    ensures forall i | 0 <= i < |Cut(m)| ::
      WellFormed(Cut(m)[i]) && A.WireLength(Cut(m)[i].args) <= Space(Cut(m)[i])
    ensures forall i | 0 <= i < |Cut(m)| - 1 ::
      Space(Cut(m)[i]) - A.WireLength(Cut(m)[i].args) <= A.KEY_LENGTH
    decreases Effort(m)
  {
    A.SplitFillsFrame(m.args, Space(m));
    var pieces := FragmentOnce(m);
    SpaceIgnoresFlags(m, pieces.frame);
    if pieces.next.Some? {
      EffortDecreases(m);
      var next := pieces.next.value;
      FragmentShrinks(m);
      ContinueSpace(next);
      FramesFit(next);
    }
  }

  lemma {:induction false} SpaceIgnoresFlags(m: Message, m': Message)
    requires WellFormed(m) && m' == m.(args := m'.args, flags := m'.flags)
    ensures Space(m') == Space(m)
  {
    assert FieldValues(m')[1..] == FieldValues(m)[1..];
    LengthOfChain(FieldSchemas(m.kind), FieldValues(m));
    LengthOfChain(FieldSchemas(m.kind), FieldValues(m'));
  }

  /** No frame has more arguments than the message it was cut from. */
  lemma {:induction false} FramesHaveFewArgs(m: Message)
    requires WellFormed(m)
    ensures forall i | 0 <= i < |Cut(m)| :: |Cut(m)[i].args| <= |m.args|
    decreases Effort(m)
  {
    var pieces := FragmentOnce(m);
    SplitHasFewArgs(m.args, Space(m));
    if pieces.next.Some? {
      EffortDecreases(m);
      FramesHaveFewArgs(pieces.next.value);
    }
  }

  lemma {:induction false} SplitHasFewArgs(args: A.Args, space: int)
    ensures |A.Split(args, space).kept| <= |args| && |A.Split(args, space).rest| <= |args|
    ensures args != [] && space >= A.KEY_LENGTH ==> A.Split(args, space).kept != []
  {
    if args != [] && A.KEY_LENGTH <= space && |args[0]| <= space - A.KEY_LENGTH {
      SplitHasFewArgs(args[1..], space - A.KEY_LENGTH - |args[0]|);
      SplitShiftsAtMost(args, space);
    }
  }

  lemma {:induction false} SplitShiftsAtMost(args: A.Args, space: int)
    requires args != [] && A.KEY_LENGTH <= space && |args[0]| <= space - A.KEY_LENGTH
    requires |A.Split(args[1..], space - A.KEY_LENGTH - |args[0]|).rest| <= |args[1..]|
    ensures |A.Split(args, space).rest| <= |args|
  {
  }

  /**
   * The generator stops, and the number of frames is bounded by the bytes to send: each frame
   * between the first and the last moves at least 65507 of them.
   */
  lemma {:induction false} FrameCount(m: Message)
    requires WellFormed(m)
    ensures !m.kind.IsCall() ==> (|Cut(m)| - 1) * (MAX_PAYLOAD_SIZE - 12) <= A.WireLength(m.args)
    ensures (|Cut(m)| - 2) * (MAX_PAYLOAD_SIZE - 12) <= A.WireLength(m.args) + 4
    decreases Effort(m)
  {
    var pieces := FragmentOnce(m);
    if pieces.next.Some? {
      EffortDecreases(m);
      FragmentShrinks(m);
      FrameCount(pieces.next.value);
      if !m.kind.IsCall() { ContinueSpace(m); }
    }
  }

  // ---------- signing ----------

  /** A checksum of a type that needs a value has one, so that signing does not lengthen the message. */
  predicate SumPresent(m: Message) { m.checksum.kind == NO_CHECKSUM || m.checksum.value.Some? }

  /** Signing leaves the length of the message alone exactly when its checksum value was already there. */
  lemma {:induction false} SigningKeepsLength(crc: Crc, previous: Option<Option<U32>>, m: Message)
    requires WellFormed(m) && Supported(m.checksum.kind)
    ensures WellFormed(Sign(crc, previous, m))
    ensures SumPresent(m) <==> Space(Sign(crc, previous, m)) == Space(m)
    ensures !SumPresent(m) ==> Space(Sign(crc, previous, m)) == Space(m) - 4
  {
    var signed := Sign(crc, previous, m);
    var schemas, n := FieldSchemas(m.kind), |FieldSchemas(m.kind)| - 1;
    LengthOfLast(schemas, FieldValues(m));
    LengthOfLast(schemas, FieldValues(signed));
    assert FieldValues(m)[..n] == FieldValues(signed)[..n];
  }

  lemma {:induction false} LengthOfLast(links: seq<Schema>, items: seq<Value>)
    requires |items| == |links| && links != []
    ensures LengthChain(links, items)
         == LengthChain(links[..|links| - 1], items[..|links| - 1]) + Length(links[|links| - 1], items[|links| - 1])
  {
    var n := |links| - 1;
    if n > 0 {
      LengthOfLast(links[1..], items[1..]);
      assert links[1..][..n - 1] == links[..n][1..] && items[1..][..n - 1] == items[..n][1..];
    }
  }

  predicate AllSupported(frames: seq<Message>) {
    forall i | 0 <= i < |frames| :: Supported(frames[i].checksum.kind)
  }

  /** The sender's checksum table entry once `frames` have been sent. */
  function SumAfter(crc: Crc, frames: seq<Message>): Option<Option<U32>> {
    if frames == [] then None else
    var last := |frames| - 1;
    Remembered(Sign(crc, SumAfter(crc, frames[..last]), frames[last]))
  }

  /** The frames as they leave the sender. */
  function Signed(crc: Crc, frames: seq<Message>): (signed: seq<Message>)
    ensures |signed| == |frames|
  {
    if frames == [] then [] else
    var last := |frames| - 1;
    Signed(crc, frames[..last]) + [Sign(crc, SumAfter(crc, frames[..last]), frames[last])]
  }

  lemma {:induction false} SignedAt(crc: Crc, frames: seq<Message>, i: nat)
    requires i < |frames|
    ensures Signed(crc, frames)[i] == Sign(crc, SumAfter(crc, frames[..i]), frames[i])
    ensures Signed(crc, frames)[..i] == Signed(crc, frames[..i])
  {
    var last := |frames| - 1;
    if i < last {
      SignedAt(crc, frames[..last], i);
      assert frames[..last][..i] == frames[..i];
      assert Signed(crc, frames)[..i] == Signed(crc, frames[..last])[..i];
    }
  }

  function UpdateOf(crc: Crc, kind: nat): Update { if kind == CRC32 then crc.crc32 else crc.crc32c }

  /**
   * The checksum of a run of fragments is the checksum of all the bytes sent so far, however
   * they were cut into frames and arguments.
   */
  lemma {:induction false} ChecksumOfAllBytes(crc: Crc, frames: seq<Message>)
    requires frames != [] && AllSupported(frames)
    requires forall i | 0 <= i < |frames| :: frames[i].checksum.kind == frames[0].checksum.kind
    requires forall i | 0 <= i < |frames| - 1 :: frames[i].flags != NONE
    ensures var kind := frames[0].checksum.kind;
            Signed(crc, frames)[|frames| - 1].checksum == Checksum(kind,
              if kind == NO_CHECKSUM then None
              else Some(FoldBytes(UpdateOf(crc, kind), 0, Concat(Joined(frames)))))
  {
    var last, kind := |frames| - 1, frames[0].checksum.kind;
    var update := UpdateOf(crc, kind);
    var before := Joined(frames[..last]);
    A.JoinKeepsBytes(before, frames[last].args);
    FoldBytesAppend(update, 0, Concat(before), Concat(frames[last].args));
    if last > 0 {
      ChecksumOfAllBytes(crc, frames[..last]);
      SignedAt(crc, frames, last - 1);
      assert frames[..last][..last - 1] == frames[..last - 1];
    } else {
      assert frames[..last] == [];
    }
    var previous := Previous(SumAfter(crc, frames[..last]));
    FoldArgsSeesBytes(update, previous, frames[last].args);
  }
}
