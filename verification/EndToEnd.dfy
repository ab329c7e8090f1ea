/**
 * A call from its messages through frames and bytes to the rebuilt argument streams, alone and
 * among the frames of other calls.
 */
module EndToEnd {
  import opened Wrappers
  import opened Bytes
  import opened ReadWriter
  import opened MessageIds
  import opened Messages
  import opened Checksums
  import opened Fragmentation
  import opened Reassembly
  import A = Args

  // ---------- one call ----------

  /** One message of a call. */
  predicate IsPart(ms: seq<Sound>, i: nat)
    requires i < |ms|
  {
    var m := ms[i];
    && m.kind.IsCall() == (i == 0)
    && m.flags == (if i == |ms| - 1 then NONE else FRAGMENT)
    && m.id == ms[0].id < Capacity(4)
    && m.checksum.kind == ms[0].checksum.kind && Supported(m.checksum.kind) && SumPresent(m)
    && HeaderFits(m) && 0 < |m.args| <= MAX_ARGS
    && Space(m) >= 0
  }

  /** The messages of one call, as the streaming layer hands them to the connection; their id may be 0. */
  predicate IsStreamed(ms: seq<Sound>) {
    ms != [] && forall i {:trigger IsPart(ms, i)} | 0 <= i < |ms| :: IsPart(ms, i)
  }

  /** The messages of one call that has an id, as they come to the message factory. */
  predicate IsCall(ms: seq<Sound>) { IsStreamed(ms) && ms[0].id != 0 }

  /** Every frame of the call, before signing. */
  function Frames(ms: seq<Sound>): seq<Sound> {
    if ms == [] then [] else Frames(ms[..|ms| - 1]) + Cut(ms[|ms| - 1])
  }

  function TotalResidues(ms: seq<Sound>): nat {
    if ms == [] then 0 else TotalResidues(ms[..|ms| - 1]) + Residues(ms[|ms| - 1])
  }

  /** The first frame has room for an argument, and no cut leaves exactly two bytes over. */
  predicate Clean(ms: seq<Sound>)
    requires IsCall(ms)
  {
    Space(ms[0]) >= A.KEY_LENGTH && TotalResidues(ms) == 0
  }

  lemma {:induction false} JoinWithResidues(a: A.Args, r: nat, a': A.Args, b: A.Args, q: nat, b': A.Args)
    requires |a'| == |a| + r && |b'| == |b| + q && b != []
    requires a == [] ==> r == 0
    requires (r == 0 ==> a' == a) && (q == 0 ==> b' == b)
    ensures |A.Join(a', b')| == |A.Join(a, b)| + r + q
    ensures r == 0 && q == 0 ==> A.Join(a', b') == A.Join(a, b)
    ensures A.Join(a, b) != []
  {
  }

  /** The frames of a call join to what its messages join to, plus one argument for each residue. */
  lemma {:induction false} FramesJoin(ms: seq<Sound>)
    requires forall i | 0 <= i < |ms| :: ms[i].args != []
    ensures |Joined(Frames(ms))| == |Joined(ms)| + TotalResidues(ms)
    ensures TotalResidues(ms) == 0 ==> Joined(Frames(ms)) == Joined(ms)
    ensures Joined(ms) == [] <==> ms == []
  {
    if ms != [] {
      var last := |ms| - 1;
      FramesJoin(ms[..last]);
      CutJoins(ms[last]);
      JoinedAppend(Frames(ms[..last]), Cut(ms[last]));
      assert ms[..last] == [] ==> Frames(ms[..last]) == [];
      JoinWithResidues(Joined(ms[..last]), TotalResidues(ms[..last]), Joined(Frames(ms[..last])),
                       ms[last].args, Residues(ms[last]), Joined(Cut(ms[last])));
    }
  }

  /** Only a first frame without room can come without arguments. */
  lemma {:induction false} CutHasArgs(m: Message)
    requires WellFormed(m) && m.args != []
    ensures forall i | 1 <= i < |Cut(m)| :: Cut(m)[i].args != []
    ensures Space(m) >= A.KEY_LENGTH ==> Cut(m)[0].args != []
    ensures Space(m) < A.KEY_LENGTH ==> Cut(m)[0].args == [] && |Cut(m)| > 1
    decreases Effort(m)
  {
    var pieces := FragmentOnce(m);
    SplitHasFewArgs(m.args, Space(m));
    if pieces.next.Some? {
      EffortDecreases(m);
      RestNeverVanishes(m);
      ContinueSpace(pieces.next.value);
      CutHasArgs(pieces.next.value);
    }
  }

  /** What one frame of a call looks like. */
  predicate FrameOk(ms: seq<Sound>, i: nat, frame: Message)
    requires IsCall(ms)
  {
    && frame.kind.IsCall() == (i == 0)
    && frame.id == ms[0].id && frame.checksum.kind == ms[0].checksum.kind
    && Supported(frame.checksum.kind) && SumPresent(frame) && HeaderFits(frame)
    && frame.flags <= FRAGMENT && |frame.args| <= MAX_ARGS && A.WireLength(frame.args) <= Space(frame)
    && (i > 0 || Space(ms[0]) >= A.KEY_LENGTH ==> frame.args != [])
    && (i == 0 && Space(ms[0]) < A.KEY_LENGTH ==> frame.args == [])
  }

  /** Frame `k` of message `j`, which is frame `i` of the call. */
  lemma {:induction false} CutFrameOk(ms: seq<Sound>, j: nat, k: nat, i: nat)
    requires IsCall(ms) && j < |ms| && k < |Cut(ms[j])| && (i == 0 <==> j == 0 && k == 0)
    ensures FrameOk(ms, i, Cut(ms[j])[k])
    ensures Cut(ms[j])[k].flags == if k == |Cut(ms[j])| - 1 then ms[j].flags else FRAGMENT
  {
    var m := ms[j];
    assert IsPart(ms, j) && IsPart(ms, 0);
    CutShape(m);
    FramesFit(m);
    FramesHaveFewArgs(m);
    CutHasArgs(m);
    assert HeaderFits(Cut(m)[k]);
  }

  lemma {:induction false} FramesGrow(ms: seq<Sound>, n: nat)
    requires 0 < n <= |ms|
    ensures Frames(ms[..n]) == Frames(ms[..n - 1]) + Cut(ms[n - 1])
  {
    assert ms[..n][..n - 1] == ms[..n - 1];
  }

  function Flat<T>(parts: seq<seq<T>>): seq<T> {
    if parts == [] then [] else Flat(parts[..|parts| - 1]) + parts[|parts| - 1]
  }

  /** Where an element of the parts comes from. */
  lemma {:induction false} FindIn<T>(parts: seq<seq<T>>, i: nat) returns (j: nat, k: nat)
    requires i < |Flat(parts)| && forall p | 0 <= p < |parts| :: parts[p] != []
    ensures j < |parts| && k < |parts[j]| && Flat(parts)[i] == parts[j][k]
    ensures i == 0 <==> j == 0 && k == 0
    ensures i == |Flat(parts)| - 1 <==> j == |parts| - 1 && k == |parts[j]| - 1
  {
    var last := |parts| - 1;
    var before := Flat(parts[..last]);
    if i < |before| {
      j, k := FindIn(parts[..last], i);
    } else {
      j, k := last, i - |before|;
      if last > 0 { assert parts[..last][last - 1] == parts[last - 1] != []; }
    }
  }

  function Cuts(ms: seq<Sound>): (parts: seq<seq<Message>>)
    ensures |parts| == |ms| && forall j | 0 <= j < |ms| :: parts[j] == Cut(ms[j])
  {
    seq(|ms|, j requires 0 <= j < |ms| => Cut(ms[j]))
  }

  lemma {:induction false} FlatGrows<T>(parts: seq<seq<T>>, part: seq<T>)
    ensures Flat(parts + [part]) == Flat(parts) + part
  {
    assert (parts + [part])[..|parts|] == parts;
  }

  lemma {:induction false} CutsGrow(ms: seq<Sound>)
    requires ms != []
    ensures Cuts(ms) == Cuts(ms[..|ms| - 1]) + [Cut(ms[|ms| - 1])]
  {
  }

  lemma {:induction false} FramesAreFlat(ms: seq<Sound>)
    ensures Frames(ms) == Flat(Cuts(ms))
  {
    if ms == [] {
      assert Cuts(ms) == [];
    } else {
      var last := |ms| - 1;
      FramesAreFlat(ms[..last]);
      CutsGrow(ms);
      FlatGrows(Cuts(ms[..last]), Cut(ms[last]));
    }
  }

  /** Frame `i` of the call is frame `k` of message `j`. */
  lemma {:induction false} FindFrame(ms: seq<Sound>, i: nat) returns (j: nat, k: nat)
    requires i < |Frames(ms)|
    ensures j < |ms| && k < |Cut(ms[j])| && Frames(ms)[i] == Cut(ms[j])[k]
    ensures i == 0 <==> j == 0 && k == 0
    ensures i == |Frames(ms)| - 1 <==> j == |ms| - 1 && k == |Cut(ms[j])| - 1
  {
    FramesAreFlat(ms);
    j, k := FindIn(Cuts(ms), i);
  }

  /** One of the frames; only the very last ends the call. */
  lemma {:induction false} FrameAt(ms: seq<Sound>, i: nat)
    requires IsCall(ms) && i < |Frames(ms)|
    ensures FrameOk(ms, i, Frames(ms)[i])
    ensures Frames(ms)[i].flags == if i == |Frames(ms)| - 1 then NONE else FRAGMENT
  {
    var j, k := FindFrame(ms, i);
    CutFrameOk(ms, j, k, i);
    assert IsPart(ms, j);
  }

  lemma {:induction false} FramesStart(ms: seq<Sound>, n: nat)
    requires n <= |ms|
    ensures Frames(ms[..n]) == [] <==> n == 0
  {
    if n > 0 { FramesGrow(ms, n); }
  }

  lemma {:induction false} AllFramesOk(ms: seq<Sound>)
    requires IsCall(ms)
    ensures Frames(ms) != [] && AllSupported(Frames(ms))
    ensures forall i {:trigger FrameOk(ms, i, Frames(ms)[i])} | 0 <= i < |Frames(ms)| :: FrameOk(ms, i, Frames(ms)[i])
    ensures forall i | 0 <= i < |Frames(ms)| :: Frames(ms)[i].flags == if i == |Frames(ms)| - 1 then NONE else FRAGMENT
  {
    assert ms[..|ms|] == ms;
    FramesStart(ms, |ms|);
    forall i | 0 <= i < |Frames(ms)|
      ensures FrameOk(ms, i, Frames(ms)[i])
      ensures Frames(ms)[i].flags == if i == |Frames(ms)| - 1 then NONE else FRAGMENT
    {
      FrameAt(ms, i);
    }
  }

  /** Decoded frames are a stream that the receiver's laws are about. */
  lemma {:induction false} DecodedFramesStreamed(ms: seq<Sound>)
    requires IsCall(ms)
    ensures var decoded := Decoded(Frames(ms));
            Streamed(decoded) && AllSupported(decoded) && |decoded[0].args| <= MAX_ARGS
  {
    AllFramesOk(ms);
    var frames, decoded := Frames(ms), Decoded(Frames(ms));
    assert FrameOk(ms, 0, frames[0]);
    forall i | 0 <= i < |decoded|
      ensures decoded[i] == WithDefaultArgs(frames[i])
      ensures decoded[i].args != [] && decoded[i].kind.IsCall() == (i == 0)
      ensures decoded[i].checksum.kind == ms[0].checksum.kind && decoded[i].id == ms[0].id
    {
      assert FrameOk(ms, i, frames[i]);
    }
  }

  lemma {:induction false} DecodedRest(ms: seq<Sound>)
    requires IsCall(ms)
    ensures Frames(ms) != []
    ensures Decoded(Frames(ms)) == [WithDefaultArgs(Frames(ms)[0])] + Frames(ms)[1..]
    ensures Frames(ms)[0].kind.IsCall()
    ensures Frames(ms)[0].args == [] <==> Space(ms[0]) < A.KEY_LENGTH
  {
    AllFramesOk(ms);
    var frames := Frames(ms);
    assert FrameOk(ms, 0, frames[0]);
    forall i | 1 <= i < |frames| ensures Decoded(frames)[i] == frames[i] { assert FrameOk(ms, i, frames[i]); }
  }

  /** What the receiver joins: an empty first frame has become three empty arguments. */
  lemma {:induction false} DecodedJoin(ms: seq<Sound>)
    requires IsCall(ms)
    ensures Space(ms[0]) >= A.KEY_LENGTH ==> Decoded(Frames(ms)) == Frames(ms)
    ensures Space(ms[0]) < A.KEY_LENGTH ==>
      |Joined(Decoded(Frames(ms)))| == |Joined(Frames(ms))| + 2
  {
    DecodedRest(ms);
    var frames := Frames(ms);
    assert frames == [frames[0]] + frames[1..];
    if Space(ms[0]) < A.KEY_LENGTH {
      RestHasArgs(ms);
      DefaultsJoin(frames[0], frames[1..]);
    }
  }

  lemma {:induction false} DefaultsJoin(first: Message, rest: seq<Message>)
    requires first.kind.IsCall() && first.args == [] && Joined(rest) != []
    ensures |Joined([WithDefaultArgs(first)] + rest)| == |Joined([first] + rest)| + 2
  {
    JoinedMore(WithDefaultArgs(first), rest);
    JoinedMore(first, rest);
  }

  /** A first frame without room leaves all arguments to the frames after it. */
  lemma {:induction false} RestHasArgs(ms: seq<Sound>)
    requires IsCall(ms) && Space(ms[0]) < A.KEY_LENGTH
    ensures Frames(ms) != [] && Joined(Frames(ms)[1..]) != []
  {
    AllFramesOk(ms);
    assert FrameOk(ms, 0, Frames(ms)[0]);
    FramesNotEmpty(ms);
    EmptyFirst(Frames(ms));
  }

  lemma {:induction false} FramesNotEmpty(ms: seq<Sound>)
    requires IsCall(ms)
    ensures Joined(Frames(ms)) != []
  {
    MessagesHaveArgs(ms);
    FramesJoin(ms);
  }

  lemma {:induction false} EmptyFirst(frames: seq<Message>)
    requires frames != [] && frames[0].args == []
    ensures Joined(frames) == Joined(frames[1..])
  {
    assert frames == [frames[0]] + frames[1..];
    JoinedMore(frames[0], frames[1..]);
  }

  // ---------- the ids under which the frames go out ----------

  /** The frames of a message under the ids they are written with. */
  function NumberedCut(m: Sound, draws: nat -> nat): (frames: seq<Message>)
    ensures |frames| == |Cut(m)|
  {
    var cut := Cut(m);
    seq(|cut|, k requires 0 <= k < |cut| => cut[k].(id := FrameId(m.id, draws, k)))
  }

  /** The draws before the frames of message `j`. */
  function DrawsFor(draws: (nat, nat) -> nat, j: nat): nat -> nat { k => draws(j, k) }

  /** The frames of a call; `draws(j, k)` ids have been drawn before frame `k` of message `j`. */
  function Numbered(ms: seq<Sound>, draws: (nat, nat) -> nat): seq<Message> {
    if ms == [] then [] else
    var last := |ms| - 1;
    Numbered(ms[..last], draws) + NumberedCut(ms[last], DrawsFor(draws, last))
  }

  lemma {:induction false} CutKeepsId(m: Sound, draws: nat -> nat)
    requires m.id != 0
    ensures NumberedCut(m, draws) == Cut(m)
  {
    CutShape(m);
  }

  lemma {:induction false} NumberedOneMore(ms: seq<Sound>, draws: (nat, nat) -> nat)
    requires ms != [] && Numbered(ms[..|ms| - 1], draws) == Frames(ms[..|ms| - 1])
    requires NumberedCut(ms[|ms| - 1], DrawsFor(draws, |ms| - 1)) == Cut(ms[|ms| - 1])
    ensures Numbered(ms, draws) == Frames(ms)
  {
  }

  lemma {:induction false} NumberedIsFrames(ms: seq<Sound>, draws: (nat, nat) -> nat)
    requires forall i | 0 <= i < |ms| :: ms[i].id != 0
    ensures Numbered(ms, draws) == Frames(ms)
  {
    if ms != [] {
      var last := |ms| - 1;
      NumberedIsFrames(ms[..last], draws);
      CutKeepsId(ms[last], DrawsFor(draws, last));
      NumberedOneMore(ms, draws);
    }
  }

  lemma {:induction false} FirstNumbered(ms: seq<Sound>, draws: (nat, nat) -> nat)
    requires ms != []
    ensures Numbered(ms, draws) != [] && Numbered(ms, draws)[0].id == FirstId(ms[0].id, draws(0, 0))
  {
    var last := |ms| - 1;
    if last > 0 { FirstNumbered(ms[..last], draws); } else { assert Numbered(ms[..0], draws) == []; }
  }

  /** Whatever else is written in between, the frames of a call keep its id if and only if that is not 0. */
  lemma {:induction false} FramesKeepId(ms: seq<Sound>, draws: (nat, nat) -> nat)
    requires ms != [] && forall i | 0 <= i < |ms| :: ms[i].id == ms[0].id
    ensures (forall i | 0 <= i < |Numbered(ms, draws)| :: Numbered(ms, draws)[i].id == ms[0].id) <==> ms[0].id != 0
    ensures ms[0].id != 0 ==> Numbered(ms, draws) == Frames(ms)
  {
    FirstNumbered(ms, draws);
    FirstIdIsNotZero(ms[0].id, draws(0, 0));
    if ms[0].id != 0 {
      NumberedIsFrames(ms, draws);
      forall i | 0 <= i < |Frames(ms)| ensures Frames(ms)[i].id == ms[0].id {
        var j, k := FindFrame(ms, i);
        CutShape(ms[j]);
      }
    }
  }

  lemma {:induction false} CutUnderId(m: Message, id: Id, k: nat)
    requires WellFormed(m) && k < |Cut(m)|
    ensures |Cut(m.(id := id))| == |Cut(m)| && Cut(m.(id := id))[k] == Cut(m)[k].(id := id)
    decreases Effort(m)
  {
    SameSpace(m, id);
    if FragmentOnce(m).next.Some? {
      CutStep(m);
      CutStep(m.(id := id));
      EffortDecreases(m);
      CutUnderId(FragmentOnce(m).next.value, id, if k > 0 then k - 1 else 0);
    }
  }

  lemma {:induction false} SameSpace(m: Message, id: Id)
    requires WellFormed(m)
    ensures WellFormed(m.(id := id)) && Space(m.(id := id)) == Space(m)
  {
    assert FieldValues(m.(id := id)) == FieldValues(m);
  }

  /**
   * The frames of one message without an id all go out under the id drawn for it, unless that is 0
   * again. A call in one message arrives whole then, but as a call of that id.
   */
  lemma {:induction false} OneMessageMoves(m: Sound, draws: nat -> nat)
    requires m.id == 0 && (draws(0) + 1) % MAX_MESSAGE_ID != 0
    ensures NumberedCut(m, draws) == Cut(m.(id := DrawnId(draws(0) + 1)))
  {
    var id := DrawnId(draws(0) + 1);
    ZeroIsDrawn(draws(0) + 1);
    CutUnderId(m, id, 0);
    forall k | 0 <= k < |Cut(m)| ensures NumberedCut(m, draws)[k] == Cut(m.(id := id))[k] {
      CutUnderId(m, id, k);
      assert FrameId(0, draws, k) == id;
    }
  }

  // ---------- signing and decoding commute ----------

  lemma {:induction false} SignDefault(crc: Crc, previous: Option<Option<U32>>, m: Message)
    ensures Sign(crc, previous, WithDefaultArgs(m)) == WithDefaultArgs(Sign(crc, previous, m))
  {
    if m.kind.IsCall() && m.args == [] {
      var empties: A.Args := [[], [], []];
      assert empties[1..] == [[], []] && empties[1..][1..] == [[]] && empties[1..][1..][1..] == [];
      forall update: Update, sum: U32 ensures FoldArgs(update, sum, empties) == sum {
        assert FoldBytes(update, sum, []) == sum;
        assert FoldArgs(update, sum, empties) == FoldArgs(update, sum, empties[1..]);
        assert FoldArgs(update, sum, empties[1..]) == FoldArgs(update, sum, empties[1..][1..]);
      }
    }
  }

  lemma {:induction false} DecodedSigned(crc: Crc, frames: seq<Message>)
    ensures Decoded(Signed(crc, frames)) == Signed(crc, Decoded(frames))
    ensures SumAfter(crc, Decoded(frames)) == SumAfter(crc, frames)
  {
    if frames == [] {
    } else {
      var last := |frames| - 1;
      DecodedSigned(crc, frames[..last]);
      assert Decoded(frames)[..last] == Decoded(frames[..last]);
      SignDefault(crc, SumAfter(crc, frames[..last]), frames[last]);
      MapAppend(WithDefaultArgs, Signed(crc, frames[..last]), Sign(crc, SumAfter(crc, frames[..last]), frames[last]));
    }
  }

  lemma {:induction false} MapAppend<T, U>(f: T -> U, xs: seq<T>, x: T)
    ensures Map(f, xs + [x]) == Map(f, xs) + [f(x)]
  {
  }

  // ---------- the round trip ----------

  /** The frames put on the wire for a call. */
  function Sent(crc: Crc, ms: seq<Sound>): seq<Message> { Signed(crc, Frames(ms)) }

  /** The frames as the peer decodes them. */
  function Arriving(crc: Crc, ms: seq<Sound>): seq<Message> { Signed(crc, Decoded(Frames(ms))) }

  lemma {:induction false} SentIsSendable(crc: Crc, ms: seq<Sound>, i: nat)
    requires IsCall(ms) && i < |Frames(ms)|
    ensures Sendable(Sent(crc, ms)[i])
  {
    AllFramesOk(ms);
    assert IsPart(ms, 0);
    var frames := Frames(ms);
    assert FrameOk(ms, i, frames[i]);
    SignedAt(crc, frames, i);
    SigningKeepsLength(crc, SumAfter(crc, frames[..i]), frames[i]);
    SmallCapacities();
  }

  /** The bytes that signing adds in front of the arguments. */
  function SigningAdds(m: Message): nat { if SumPresent(m) then 0 else 4 }

  /**
   * The first frame of a message that begins a call can be written if and only if what it keeps
   * still fits once it is signed. When more frames follow it is filled to within two bytes, so
   * it can be written only if its checksum value was there before it was cut.
   */
  lemma {:induction false} FirstFrameMustFit(crc: Crc, m: Sound)
    requires m.kind.IsCall() && HeaderFits(m) && m.id < Capacity(4) && m.flags <= FRAGMENT && |m.args| <= MAX_ARGS
    requires Supported(m.checksum.kind)
    ensures WriteMessage(Sign(crc, None, Cut(m)[0])).Some?
       <==> A.WireLength(FragmentOnce(m).frame.args) + SigningAdds(m) <= Space(m)
    ensures FragmentOnce(m).next.Some? ==>
      (WriteMessage(Sign(crc, None, Cut(m)[0])).Some? <==> Space(m) >= 0 && SumPresent(m))
  {
    var frame := FragmentOnce(m).frame;
    var signed := Sign(crc, None, frame);
    SmallCapacities();
    SpaceIgnoresFlags(m, frame);
    SigningKeepsLength(crc, None, frame);
    assert HeaderFits(signed);
    if Space(m) >= 0 { A.SplitFillsFrame(m.args, Space(m)); }
    FirstPieces(m);
    MessageFits(signed);
  }

  /**
   * With its checksum value there, it can be written if and only if the header leaves the payload
   * any room; if not, nothing of the call can be sent.
   */
  lemma {:induction false} HeaderMustFit(crc: Crc, m: Sound)
    requires m.kind.IsCall() && HeaderFits(m) && m.id < Capacity(4) && m.flags <= FRAGMENT && |m.args| <= MAX_ARGS
    requires Supported(m.checksum.kind) && SumPresent(m)
    ensures WriteMessage(Sign(crc, None, Cut(m)[0])).Some? <==> Space(m) >= 0
  {
    FirstFrameMustFit(crc, m);
    if Space(m) >= 0 { A.SplitFillsFrame(m.args, Space(m)); }
  }

  lemma {:induction false} FirstPieces(m: Sound)
    requires |m.args| <= MAX_ARGS
    ensures var frame := FragmentOnce(m).frame;
            && |frame.args| <= MAX_ARGS && (Space(m) < 0 ==> frame.args == [])
            && forall i | 0 <= i < |frame.args| :: |frame.args[i]| < Capacity(A.KEY_LENGTH)
  {
    var kept := A.Split(m.args, Space(m)).kept;
    SmallCapacities();
    SplitHasFewArgs(m.args, Space(m));
    if Space(m) >= 0 {
      A.SplitFillsFrame(m.args, Space(m));
      forall i | 0 <= i < |kept| ensures |kept[i]| < Capacity(A.KEY_LENGTH) { EachArgIsShorter(kept, i); }
    }
  }

  /** Every frame fits its 16-bit size field, and the bytes sent are read back as `Arriving`. */
  lemma {:induction false} FramesOverWire(crc: Crc, ms: seq<Sound>, rest: Bytes)
    requires IsCall(ms)
    ensures WriteMessages(Sent(crc, ms)).Some?
    ensures ReadMessages(|Frames(ms)|, WriteMessages(Sent(crc, ms)).value + rest) == Parsed(Arriving(crc, ms), rest)
  {
    forall i | 0 <= i < |Frames(ms)| ensures Sendable(Sent(crc, ms)[i]) { SentIsSendable(crc, ms, i); }
    MessagesOverWire(Sent(crc, ms), rest);
    DecodedSigned(crc, Frames(ms));
  }

  /**
   * The frames that arrive are put together by `build` to exactly the three arguments sent, with
   * every stream closed and nothing remembered, if and only if the first frame had room for an
   * argument and no cut left two bytes over. Otherwise some frame makes `build` raise.
   */
  lemma {:induction false} CallRoundTrip(crc: Crc, ms: seq<Sound>, args: A.Args)
    requires IsCall(ms) && Joined(ms) == args && |args| == MAX_ARGS
    ensures Arriving(crc, ms) != []
    ensures Clean(ms) <==> NothingRaised(crc, Arriving(crc, ms))
    ensures Clean(ms) ==> After(crc, Arriving(crc, ms)) == NOTHING
    ensures Clean(ms) ==>
      LastReply(crc, Arriving(crc, ms)) in {Started(Holding(args, true)), Continued(Holding(args, true))}
  {
    DecodedFramesStreamed(ms);
    DecodedJoin(ms);
    MessagesHaveArgs(ms);
    FramesJoin(ms);
    var decoded := Decoded(Frames(ms));
    GetsThrough(crc, decoded);
    if Clean(ms) { CallCompletes(crc, decoded); }
  }

  lemma {:induction false} MessagesHaveArgs(ms: seq<Sound>)
    requires IsCall(ms)
    ensures forall i | 0 <= i < |ms| :: ms[i].args != []
  {
    forall i | 0 <= i < |ms| ensures ms[i].args != [] { assert IsPart(ms, i); }
  }

  lemma {:induction false} CallCompletes(crc: Crc, frames: seq<Message>)
    requires Streamed(frames) && AllSupported(frames) && |Joined(frames)| <= MAX_ARGS
    ensures 0 < |Joined(frames)|
    ensures var args := Joined(frames);
            && After(crc, Signed(crc, frames)) == NOTHING
            && LastReply(crc, Signed(crc, frames)) in {Started(Holding(args, true)), Continued(Holding(args, true))}
  {
    var wire := Signed(crc, frames);
    assert frames[..|frames|] == frames && wire[..|wire|] == wire;
    StateAfter(crc, frames, |frames|);
    LastForgets(crc, frames);
  }

  /** Both checksum tables forget the id at the frame that ends the call. */
  lemma {:induction false} LastForgets(crc: Crc, frames: seq<Message>)
    requires Streamed(frames)
    ensures SumAfter(crc, frames) == None
    ensures forall k | 0 < k < |frames| :: SumAfter(crc, frames[..k]).Some?
  {
    forall k | 0 < k < |frames| ensures SumAfter(crc, frames[..k]).Some? {
      assert frames[..k][k - 1].flags == FRAGMENT;
    }
  }
}
