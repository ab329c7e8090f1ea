/**
 * Calls at the edge of what fits: for each way in which a call can fail to arrive, a call that
 * does.
 */
module FailingCalls {
  import opened Wrappers
  import opened Bytes
  import opened ReadWriter
  import opened Messages
  import opened Checksums
  import opened Fragmentation
  import opened Reassembly
  import opened EndToEnd
  import opened MessageIds
  import opened Multiplexing
  import A = Args
  import F = MessageFactory

  function Zeros(n: nat): (b: Bytes)
    ensures |b| == n
  {
    seq(n, _ => 0)
  }

  const NO_TRACING := List([Num(0), Num(0), Num(0), Num(0)])

  lemma {:induction false} TracingLength()
    ensures Length(TracingSchema(), NO_TRACING) == 25 && Fits(TracingSchema(), NO_TRACING)
  {
    var links, items := TracingSchema().links, NO_TRACING.items;
    FourLinks(links, items);
    assert forall i | 0 <= i < 4 :: Fits(links[i], items[i]);
  }

  lemma {:induction false} NoHeaders()
    ensures Length(HeadersSchema(), List([])) == 1 && Fits(HeadersSchema(), List([]))
  {
  }

  lemma {:induction false} ChecksumLength(checksum: Checksum)
    requires checksum.kind == CRC32C
    ensures Length(ChecksumSchema(), ChecksumValue(checksum)) == if checksum.value.Some? then 5 else 1
  {
  }

  lemma {:induction false} FirstFit(links: seq<Schema>, items: seq<Value>, n: nat)
    requires |links| == |items| == n + 1 && 2 <= n <= 3
    requires Fits(links[0], items[0]) && Fits(links[1], items[1]) && Fits(links[2], items[2])
    requires Fits(links[n], items[n])
    ensures forall i | 0 <= i < |items| :: Fits(links[i], items[i])
  {
  }

  // ---------- a response whose first argument leaves two bytes over ----------

  function Response(checksum: Checksum, args: A.Args): Sound {
    Message(CallResponse, 1, NONE, [Num(0), NO_TRACING, List([])], checksum, args)
  }

  lemma {:induction false} ResponseSpace(checksum: Checksum, args: A.Args)
    requires checksum.kind == CRC32C
    ensures HeaderFits(Response(checksum, args))
    ensures Space(Response(checksum, args)) == if checksum.value.Some? then 65486 else 65490
  {
    var m := Response(checksum, args);
    ResponseHeaderFits(checksum, args);
    ResponseLinks();
    assert FieldValues(m) == [Num(0), Num(0), NO_TRACING, List([]), ChecksumValue(checksum)];
    ResponseLength(FieldSchemas(CallResponse), FieldValues(m), checksum);
  }

  lemma {:induction false} ResponseLinks()
    ensures FieldSchemas(CallResponse) == [Number(1), Number(1), TracingSchema(), HeadersSchema(), ChecksumSchema()]
  {
  }

  lemma {:induction false} ResponseHeaderFits(checksum: Checksum, args: A.Args)
    ensures HeaderFits(Response(checksum, args))
  {
    TracingLength();
    NoHeaders();
    var header := Response(checksum, args).header;
    FirstFit(HeaderSchemas(CallResponse), header, 2);
  }

  lemma {:induction false} ResponseLength(links: seq<Schema>, items: seq<Value>, checksum: Checksum)
    requires |items| == |links| == 5 && checksum.kind == CRC32C
    requires links == [Number(1), Number(1), TracingSchema(), HeadersSchema(), ChecksumSchema()]
    requires items[2] == NO_TRACING && items[3] == List([]) && items[4] == ChecksumValue(checksum)
    ensures LengthChain(links, items) == if checksum.value.Some? then 33 else 29
  {
    TracingLength();
    NoHeaders();
    ChecksumLength(checksum);
    FiveLinks(links, items);
  }

  lemma {:induction false} FiveLinks(links: seq<Schema>, items: seq<Value>)
    requires |items| == |links| == 5
    ensures LengthChain(links, items) == Length(links[0], items[0]) + Length(links[1], items[1])
                                       + Length(links[2], items[2]) + Length(links[3], items[3])
                                       + Length(links[4], items[4])
  {
    LengthFrom(links, items, 0);
    FourLinks(links[1..], items[1..]);
    assert links[0..] == links && items[0..] == items;
  }

  lemma {:induction false} OneMessage(m: Sound)
    requires m.kind.IsCall() && m.flags == NONE && 0 < m.id < Capacity(4) && Supported(m.checksum.kind) && SumPresent(m)
    requires HeaderFits(m) && |m.args| == MAX_ARGS && Space(m) >= 0
    ensures IsCall([m]) && Joined([m]) == m.args && TotalResidues([m]) == Residues(m)
  {
    assert IsPart([m], 0);
    JoinedOne(m);
    assert [m][..0] == [];
  }

  /** A response with room for its arguments, which nevertheless does not arrive. */
  lemma {:induction false} ResidueBreaksCall(crc: Crc) returns (m: Sound)
    ensures IsCall([m]) && |Joined([m])| == MAX_ARGS && Space(m) >= A.KEY_LENGTH
    ensures !Clean([m]) && !NothingRaised(crc, Arriving(crc, [m]))
  {
    var args: A.Args := [Zeros(65482), [], []];
    m := Response(Checksum(CRC32C, Some(0)), args);
    ResponseSpace(m.checksum, args);
    SmallCapacities();
    OneMessage(m);
    assert args[..1] == [args[0]] && args[..1][1..] == [];
    assert A.LeavesKeyAfter(args, Space(m), 0);
    assert Residues(m) > 0;
    CallRoundTrip(crc, [m], args);
  }

  // ---------- a request whose header leaves no room ----------

  function Pair(n: nat): Value { List([Text(Zeros(255)), Text(Zeros(n))]) }

  function Pairs(count: nat): (vs: seq<Value>)
    ensures |vs| == count && forall i | 0 <= i < count :: vs[i] == Pair(255)
  {
    if count == 0 then [] else [Pair(255)] + Pairs(count - 1)
  }

  lemma {:induction false} PairLength(n: nat)
    requires n <= 255
    ensures Length(HeadersSchema().pair, Pair(n)) == 257 + n && Fits(HeadersSchema().pair, Pair(n))
  {
    var links, items := HeadersSchema().pair.links, Pair(n).items;
    SmallCapacities();
    LengthFrom(links, items, 0);
    LengthFrom(links, items, 1);
    assert links[0..] == links && items[0..] == items && links[2..] == [] && items[2..] == [];
  }

  lemma {:induction false} PairsLength(count: nat, n: nat)
    requires n <= 255
    ensures LengthEach(HeadersSchema().pair, [Pair(n)] + Pairs(count)) == 257 + n + 512 * count
  {
    var each := [Pair(n)] + Pairs(count);
    PairLength(n);
    assert each[1..] == Pairs(count);
    if count > 0 {
      PairsLength(count - 1, 255);
      assert Pairs(count) == [Pair(255)] + Pairs(count - 1);
    }
  }

  function Request(headers: Value): Sound {
    Message(CallRequest, 1, NONE, [Num(0), NO_TRACING, Text([]), headers], Checksum(CRC32C, Some(0)), [[], [], []])
  }

  lemma {:induction false} RequestSpace(headers: Value)
    requires Fits(HeadersSchema(), headers)
    ensures HeaderFits(Request(headers))
    ensures Space(Request(headers)) == MAX_PAYLOAD_SIZE - 36 - Length(HeadersSchema(), headers)
  {
    var m := Request(headers);
    RequestHeaderFits(headers);
    RequestLinks();
    assert FieldValues(m) == [Num(0), Num(0), NO_TRACING, Text([]), headers, ChecksumValue(m.checksum)];
    RequestLength(FieldSchemas(CallRequest), FieldValues(m));
  }

  lemma {:induction false} RequestLinks()
    ensures FieldSchemas(CallRequest)
         == [Number(1), Number(4), TracingSchema(), Blob(1), HeadersSchema(), ChecksumSchema()]
  {
  }

  lemma {:induction false} RequestHeaderFits(headers: Value)
    requires Fits(HeadersSchema(), headers)
    ensures HeaderFits(Request(headers))
  {
    TracingLength();
    var schemas, header := HeaderSchemas(CallRequest), Request(headers).header;
    FirstFit(schemas, header, 3);
  }

  lemma {:induction false} RequestLength(links: seq<Schema>, items: seq<Value>)
    requires |items| == |links| == 6
    requires links[0] == Number(1) && links[1] == Number(4) && links[2] == TracingSchema() && links[3] == Blob(1)
    requires links[5] == ChecksumSchema()
    requires items[2] == NO_TRACING && items[3] == Text([]) && items[5] == ChecksumValue(Checksum(CRC32C, Some(0)))
    ensures LengthChain(links, items) == 36 + Length(links[4], items[4])
  {
    TracingLength();
    ChecksumLength(Checksum(CRC32C, Some(0)));
    LengthFrom(links, items, 0);
    FiveLinks(links[1..], items[1..]);
    assert links[0..] == links && items[0..] == items;
  }

  /** 128 header pairs, which take 65282 bytes and `n` more. */
  function LongHeaders(n: nat): Value { List([Pair(n)] + Pairs(127)) }

  /** A request with these headers. */
  lemma {:induction false} LongRequestSpace(n: nat)
    requires n <= 255
    ensures HeaderFits(Request(LongHeaders(n))) && Space(Request(LongHeaders(n))) == 201 - n
  {
    LongHeadersFit(n);
    PairsLength(127, n);
    RequestSpace(LongHeaders(n));
  }

  lemma {:induction false} LongHeadersFit(n: nat)
    requires n <= 255
    ensures Fits(HeadersSchema(), LongHeaders(n))
  {
    var each := [Pair(n)] + Pairs(127);
    SmallCapacities();
    forall i | 0 <= i < |each| ensures Fits(HeadersSchema().pair, each[i]) {
      PairLength(if i == 0 then n else 255);
    }
  }

  /** A request that cannot be sent at all: its header alone is too long for a frame. */
  lemma {:induction false} HeaderTooLong(crc: Crc) returns (m: Sound)
    ensures m.kind.IsCall() && HeaderFits(m) && |m.args| == MAX_ARGS && Space(m) == -1
    ensures WriteMessage(Sign(crc, None, Cut(m)[0])).None?
  {
    m := Request(LongHeaders(202));
    LongRequestSpace(202);
    SmallCapacities();
    HeaderMustFit(crc, m);
  }

  /** A request that is sent but does not arrive: its header leaves one byte, too little for an argument. */
  lemma {:induction false} NoRoomForArgument(crc: Crc) returns (m: Sound)
    ensures IsCall([m]) && |Joined([m])| == MAX_ARGS && Space(m) == 1
    ensures WriteMessages(Sent(crc, [m])).Some?
    ensures !Clean([m]) && !NothingRaised(crc, Arriving(crc, [m]))
  {
    m := Request(LongHeaders(200));
    LongRequestSpace(200);
    SmallCapacities();
    OneMessage(m);
    FramesOverWire(crc, [m], []);
    CallRoundTrip(crc, [m], m.args);
  }

  // ---------- a response that is cut up before it has a checksum ----------

  /** A response whose first argument needs a second frame; its type of checksum is set, the value is not. */
  lemma {:induction false} UnsignedIsTooLong(crc: Crc) returns (m: Sound)
    ensures m.kind.IsCall() && HeaderFits(m) && Space(m) >= 0 && m.checksum == Checksum(CRC32C, None)
    ensures WriteMessage(Sign(crc, None, Cut(m)[0])).None?
  {
    var args: A.Args := [Zeros(65600), [], []];
    m := Response(Checksum(CRC32C, None), args);
    ResponseSpace(m.checksum, args);
    SmallCapacities();
    assert FragmentOnce(m).next.Some?;
    FirstFrameMustFit(crc, m);
  }

  // ---------- a call without an id ----------

  /** A continue message under an id that no frame had before finds no call. */
  lemma {:induction false} ContinueWithoutCall(crc: Crc, wire: seq<Message>, next: Message)
    requires !next.kind.IsCall() && forall i | 0 <= i < |wire| :: wire[i].id != next.id
    ensures ReplyToLast(crc, wire + [next]) == Raised(MissingCall)
  {
    NoneOfId(wire, next.id);
    OthersDoNotMatter(crc, wire, next.id);
    assert (wire + [next])[..|wire|] == wire;
  }

  lemma {:induction false} NoneOfId(wire: seq<Message>, id: Id)
    requires forall i | 0 <= i < |wire| :: wire[i].id != id
    ensures OfId(wire, id) == []
  {
    if wire != [] { NoneOfId(wire[..|wire| - 1], id); }
  }

  /** The counter of draws goes up from frame to frame, up to `after`. */
  predicate CountsUp(frames: nat, draws: nat -> nat, after: nat) {
    forall k | 0 <= k < frames :: (k > 0 ==> draws(0) < draws(k)) && DrawsPast(0, draws, k) <= after
  }

  /**
   * When a call without an id is streamed in several messages, the second goes out under another
   * id than any frame of the first, unless almost all ids have been drawn in between. Whatever
   * their checksums, `build` raises for it.
   */
  lemma {:induction false} ZeroIdBreaksCall(
      crc: Crc, first: Sound, draws: nat -> nat, after: nat, wire: seq<Message>, next: Message)
    requires first.id == 0 && CountsUp(|Cut(first)|, draws, after) && after + 2 <= draws(0) + MAX_MESSAGE_ID
    requires |wire| == |Cut(first)| && forall k | 0 <= k < |wire| :: wire[k].id == NumberedCut(first, draws)[k].id
    requires !next.kind.IsCall() && next.id == FirstId(0, after)
    ensures ReplyToLast(crc, wire + [next]) == Raised(MissingCall)
  {
    var y := if DrawnId(after + 1) == 0 then after + 2 else after + 1;
    assert next.id == DrawnId(y);
    forall k | 0 <= k < |wire| ensures wire[k].id != next.id {
      assert wire[k].id == FrameId(0, draws, k);
      var x := FrameIdIsDrawn(draws, k);
      DrawnIdsDiffer(x, y);
    }
    ContinueWithoutCall(crc, wire, next);
  }

  lemma {:induction false} RoomToSpare(args: A.Args, space: int)
    requires A.WireLength(args) + A.KEY_LENGTH < space
    ensures A.Split(args, space).kept == args && A.Split(args, space).rest == [] && A.Split(args, space).left >= 0
    ensures !A.Residue(args, space)
  {
    if args != [] {
      RoomToSpare(args[1..], space - A.KEY_LENGTH - |args[0]|);
      A.ResidueStep(args, space);
    }
  }

  lemma {:induction false} OneFrame(m: Sound)
    requires A.WireLength(m.args) + A.KEY_LENGTH < Space(m)
    ensures Cut(m) == [m] && Residues(m) == 0
  {
    RoomToSpare(m.args, Space(m));
  }

  lemma {:induction false} TwoMessages(first: Sound, second: Sound)
    ensures Joined([first, second]) == A.Join(first.args, second.args)
    ensures TotalResidues([first, second]) == Residues(first) + Residues(second)
  {
    assert [first] + [second] == [first, second] && [first, second][..1] == [first] && [first][..0] == [];
    JoinedAppend([first], [second]);
    JoinedOne(first);
    JoinedOne(second);
    assert TotalResidues([first]) == Residues(first);
  }

  lemma {:induction false} JoinedArgs()
    ensures A.Join([[1]], [[2], [], []]) == [[1, 2], [], []]
  {
    var a: A.Args, b: A.Args := [[1]], [[2], [], []];
    assert a[..0] == [] && b[1..] == [[], []] && a[0] + b[0] == [1, 2];
  }

  lemma {:induction false} WithoutIdSpaces(first: Sound, second: Sound)
    requires first == Response(Checksum(CRC32C, Some(0)), [[1]]).(id := 0, flags := FRAGMENT)
    requires second == Message(CallResponseContinue, 0, NONE, [], Checksum(CRC32C, Some(0)), [[2], [], []])
    ensures HeaderFits(first) && Space(first) == 65486 && Space(second) > 65500
  {
    var m := Response(Checksum(CRC32C, Some(0)), [[1]]);
    ResponseSpace(m.checksum, m.args);
    SpaceIgnoresFlags(m, m.(flags := FRAGMENT));
    SameSpace(m.(flags := FRAGMENT), 0);
    ContinueSpace(second);
  }

  lemma {:induction false} TwoParts(first: Sound, second: Sound)
    requires first.kind.IsCall() && !second.kind.IsCall() && first.flags == FRAGMENT && second.flags == NONE
    requires first.id == second.id < Capacity(4) && first.checksum.kind == second.checksum.kind
    requires Supported(first.checksum.kind) && SumPresent(first) && SumPresent(second)
    requires HeaderFits(first) && HeaderFits(second) && Space(first) >= 0 && Space(second) >= 0
    requires 0 < |first.args| <= MAX_ARGS && 0 < |second.args| <= MAX_ARGS
    ensures IsStreamed([first, second])
  {
    assert IsPart([first, second], 0) && IsPart([first, second], 1);
  }

  /** Two messages of a response to a request with the id 0. */
  lemma {:induction false} WithoutId() returns (first: Sound, second: Sound)
    ensures IsStreamed([first, second]) && first.id == second.id == 0 && !second.kind.IsCall()
    ensures Space(first) >= A.KEY_LENGTH && TotalResidues([first, second]) == 0
    ensures Joined([first, second]) == [[1, 2], [], []]
    ensures Cut(first) == [first] && Cut(second) == [second]
  {
    first := Response(Checksum(CRC32C, Some(0)), [[1]]).(id := 0, flags := FRAGMENT);
    second := Message(CallResponseContinue, 0, NONE, [], Checksum(CRC32C, Some(0)), [[2], [], []]);
    WithoutIdSpaces(first, second);
    SmallCapacities();
    SmallArgs();
    JoinedArgs();
    OneFrame(first);
    OneFrame(second);
    TwoMessages(first, second);
    TwoParts(first, second);
  }

  lemma {:induction false} SmallArgs()
    ensures A.WireLength([[1]]) == 3 && A.WireLength([[2], [], []]) == 7
  {
    var one, three: A.Args := [[1]], [[2], [], []];
    assert one[1..] == [] && three[1..] == [[], []] && three[1..][1..] == [[]] && three[1..][1..][1..] == [];
  }

  lemma {:induction false} TwoFrames(crc: Crc, first: Sound, second: Sound, before: nat -> nat, after: nat -> nat)
    requires first.id == second.id == 0 && !second.kind.IsCall() && Cut(first) == [first] && Cut(second) == [second]
    requires before(0) == 0 && after(0) == 1
    ensures ReplyToLast(crc, [Sign(crc, None, NumberedCut(first, before)[0])]
                             + [Sign(crc, None, NumberedCut(second, after)[0])]) == Raised(MissingCall)
  {
    var wire, next := [Sign(crc, None, NumberedCut(first, before)[0])], Sign(crc, None, NumberedCut(second, after)[0]);
    ZeroIsDrawn(1);
    assert DrawsPast(0, before, 0) == 1;
    ZeroIdBreaksCall(crc, first, before, 1, wire, next);
  }

  /**
   * A response with nothing else amiss, streamed in two messages to a peer that chose the id 0: on
   * a new connection its frames go out under 1 and 2, and `build` raises for the second.
   */
  lemma {:induction false} ZeroIdExample(crc: Crc) returns (first: Sound, second: Sound)
    ensures IsStreamed([first, second]) && first.id == second.id == 0
    ensures Space(first) >= A.KEY_LENGTH && TotalResidues([first, second]) == 0
    ensures Joined([first, second]) == [[1, 2], [], []]
    ensures ReplyToLast(crc, [Sign(crc, None, NumberedCut(first, _ => 0)[0])]
                             + [Sign(crc, None, NumberedCut(second, _ => 1)[0])]) == Raised(MissingCall)
  {
    first, second := WithoutId();
    TwoFrames(crc, first, second, _ => 0, _ => 1);
  }

  // ---------- an id that is used again after an error ----------

  lemma {:induction false} FirstFragmentKept(crc: Crc, first: Message)
    requires first.kind.IsCall() && first.flags == FRAGMENT && |first.args| <= MAX_ARGS
    requires Supported(first.checksum.kind) && first.checksum.kind != NO_CHECKSUM
    ensures var outcome := Build(crc, NOTHING, Sign(crc, None, first));
            && outcome.reply.Started? && outcome.local.context.Some?
            && outcome.local.sum == Some(Some(FoldBytes(UpdateOf(crc, first.checksum.kind), 0, Concat(first.args))))
  {
    FoldArgsSeesBytes(UpdateOf(crc, first.checksum.kind), 0, first.args);
    BeginSucceeds(Sign(crc, None, first));
  }

  /**
   * A call that has begun fails with an error message, and another call under its id follows. The
   * second is refused exactly when its bytes, summed on top of those of the first, give another sum.
   */
  method ReusedAfterError(crc: Crc, first: Message, second: Message)
    returns (began: Option<Failure>, again: Option<Failure>)
    requires first.kind.IsCall() && second.kind.IsCall() && first.id == second.id && first.flags == FRAGMENT
    requires |first.args| <= MAX_ARGS && |second.args| <= MAX_ARGS
    requires first.checksum.kind == second.checksum.kind && Supported(first.checksum.kind)
    requires first.checksum.kind != NO_CHECKSUM
    ensures began == None
    ensures var update, one, two := UpdateOf(crc, first.checksum.kind), Concat(first.args), Concat(second.args);
            again.Some? <==> FoldBytes(update, FoldBytes(update, 0, one), two) != FoldBytes(update, 0, two)
  {
    var factory := new F.MessageFactory(crc);
    var context;
    assert factory.Kept(first.id) == NOTHING;
    FirstFragmentKept(crc, first);
    began, context := factory.Build(Sign(crc, None, first));
    context := factory.BuildError(first.id);
    SumLeftBehind(crc, FoldBytes(UpdateOf(crc, first.checksum.kind), 0, Concat(first.args)), second);
    again, context := factory.Build(Sign(crc, None, second));
  }

  /** A checksum that adds up the bytes. */
  function Added(sum: U32, byte: Byte): U32 { (sum + byte) % 0x1_0000_0000 }

  lemma {:induction false} AddedBytes(one: Bytes, two: Bytes)
    requires one == [7] && two == [1]
    ensures FoldBytes(Added, FoldBytes(Added, 0, one), two) == 8 && FoldBytes(Added, 0, two) == 1
  {
    assert one[..0] == [] && two[..0] == [];
  }

  lemma {:induction false} FewBytes()
    ensures Concat([[7]]) == [7] && Concat([[1], [], []]) == [1]
  {
    var one: A.Args, two: A.Args := [[7]], [[1], [], []];
    assert one[..0] == [] && two[..2] == [[1], []] && two[..2][..1] == [[1]] && two[..2][..1][..0] == [];
  }

  /** With sums of bytes, 7 sent before the error, and 1 after it, the second response is refused. */
  method RefusedAfterError() returns (began: Option<Failure>, again: Option<Failure>)
    ensures began.None? && again.Some?
  {
    FewBytes();
    AddedBytes([7], [1]);
    var first := Response(Checksum(CRC32C, Some(0)), [[7]]).(flags := FRAGMENT);
    var second := Response(Checksum(CRC32C, Some(0)), [[1], [], []]);
    began, again := ReusedAfterError(Crc(Added, Added), first, second);
  }
}
