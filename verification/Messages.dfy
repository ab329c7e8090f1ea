/**
 * Call messages, their payload schemas, and the frames that carry them
 * (tchannel/messages, tchannel/frame.py and read_message of tchannel/tornado/connection.py).
 */
module Messages {
  import opened Wrappers
  import opened Bytes
  import opened ReadWriter
  import A = Args

  type Id = nat

  datatype Kind = CallRequest | CallResponse | CallRequestContinue | CallResponseContinue {
    predicate IsCall() { CallRequest? || CallResponse? }

    /** The kind of the fragments that follow. */
    function Continuation(): Kind {
      if CallRequest? || CallRequestContinue? then CallRequestContinue else CallResponseContinue
    }

    /** The message type on the wire. */
    function Code(): nat {
      match this
      case CallRequest => 0x03
      case CallResponse => 0x04
      case CallRequestContinue => 0x13
      case CallResponseContinue => 0x14
    }
  }

  function KindOf(code: nat): Option<Kind> {
    if code == 0x03 then Some(CallRequest)
    else if code == 0x04 then Some(CallResponse)
    else if code == 0x13 then Some(CallRequestContinue)
    else if code == 0x14 then Some(CallResponseContinue)
    else None
  }

  const NONE := 0      // FlagsType.none: the last fragment
  const FRAGMENT := 1  // FlagsType.fragment: more to come

  const NO_CHECKSUM := 0
  const CRC32 := 1
  const FARM32 := 2
  const CRC32C := 3

  datatype Checksum = Checksum(kind: nat, value: Option<nat>)

  /** `header` holds the fields between flags and checksum: none in a continue message. */
  datatype Message = Message(
    kind: Kind, id: Id, flags: nat, header: seq<Value>, checksum: Checksum, args: A.Args)

  const MAX_PAYLOAD_SIZE := 0xFFEF
  const MAX_ARGS := 3

  // ---------- schemas ----------

  function HeadersSchema(): Schema { Headers(1, Chain([Blob(1), Blob(1)])) }

  function TracingSchema(): Schema { Chain([Number(8), Number(8), Number(8), Number(1)]) }

  function ChecksumSchema(): Schema {
    Switch(1, map[NO_CHECKSUM := Nothing, CRC32 := Number(4), FARM32 := Number(4), CRC32C := Number(4)])
  }

  function HeaderSchemas(kind: Kind): seq<Schema> {
    match kind
    case CallRequest => [Number(4), TracingSchema(), Blob(1), HeadersSchema()]
    case CallResponse => [Number(1), TracingSchema(), HeadersSchema()]
    case _ => []
  }

  function HeaderCount(kind: Kind): nat {
    match kind
    case CallRequest => 4
    case CallResponse => 3
    case _ => 0
  }

  /** Everything in front of the arguments. */
  function FieldSchemas(kind: Kind): seq<Schema> {
    [Number(1)] + HeaderSchemas(kind) + [ChecksumSchema()]
  }

  function PayloadSchema(kind: Kind): Schema {
    Chain(FieldSchemas(kind) + [Args(A.KEY_LENGTH, MAX_ARGS)])
  }

  function ChecksumValue(c: Checksum): Value {
    Tagged(c.kind, if c.value.Some? then Num(c.value.value) else NoValue)
  }

  function FieldValues(m: Message): seq<Value> {
    [Num(m.flags)] + m.header + [ChecksumValue(m.checksum)]
  }

  function ArgValues(args: A.Args): (vs: seq<Value>)
    ensures |vs| == |args| && forall i | 0 <= i < |args| :: vs[i] == Text(args[i])
  {
    seq(|args|, i requires 0 <= i < |args| => Text(args[i]))
  }

  function PayloadValue(m: Message): Value {
    List(FieldValues(m) + [List(ArgValues(m.args))])
  }

  /** `length_no_args`. */
  function LengthNoArgs(m: Message): nat
    requires |m.header| == HeaderCount(m.kind)
  {
    LengthChain(FieldSchemas(m.kind), FieldValues(m))
  }

  // ---------- which messages can be sent ----------

  predicate HeaderFits(m: Message) {
    |m.header| == HeaderCount(m.kind)
    && forall i | 0 <= i < |m.header| :: Fits(HeaderSchemas(m.kind)[i], m.header[i])
  }

  predicate ChecksumFits(c: Checksum) {
    && c.kind <= CRC32C
    && (if c.kind == NO_CHECKSUM then c.value.None? else c.value.Some? && c.value.value < Capacity(4))
  }

  /** A message whose fields are in range and whose payload fits in one frame. */
  predicate Sendable(m: Message) {
    && m.flags <= FRAGMENT && m.id < Capacity(4) && |m.args| <= MAX_ARGS
    && HeaderFits(m) && ChecksumFits(m.checksum)
    && LengthNoArgs(m) + A.WireLength(m.args) <= MAX_PAYLOAD_SIZE
  }

  // ---------- lengths ----------

  lemma {:induction false} SmallCapacities()
    ensures Capacity(1) == 0x100 && Capacity(2) == 0x1_0000 && Capacity(4) == 0x1_0000_0000
  {
    assert Capacity(1) == 256 * Capacity(0);
    assert Capacity(2) == 256 * Capacity(1);
    assert Capacity(3) == 256 * Capacity(2);
  }

  lemma {:induction false} FieldsFit(m: Message)
    requires m.flags <= FRAGMENT && HeaderFits(m) && ChecksumFits(m.checksum)
    ensures |FieldValues(m)| == |FieldSchemas(m.kind)|
    ensures forall i | 0 <= i < |FieldSchemas(m.kind)| ::
              ArgFree(FieldSchemas(m.kind)[i]) && Fits(FieldSchemas(m.kind)[i], FieldValues(m)[i])
  {
    SmallCapacities();
    HeaderSchemasArgFree(m.kind);
  }

  lemma {:induction false} HeaderSchemasArgFree(kind: Kind)
    ensures forall i | 0 <= i < |HeaderSchemas(kind)| :: ArgFree(HeaderSchemas(kind)[i])
  {
    assert ArgFree(Chain([Blob(1), Blob(1)]));
  }

  lemma {:induction false} FieldSchemasConstantFree(kind: Kind)
    ensures forall i | 0 <= i < |FieldSchemas(kind)| :: ConstantFree(FieldSchemas(kind)[i])
  {
    assert ConstantFree(Chain([Blob(1), Blob(1)]));
  }

  /** The fields in front of the arguments take `length_no_args` bytes. */
  lemma {:induction false} FieldsLength(m: Message)
    requires m.flags <= FRAGMENT && HeaderFits(m) && ChecksumFits(m.checksum)
    ensures WriteChain(FieldSchemas(m.kind), FieldValues(m)).Some?
    ensures |WriteChain(FieldSchemas(m.kind), FieldValues(m)).value| == LengthNoArgs(m)
  {
    FieldsFit(m);
    FieldSchemasConstantFree(m.kind);
    var schemas, values := FieldSchemas(m.kind), FieldValues(m);
    forall i | 0 <= i < |schemas| ensures PlainConstants(schemas[i]) && BareConstants(schemas[i], values[i]) {
      NoConstantsAreBare(schemas[i], values[i]);
    }
    ChainRoundTrip(FieldSchemas(m.kind), FieldValues(m), []);
    ChainLength(FieldSchemas(m.kind), FieldValues(m));
  }

  lemma {:induction false} ArgsLengthIsWireLength(args: A.Args)
    requires forall i | 0 <= i < |args| :: |args[i]| < Capacity(A.KEY_LENGTH)
    ensures WriteArgs(A.KEY_LENGTH, ArgValues(args)).Some?
    ensures |WriteArgs(A.KEY_LENGTH, ArgValues(args)).value| == A.WireLength(args)
  {
    if args != [] {
      ArgsLengthIsWireLength(args[1..]);
      assert ArgValues(args)[1..] == ArgValues(args[1..]);
    }
  }

  lemma {:induction false} EachArgIsShorter(args: A.Args, i: nat)
    requires i < |args|
    ensures |args[i]| + A.KEY_LENGTH <= A.WireLength(args)
  {
    if i > 0 { EachArgIsShorter(args[1..], i - 1); }
  }

  // ---------- payloads ----------

  function WritePayload(m: Message): Option<Bytes> { Write(PayloadSchema(m.kind), PayloadValue(m)) }

  /** What the message constructor makes of the fields read: a call without arguments gets three empty ones. */
  function Construct(kind: Kind, id: Id, fields: seq<Value>): Option<Message>
  {
    var n := |fields|;
    if n == |FieldSchemas(kind)| + 1 && fields[0].Num? && fields[0].n >= 0
       && fields[n - 2].Tagged? && fields[n - 2].tag >= 0
       && fields[n - 1].List? && (forall v | v in fields[n - 1].items :: v.Text?)
       && (fields[n - 2].payload.Num? ==> fields[n - 2].payload.n >= 0)
    then
      var sum := fields[n - 2];
      var args := Texts(fields[n - 1].items);
      Some(WithDefaultArgs(Message(
        kind, id, fields[0].n, fields[1..n - 2],
        Checksum(sum.tag, if sum.payload.Num? then Some(sum.payload.n) else None),
        args)))
    else None
  }

  function Texts(vs: seq<Value>): (args: A.Args)
    requires forall v | v in vs :: v.Text?
  {
    seq(|vs|, i requires 0 <= i < |vs| => vs[i].bytes)
  }

  function WithDefaultArgs(m: Message): Message {
    if m.kind.IsCall() && m.args == [] then m.(args := [[], [], []]) else m
  }

  function ReadPayload(kind: Kind, id: Id, b: Bytes): Option<Message> {
    match Read(PayloadSchema(kind), b)
    case Parsed(v, _) => if v.List? then Construct(kind, id, v.items) else None
    case ReadError => None
  }

  /** A message each of whose fields can be written, whatever they come to together. */
  predicate Encodable(m: Message) {
    && m.flags <= FRAGMENT && m.id < Capacity(4) && HeaderFits(m) && ChecksumFits(m.checksum)
    && |m.args| <= MAX_ARGS && forall i | 0 <= i < |m.args| :: |m.args[i]| < Capacity(A.KEY_LENGTH)
  }

  lemma {:induction false} SendableIsEncodable(m: Message)
    requires Sendable(m)
    ensures Encodable(m)
  {
    SmallCapacities();
    forall i | 0 <= i < |m.args| ensures |m.args[i]| < Capacity(A.KEY_LENGTH) { EachArgIsShorter(m.args, i); }
  }

  lemma {:induction false} PayloadLength(m: Message)
    requires Encodable(m)
    ensures WritePayload(m).Some? && |WritePayload(m).value| == LengthNoArgs(m) + A.WireLength(m.args)
    ensures Read(PayloadSchema(m.kind), WritePayload(m).value) == Parsed(PayloadValue(m), [])
  {
    FieldsFit(m);
    FieldsLength(m);
    ArgsLengthIsWireLength(m.args);
    MessageRoundTrip(FieldSchemas(m.kind), A.KEY_LENGTH, MAX_ARGS, FieldValues(m), ArgValues(m.args));
  }

  lemma {:induction false} PayloadRoundTrip(m: Message)
    requires Sendable(m)
    ensures WritePayload(m).Some?
    ensures ReadPayload(m.kind, m.id, WritePayload(m).value) == Some(WithDefaultArgs(m))
    ensures WithDefaultArgs(m)
         == m.(args := if m.kind in {CallRequest, CallResponse} && m.args == [] then [[], [], []] else m.args)
  {
    SendableIsEncodable(m);
    PayloadLength(m);
    var fields := PayloadValue(m).items;
    var n := |fields|;
    assert fields[n - 2] == ChecksumValue(m.checksum) && fields[n - 1] == List(ArgValues(m.args));
    assert fields[1..n - 2] == m.header;
    assert Texts(ArgValues(m.args)) == m.args;
  }

  // ---------- frames ----------

  const SIZE_WIDTH := 2
  const FRAME_HEADER_WIDTH := 14

  function FrameHeaderSchema(): Schema {
    Chain([Number(1), Constant(Number(1), Num(0)), Number(4), Constant(Number(8), Num(0))])
  }

  function FrameHeaderValue(code: nat, id: Id): Value { List([Num(code), Num(0), Num(id), Num(0)]) }

  /** `FrameReadWriter.write`: size, header, payload; None where a number does not fit its field. */
  function WriteFrame(code: nat, id: Id, payload: Bytes): Option<Bytes> {
    Both(Both(WriteNumber(SIZE_WIDTH, SIZE_WIDTH + FRAME_HEADER_WIDTH + |payload|),
              Write(FrameHeaderSchema(), FrameHeaderValue(code, id))),
         Some(payload))
  }

  datatype Frame = Frame(code: nat, id: Id, payload: Bytes)

  /** A frame; None, where there is no size or it is 0; or a ReadError. */
  datatype FrameOutcome = GotFrame(frame: Frame) | NoFrame | BrokenFrame

  datatype FrameRead = FrameRead(outcome: FrameOutcome, rest: Bytes)

  /** `FrameReadWriter.read`, and what it leaves of the stream. A size below its own width takes all there is. */
  function ReadFrame(b: Bytes): FrameRead {
    match ReadNumber(SIZE_WIDTH, b)
    case ReadError => FrameRead(NoFrame, [])
    case Parsed(size, rest) =>
      if size == 0 then FrameRead(NoFrame, rest)
      else if size < SIZE_WIDTH then FrameRead(BrokenFrame, [])
      else
        match Take(rest, size - SIZE_WIDTH)
        case ReadError => FrameRead(BrokenFrame, [])
        case Parsed(body, rest') =>
          match FrameOf(body)
          case None => FrameRead(BrokenFrame, rest')
          case Some(f) => FrameRead(GotFrame(f), rest')
  }

  /** The header and payload inside a frame. */
  function FrameOf(body: Bytes): Option<Frame> {
    var cut := if |body| < FRAME_HEADER_WIDTH then |body| else FRAME_HEADER_WIDTH;
    match Read(FrameHeaderSchema(), body[..cut])
    case ReadError => None
    case Parsed(header, _) => FrameWith(header, body[cut..])
  }

  function FrameWith(header: Value, payload: Bytes): Option<Frame> {
    if header.List? && |header.items| == 4 && header.items[0].Num? && header.items[2].Num?
       && header.items[0].n >= 0 && header.items[2].n >= 0
    then Some(Frame(header.items[0].n, header.items[2].n, payload))
    else None
  }

  /** `FrameReadWriter.write`. */
  method WriteFrameTo(code: nat, id: Id, payload: Bytes, out: Output) returns (ok: bool)
    modifies out
    ensures ok == WriteFrame(code, id, payload).Some?
    ensures ok ==> out.written == old(out.written) + WriteFrame(code, id, payload).value
  {
    var size := SIZE_WIDTH + FRAME_HEADER_WIDTH + |payload|;
    ok := out.AppendNumber(SIZE_WIDTH, size);
    if !ok { return; }
    ok := WriteTo(FrameHeaderSchema(), FrameHeaderValue(code, id), out);
    if !ok { return; }
    out.Append(payload);
    var sized := WriteNumber(SIZE_WIDTH, size).value;
    var header := Write(FrameHeaderSchema(), FrameHeaderValue(code, id)).value;
    assert old(out.written) + sized + header + payload == old(out.written) + (sized + header + payload);
  }

  /** `FrameReadWriter.read`. */
  method ReadFrameFrom(input: Input) returns (outcome: FrameOutcome)
    modifies input
    ensures ReadFrame(old(input.rest)) == FrameRead(outcome, input.rest)
  {
    var size := input.TakeNumber(SIZE_WIDTH);
    if size.None? || size.value == 0 { return NoFrame; }
    if size.value < SIZE_WIDTH {
      input.rest := [];
      return BrokenFrame;
    }
    var body := input.TakeBytes(size.value - SIZE_WIDTH);
    if body.None? { return BrokenFrame; }
    var frame := ReadBody(body.value);
    outcome := if frame.None? then BrokenFrame else GotFrame(frame.value);
  }

  /** The part of `FrameReadWriter.read` after the body has been taken. */
  method ReadBody(body: Bytes) returns (frame: Option<Frame>)
    ensures frame == FrameOf(body)
  {
    var cut := if |body| < FRAME_HEADER_WIDTH then |body| else FRAME_HEADER_WIDTH;
    var headerBody := new Input(body[..cut]);
    var header := ReadFrom(FrameHeaderSchema(), headerBody);
    frame := if header.None? then None else FrameWith(header.value, body[cut..]);
  }

  function WriteMessage(m: Message): Option<Bytes> {
    match WritePayload(m)
    case None => None
    case Some(payload) => WriteFrame(m.kind.Code(), m.id, payload)
  }

  /** `read_message`: one frame off the stream, decoded by its message type. */
  function ReadMessage(b: Bytes): Parsed<Message> {
    match ReadFrame(b)
    case FrameRead(NoFrame, _) => ReadError
    case FrameRead(BrokenFrame, _) => ReadError
    case FrameRead(GotFrame(f), rest) =>
      match KindOf(f.code)
      case None => ReadError
      case Some(kind) =>
        match ReadPayload(kind, f.id, f.payload)
        case None => ReadError
        case Some(m) => Parsed(m, rest)
  }

  lemma {:induction false} FrameHeaderRoundTrip(code: nat, id: Id)
    requires code < Capacity(1) && id < Capacity(4)
    ensures Write(FrameHeaderSchema(), FrameHeaderValue(code, id)).Some?
    ensures var b := Write(FrameHeaderSchema(), FrameHeaderValue(code, id)).value;
            |b| == FRAME_HEADER_WIDTH && Read(FrameHeaderSchema(), b) == Parsed(FrameHeaderValue(code, id), [])
  {
    var s, v := FrameHeaderSchema(), FrameHeaderValue(code, id);
    assert forall i | 0 <= i < 4 :: Fits(s.links[i], v.items[i]);
    assert Fits(s, v) && ArgFree(s);
    RoundTrip(s, v, []);
    var b := Write(s, v).value;
    assert b + [] == b;
    FrameHeaderLength(code, id);
  }

  lemma {:induction false} FrameHeaderLength(code: nat, id: Id)
    requires Write(FrameHeaderSchema(), FrameHeaderValue(code, id)).Some?
    ensures |Write(FrameHeaderSchema(), FrameHeaderValue(code, id)).value| == FRAME_HEADER_WIDTH
  {
    FrameHeaderBare(code, id);
    LengthIsBytesWritten(FrameHeaderSchema(), FrameHeaderValue(code, id));
    FourLinks(FrameHeaderSchema().links, FrameHeaderValue(code, id).items);
  }

  lemma {:induction false} FrameHeaderBare(code: nat, id: Id)
    ensures PlainConstants(FrameHeaderSchema()) && BareConstants(FrameHeaderSchema(), FrameHeaderValue(code, id))
  {
  }

  lemma {:induction false} FourLinks(links: seq<Schema>, items: seq<Value>)
    requires |items| == |links| == 4
    ensures LengthChain(links, items) == Length(links[0], items[0]) + Length(links[1], items[1])
                                         + Length(links[2], items[2]) + Length(links[3], items[3])
  {
    LengthFrom(links, items, 0);
    LengthFrom(links, items, 1);
    LengthFrom(links, items, 2);
    LengthFrom(links, items, 3);
    assert links[0..] == links && items[0..] == items && links[4..] == [] && items[4..] == [];
  }

  lemma {:induction false} LengthFrom(links: seq<Schema>, items: seq<Value>, i: nat)
    requires |items| == |links| && i < |links|
    ensures LengthChain(links[i..], items[i..])
         == Length(links[i], items[i]) + LengthChain(links[i + 1..], items[i + 1..])
  {
    assert links[i..][1..] == links[i + 1..] && items[i..][1..] == items[i + 1..];
  }

  /** A frame's size field fits in 16 bits exactly when the payload is at most MAX_PAYLOAD_SIZE. */
  lemma {:induction false} FrameSizeFits(code: nat, id: Id, payload: Bytes)
    requires code < Capacity(1) && id < Capacity(4)
    ensures WriteFrame(code, id, payload).Some? <==> |payload| <= MAX_PAYLOAD_SIZE
  {
    SmallCapacities();
    FrameHeaderRoundTrip(code, id);
  }

  /** The bytes of a frame are its size and then a body that is read back as the frame. */
  lemma {:induction false} FrameIsSizedBody(code: nat, id: Id, payload: Bytes) returns (body: Bytes)
    requires code < Capacity(1) && id < Capacity(4) && |payload| <= MAX_PAYLOAD_SIZE
    ensures SIZE_WIDTH + |body| < Capacity(SIZE_WIDTH) && FrameOf(body) == Some(Frame(code, id, payload))
    ensures WriteFrame(code, id, payload) == Some(BigEndian(SIZE_WIDTH, SIZE_WIDTH + |body|) + body)
  {
    FrameSizeFits(code, id, payload);
    FrameHeaderRoundTrip(code, id);
    var header := Write(FrameHeaderSchema(), FrameHeaderValue(code, id)).value;
    FrameOfBody(code, id, header, payload);
    body := header + payload;
    Regroup(BigEndian(SIZE_WIDTH, SIZE_WIDTH + |body|), header, payload);
  }

  lemma {:induction false} FrameRoundTrip(code: nat, id: Id, payload: Bytes, rest: Bytes)
    requires code < Capacity(1) && id < Capacity(4) && |payload| <= MAX_PAYLOAD_SIZE
    ensures WriteFrame(code, id, payload).Some?
    ensures ReadFrame(WriteFrame(code, id, payload).value + rest) == FrameRead(GotFrame(Frame(code, id, payload)), rest)
  {
    var body := FrameIsSizedBody(code, id, payload);
    SizedBody(body, Frame(code, id, payload), rest);
  }

  lemma {:induction false} SizedBody(body: Bytes, f: Frame, rest: Bytes)
    requires SIZE_WIDTH + |body| < Capacity(SIZE_WIDTH) && FrameOf(body) == Some(f)
    ensures ReadFrame(BigEndian(SIZE_WIDTH, SIZE_WIDTH + |body|) + body + rest) == FrameRead(GotFrame(f), rest)
  {
    PrefixedRead(SIZE_WIDTH, SIZE_WIDTH + |body|, body, rest);
    assert (body + rest)[..|body|] == body && (body + rest)[|body|..] == rest;
  }

  lemma {:induction false} FrameOfBody(code: nat, id: Id, header: Bytes, payload: Bytes)
    requires |header| == FRAME_HEADER_WIDTH
    requires Read(FrameHeaderSchema(), header) == Parsed(FrameHeaderValue(code, id), [])
    ensures FrameOf(header + payload) == Some(Frame(code, id, payload))
  {
    assert (header + payload)[..FRAME_HEADER_WIDTH] == header;
    assert (header + payload)[FRAME_HEADER_WIDTH..] == payload;
  }

  /** What was written to the connection is read from it, and the stream stands after the frame. */
  lemma {:induction false} MessageOverWire(m: Message, rest: Bytes)
    requires Sendable(m)
    ensures WriteMessage(m).Some?
    ensures ReadMessage(WriteMessage(m).value + rest) == Parsed(WithDefaultArgs(m), rest)
  {
    SmallCapacities();
    SendableIsEncodable(m);
    PayloadLength(m);
    PayloadRoundTrip(m);
    PayloadOverWire(m, WritePayload(m).value, rest);
  }

  lemma {:induction false} PayloadOverWire(m: Message, payload: Bytes, rest: Bytes)
    requires WritePayload(m) == Some(payload) && |payload| <= MAX_PAYLOAD_SIZE && m.id < Capacity(4)
    requires ReadPayload(m.kind, m.id, payload) == Some(WithDefaultArgs(m))
    ensures WriteMessage(m).Some?
    ensures ReadMessage(WriteMessage(m).value + rest) == Parsed(WithDefaultArgs(m), rest)
  {
    SmallCapacities();
    FrameRoundTrip(m.kind.Code(), m.id, payload, rest);
    var b := WriteFrame(m.kind.Code(), m.id, payload).value + rest;
    FrameIsMessage(b, m.kind, m.id, payload, WithDefaultArgs(m), rest);
  }

  /** A message can be written if and only if its payload fits in a frame; then it can be sent. */
  lemma {:induction false} MessageFits(m: Message)
    requires Encodable(m)
    ensures WriteMessage(m).Some? <==> Sendable(m)
  {
    SmallCapacities();
    PayloadLength(m);
    FrameSizeFits(m.kind.Code(), m.id, WritePayload(m).value);
  }

  lemma {:induction false} FrameIsMessage(b: Bytes, kind: Kind, id: Id, payload: Bytes, m: Message, rest: Bytes)
    requires ReadFrame(b) == FrameRead(GotFrame(Frame(kind.Code(), id, payload)), rest)
    requires ReadPayload(kind, id, payload) == Some(m)
    ensures ReadMessage(b) == Parsed(m, rest)
  {
    assert KindOf(kind.Code()) == Some(kind);
  }

  // ---------- a run of frames ----------

  function WriteRun<T>(write: T -> Option<Bytes>, xs: seq<T>): Option<Bytes> {
    if xs == [] then Some([]) else Both(write(xs[0]), WriteRun(write, xs[1..]))
  }

  function ReadRun<T>(read: Bytes -> Parsed<T>, n: nat, b: Bytes): Parsed<seq<T>> {
    if n == 0 then Parsed([], b) else
    match read(b)
    case ReadError => ReadError
    case Parsed(x, rest) => Prepend([x], ReadRun(read, n - 1, rest))
  }

  function Map<T, U>(f: T -> U, xs: seq<T>): (ys: seq<U>)
    ensures |ys| == |xs| && forall i | 0 <= i < |xs| :: ys[i] == f(xs[i])
  {
    if xs == [] then [] else [f(xs[0])] + Map(f, xs[1..])
  }

  /** A reader that takes back one element at a time takes back a whole run. */
  lemma {:induction false} RunRoundTrip<T>(
      write: T -> Option<Bytes>, read: Bytes -> Parsed<T>, norm: T -> T, xs: seq<T>, rest: Bytes)
    requires forall i | 0 <= i < |xs| :: write(xs[i]).Some?
    requires forall i, b | 0 <= i < |xs| :: read(write(xs[i]).value + b) == Parsed(norm(xs[i]), b)
    ensures WriteRun(write, xs).Some?
    ensures ReadRun(read, |xs|, WriteRun(write, xs).value + rest) == Parsed(Map(norm, xs), rest)
  {
    if xs == [] {
      assert [] + rest == rest;
    } else {
      RunRoundTrip(write, read, norm, xs[1..], rest);
      var head, tail := write(xs[0]).value, WriteRun(write, xs[1..]).value;
      assert read(head + (tail + rest)) == Parsed(norm(xs[0]), tail + rest);
      Regroup(head, tail, rest);
    }
  }

  /** The bytes of a run of frames. */
  function WriteMessages(ms: seq<Message>): Option<Bytes> { WriteRun(WriteMessage, ms) }

  /** Reads `n` messages off the stream. */
  function ReadMessages(n: nat, b: Bytes): Parsed<seq<Message>> { ReadRun(ReadMessage, n, b) }

  function Decoded(ms: seq<Message>): seq<Message> { Map(WithDefaultArgs, ms) }

  lemma {:induction false} MessagesOverWire(ms: seq<Message>, rest: Bytes)
    requires forall i | 0 <= i < |ms| :: Sendable(ms[i])
    ensures WriteMessages(ms).Some?
    ensures ReadMessages(|ms|, WriteMessages(ms).value + rest) == Parsed(Decoded(ms), rest)
  {
    forall i | 0 <= i < |ms| ensures WriteMessage(ms[i]).Some? { MessageOverWire(ms[i], []); }
    forall i, b: Bytes | 0 <= i < |ms|
      ensures ReadMessage(WriteMessage(ms[i]).value + b) == Parsed(WithDefaultArgs(ms[i]), b)
    {
      MessageOverWire(ms[i], b);
    }
    RunRoundTrip(WriteMessage, ReadMessage, WithDefaultArgs, ms, rest);
  }

  // ---------- truncated and short messages ----------

  /** The size in front makes every strict prefix of a frame unreadable. */
  lemma {:induction false} TruncatedFrameFails(m: Message, n: nat)
    requires Encodable(m) && WriteMessage(m).Some? && n < |WriteMessage(m).value|
    ensures ReadMessage(WriteMessage(m).value[..n]) == ReadError
  {
    MessageFits(m);
    SmallCapacities();
    PayloadLength(m);
    var body := FrameIsSizedBody(m.kind.Code(), m.id, WritePayload(m).value);
    CutSizedBody(body, n);
  }

  lemma {:induction false} CutSizedBody(body: Bytes, n: nat)
    requires SIZE_WIDTH + |body| < Capacity(SIZE_WIDTH) && n < SIZE_WIDTH + |body|
    ensures ReadFrame((BigEndian(SIZE_WIDTH, SIZE_WIDTH + |body|) + body)[..n]).outcome in {NoFrame, BrokenFrame}
  {
    var size, all := BigEndian(SIZE_WIDTH, SIZE_WIDTH + |body|), BigEndian(SIZE_WIDTH, SIZE_WIDTH + |body|) + body;
    if n >= SIZE_WIDTH {
      var left := body[..n - SIZE_WIDTH];
      assert all[..n] == size + left;
      NumberRoundTrip(SIZE_WIDTH, SIZE_WIDTH + |body|, left);
      ShortBody(size + left, SIZE_WIDTH + |body|, left);
    } else {
      assert ReadNumber(SIZE_WIDTH, all[..n]) == ReadError;
    }
  }

  lemma {:induction false} ShortBody(b: Bytes, size: nat, rest: Bytes)
    requires ReadNumber(SIZE_WIDTH, b) == Parsed(size, rest) && size > SIZE_WIDTH + |rest|
    ensures ReadFrame(b) == FrameRead(BrokenFrame, [])
  {
  }

  /**
   * A payload is at least as long as its schema's `width` exactly when its contents make up for
   * arguments that are missing.
   */
  lemma {:induction false} WidthOfPayload(m: Message)
    requires Encodable(m)
    ensures WritePayload(m).Some?
    ensures Width(PayloadSchema(m.kind)) <= |WritePayload(m).value|
       <==> (MAX_ARGS - |m.args|) * A.KEY_LENGTH
            <= ContentArgs(ArgValues(m.args)) + ContentChain(FieldSchemas(m.kind), FieldValues(m))
  {
    PayloadLength(m);
    FieldsFit(m);
    WidthOfMessage(FieldSchemas(m.kind), A.KEY_LENGTH, MAX_ARGS, FieldValues(m), ArgValues(m.args));
  }

  lemma {:induction false} ContinueWidth(kind: Kind)
    requires !kind.IsCall()
    ensures Width(PayloadSchema(kind)) == 8
  {
    var links := FieldSchemas(kind) + [Args(A.KEY_LENGTH, MAX_ARGS)];
    assert links == [Number(1), ChecksumSchema(), Args(A.KEY_LENGTH, MAX_ARGS)];
    assert links[1..] == [ChecksumSchema(), Args(A.KEY_LENGTH, MAX_ARGS)];
    assert links[1..][1..] == [Args(A.KEY_LENGTH, MAX_ARGS)] && links[1..][1..][1..] == [];
    assert WidthChain(links[1..][1..]) == 6;
    assert WidthChain(links[1..]) == 7;
    assert Width(PayloadSchema(kind)) == Width(links[0]) + WidthChain(links[1..]);
  }

  lemma {:induction false} ContinueLength(m: Message)
    requires !m.kind.IsCall() && m.header == [] && m.checksum == Checksum(NO_CHECKSUM, None)
    ensures LengthNoArgs(m) == 2
  {
    var schemas, values := FieldSchemas(m.kind), FieldValues(m);
    assert schemas == [Number(1), ChecksumSchema()] && values == [Num(m.flags), ChecksumValue(m.checksum)];
    LengthFrom(schemas, values, 0);
    LengthFrom(schemas, values, 1);
    assert schemas[0..] == schemas && values[0..] == values && schemas[2..] == [] && values[2..] == [];
  }

  /** A continue message with one empty argument and no checksum is half as long as `width` says. */
  lemma {:induction false} ShortMessage(id: Id)
    requires id < Capacity(4)
    ensures var m := Message(CallRequestContinue, id, NONE, [], Checksum(NO_CHECKSUM, None), [[]]);
            && Sendable(m) && WritePayload(m).Some? && |WritePayload(m).value| == 4
            && Width(PayloadSchema(m.kind)) == 8
  {
    var m := Message(CallRequestContinue, id, NONE, [], Checksum(NO_CHECKSUM, None), [[]]);
    SmallCapacities();
    ContinueLength(m);
    ContinueWidth(m.kind);
    assert m.args[1..] == [] && A.WireLength(m.args) == 2;
    SendableIsEncodable(m);
    PayloadLength(m);
  }
}
