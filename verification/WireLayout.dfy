/**
 * Every byte of a frame at its offset, as tchannel/frame.py and tchannel/messages lay them out, and
 * what is made of any bytes that are read. Widths, types and offsets are written out as numbers.
 */
module WireLayout {
  import opened Wrappers
  import opened Bytes
  import opened ReadWriter
  import opened Messages
  import A = Args

  // ---------- numbers ----------

  lemma {:induction false} Regrouped(x: nat, y: nat, z: nat)
    ensures x * (y * z) == y * (x * z)
  {
  }

  /** The most significant byte of a number comes first. */
  lemma {:induction false} FirstByteCountsMost(b: Bytes)
    requires b != []
    ensures FromBigEndian(b) == b[0] * Capacity(|b| - 1) + FromBigEndian(b[1..])
  {
    var last := |b| - 1;
    if last > 0 {
      FirstByteCountsMost(b[..last]);
      assert b[1..][..last - 1] == b[..last][1..];
      Regrouped(256, b[0], Capacity(last - 1));
    } else {
      assert b[..0] == [];
    }
  }

  /** A number of one, two or four bytes. */
  function Number1(b: Bytes): nat
    requires |b| == 1
  {
    b[0]
  }

  function Number2(b: Bytes): nat
    requires |b| == 2
  {
    (b[0] as nat) * 0x100 + b[1]
  }

  function Number4(b: Bytes): nat
    requires |b| == 4
  {
    (b[0] as nat) * 0x100_0000 + (b[1] as nat) * 0x1_0000 + (b[2] as nat) * 0x100 + b[3]
  }

  lemma {:induction false} SmallNumbers(b: Bytes)
    ensures |b| == 1 ==> FromBigEndian(b) == Number1(b)
    ensures |b| == 2 ==> FromBigEndian(b) == Number2(b)
    ensures |b| == 4 ==> FromBigEndian(b) == Number4(b)
  {
    SmallCapacities();
    assert Capacity(0) == 1 && Capacity(3) == 0x100_0000;
    if b != [] { FirstByteCountsMost(b); }
    if |b| > 1 { FirstByteCountsMost(b[1..]); }
    if |b| > 2 { FirstByteCountsMost(b[1..][1..]); }
    if |b| > 3 { FirstByteCountsMost(b[1..][1..][1..]); }
  }

  lemma {:induction false} WrittenNumber(width: nat, n: nat)
    requires n < Capacity(width)
    ensures width == 1 ==> Number1(BigEndian(1, n)) == n && BigEndian(1, n) == [n]
    ensures width == 2 ==> Number2(BigEndian(2, n)) == n
    ensures width == 4 ==> Number4(BigEndian(4, n)) == n
  {
    FromBigEndianInverts(width, n);
    SmallNumbers(BigEndian(width, n));
    if width == 1 { SmallCapacities(); }
  }

  // ---------- frames ----------

  /** size:2 type:1 reserved:1 id:4 reserved:8, and then the payload. */
  predicate IsFrame(b: Bytes, code: nat, id: nat, payload: Bytes) {
    && |b| == 16 + |payload|
    && Number2(b[0..2]) == |b|
    && b[2] == code && b[3] == 0
    && Number4(b[4..8]) == id
    && (forall i | 8 <= i < 16 :: b[i] == 0)
    && b[16..] == payload
  }

  /** The bytes in front of a payload, within the body that follows the size. */
  predicate IsHeader(h: Bytes, code: nat, id: nat) {
    && |h| == 14 && h[0] == code && h[1] == 0 && Number4(h[2..6]) == id && forall i | 6 <= i < 14 :: h[i] == 0
  }

  lemma {:induction false} ZeroBytes(width: nat)
    ensures 0 < Capacity(width) && forall i | 0 <= i < width :: BigEndian(width, 0)[i] == 0
  {
    if width > 0 { ZeroBytes(width - 1); }
  }

  lemma {:induction false} FourWritten(links: seq<Schema>, items: seq<Value>, a: Bytes, b: Bytes, c: Bytes, d: Bytes)
    requires |links| == |items| == 4
    requires Write(links[0], items[0]) == Some(a) && Write(links[1], items[1]) == Some(b)
    requires Write(links[2], items[2]) == Some(c) && Write(links[3], items[3]) == Some(d)
    ensures WriteChain(links, items) == Some(a + (b + (c + d)))
  {
    assert links[1..][1..] == links[2..] && items[1..][1..] == items[2..];
    assert links[2..][1..] == links[3..] && items[2..][1..] == items[3..];
    assert WriteChain(links[3..][1..], items[3..][1..]) == Some([]);
    assert d + [] == d;
    assert WriteChain(links[3..], items[3..]) == Some(d);
    assert WriteChain(links[2..], items[2..]) == Some(c + d);
    assert WriteChain(links[1..], items[1..]) == Some(b + (c + d));
  }

  lemma {:induction false} HeaderBytes(code: nat, id: nat) returns (h: Bytes)
    requires code < 0x100 && id < 0x1_0000_0000
    ensures Write(FrameHeaderSchema(), FrameHeaderValue(code, id)) == Some(h) && IsHeader(h, code, id)
  {
    SmallCapacities();
    ZeroBytes(1);
    ZeroBytes(8);
    WrittenNumber(1, code);
    WrittenNumber(4, id);
    var a, b, c, d := BigEndian(1, code), BigEndian(1, 0), BigEndian(4, id), BigEndian(8, 0);
    FourWritten(FrameHeaderSchema().links, FrameHeaderValue(code, id).items, a, b, c, d);
    h := a + (b + (c + d));
    assert h[2..6] == c;
    forall i | 6 <= i < 14 ensures h[i] == 0 { assert h[i] == d[i - 6]; }
  }

  /** The frame that is written has every byte in its place. */
  lemma {:induction false} FrameIsLaidOut(code: nat, id: nat, payload: Bytes) returns (b: Bytes)
    requires code < 0x100 && id < 0x1_0000_0000 && |payload| <= 0xFFEF
    ensures WriteFrame(code, id, payload) == Some(b) && IsFrame(b, code, id, payload)
  {
    SmallCapacities();
    var h := HeaderBytes(code, id);
    var size := BigEndian(2, 16 + |payload|);
    WrittenNumber(2, 16 + |payload|);
    b := size + h + payload;
    assert b[0..2] == size && b[4..8] == h[2..6] && b[16..] == payload;
    forall i | 8 <= i < 16 ensures b[i] == 0 { assert b[i] == h[i - 2]; }
  }

  // ---------- reading any bytes ----------

  lemma {:induction false} NumberRead(width: nat, b: Bytes)
    ensures ReadNumber(width, b) == if width <= |b| then Parsed(FromBigEndian(b[..width]), b[width..]) else ReadError
  {
  }

  /** One number off the front of a chain. */
  lemma {:induction false} NumberOff(width: nat, links: seq<Schema>, b: Bytes, items: seq<Value>)
    requires links != [] && items != [] && width <= |b| && ReadChain(links[1..], b[width..]) == Parsed(items[1..], [])
    requires if links[0] == Number(width) then items[0] == Num(FromBigEndian(b[..width]))
             else links[0] == Constant(Number(width), Num(0)) && items[0] == Num(0)
    ensures ReadChain(links, b) == Parsed(items, [])
  {
    assert Read(links[0], b) == Parsed(items[0], b[width..]);
    ChainStep(links, b, b[width..], items[0], items[1..], []);
    assert [items[0]] + items[1..] == items;
  }

  lemma {:induction false} HeaderRead(h: Bytes)
    requires |h| == 14
    ensures Read(FrameHeaderSchema(), h) == Parsed(List([Num(h[0]), Num(0), Num(Number4(h[2..6])), Num(0)]), [])
  {
    var links := [Number(1), Constant(Number(1), Num(0)), Number(4), Constant(Number(8), Num(0))];
    var items := [Num(h[0]), Num(0), Num(Number4(h[2..6])), Num(0)];
    assert links[1..][1..] == links[2..] && links[2..][1..] == links[3..] && links[3..][1..] == [];
    assert items[1..][1..] == items[2..] && items[2..][1..] == items[3..] && items[3..][1..] == [];
    assert h[1..][1..] == h[2..] && h[2..][4..] == h[6..] && h[6..][8..] == [];
    SmallNumbers(h[..1]);
    SmallNumbers(h[2..][..4]);
    assert h[2..][..4] == h[2..6];
    NumberOff(8, links[3..], h[6..], items[3..]);
    NumberOff(4, links[2..], h[2..], items[2..]);
    NumberOff(1, links[1..], h[1..], items[1..]);
    NumberOff(1, links, h, items);
  }

  lemma {:induction false} HeaderTooShort(h: Bytes)
    requires |h| < 14
    ensures Read(FrameHeaderSchema(), h) == ReadError
  {
    if Read(FrameHeaderSchema(), h).Parsed? {
      var more: Bytes := seq(14 - |h|, i requires 0 <= i < 14 - |h| => 0);
      ReadExtends(FrameHeaderSchema(), h, more);
      HeaderRead(h + more);
    }
  }

  /** What follows the size: a header of 14 bytes, of which the reserved ones are ignored, and the payload. */
  lemma {:induction false} BodyIsRead(body: Bytes)
    ensures FrameOf(body) == if |body| < 14 then None else Some(Frame(body[0], Number4(body[2..6]), body[14..]))
  {
    if |body| < 14 {
      HeaderTooShort(body);
      assert body[..|body|] == body;
    } else {
      HeaderRead(body[..14]);
      assert body[..14][2..6] == body[2..6];
    }
  }

  /**
   * What any bytes are read as: nothing without a size or with a size of 0, a frame exactly if there
   * are as many bytes as the size says and it says at least 16, and else an error; and what is left
   * of the stream. (A size of 1 takes all there is.)
   */
  lemma {:induction false} AnyBytesRead(b: Bytes)
    ensures |b| < 2 ==> ReadFrame(b) == FrameRead(NoFrame, [])
    ensures |b| >= 2 ==>
      var size := Number2(b[0..2]);
      ReadFrame(b) ==
        if size == 0 then FrameRead(NoFrame, b[2..])
        else if size == 1 || |b| < size then FrameRead(BrokenFrame, [])
        else if size < 16 then FrameRead(BrokenFrame, b[size..])
        else FrameRead(GotFrame(Frame(b[2], Number4(b[4..8]), b[16..size])), b[size..])
  {
    NumberRead(2, b);
    if |b| >= 2 {
      var size := Number2(b[0..2]);
      assert b[..2] == b[0..2];
      SmallNumbers(b[0..2]);
      if 1 < size <= |b| {
        var body := b[2..size];
        assert b[2..][..size - 2] == body && b[2..][size - 2..] == b[size..];
        BodyIsRead(body);
        if size >= 16 { assert body[2..6] == b[4..8] && body[14..] == b[16..size]; }
      }
    }
  }

  // ---------- payloads ----------

  /** A number, where it fits its width. */
  function N(width: nat, n: nat): Bytes { if n < Capacity(width) then BigEndian(width, n) else [] }

  /** A string with its length in front. */
  function Sized(width: nat, b: Bytes): Bytes { N(width, |b|) + b }

  datatype Tracing = Tracing(span: nat, parent: nat, trace: nat, flags: nat)

  /** spanid:8 parentid:8 traceid:8 traceflags:1 */
  function TracingBytes(t: Tracing): Bytes { N(8, t.span) + (N(8, t.parent) + (N(8, t.trace) + N(1, t.flags))) }

  function TracingValue(t: Tracing): Value { List([Num(t.span), Num(t.parent), Num(t.trace), Num(t.flags)]) }

  datatype Header = Header(key: Bytes, value: Bytes)

  /** nh:1 (hk~1 hv~1){nh} */
  function HeadersBytes(headers: seq<Header>): Bytes { N(1, |headers|) + PairsBytes(headers) }

  function PairsBytes(headers: seq<Header>): Bytes {
    if headers == [] then [] else Sized(1, headers[0].key) + Sized(1, headers[0].value) + PairsBytes(headers[1..])
  }

  function PairValues(headers: seq<Header>): (vs: seq<Value>)
    ensures |vs| == |headers|
    ensures forall i | 0 <= i < |headers| :: vs[i] == List([Text(headers[i].key), Text(headers[i].value)])
  {
    seq(|headers|, i requires 0 <= i < |headers| => List([Text(headers[i].key), Text(headers[i].value)]))
  }

  /** csumtype:1 (csum:4){0,1}: none is written for type 0. */
  function ChecksumBytes(c: Checksum): Bytes {
    if c.value.None? then N(1, c.kind) else N(1, c.kind) + N(4, c.value.value)
  }

  /** (arg~2)* */
  function ArgsBytes(args: A.Args): Bytes {
    if args == [] then [] else Sized(2, args[0]) + ArgsBytes(args[1..])
  }

  /** Each link writes its piece. */
  ghost predicate AllWritten(links: seq<Schema>, items: seq<Value>, pieces: seq<Bytes>) {
    |links| == |items| == |pieces| && forall i | 0 <= i < |links| :: Write(links[i], items[i]) == Some(pieces[i])
  }

  lemma {:induction false} AllWrittenAppend(
      links: seq<Schema>, items: seq<Value>, pieces: seq<Bytes>,
      links': seq<Schema>, items': seq<Value>, pieces': seq<Bytes>)
    requires AllWritten(links, items, pieces) && AllWritten(links', items', pieces')
    ensures AllWritten(links + links', items + items', pieces + pieces')
  {
  }

  lemma {:induction false} PiecesWritten(links: seq<Schema>, items: seq<Value>, pieces: seq<Bytes>)
    requires AllWritten(links, items, pieces)
    ensures WriteChain(links, items) == Some(Concat(pieces))
  {
    if links != [] {
      PiecesWritten(links[1..], items[1..], pieces[1..]);
      ConcatFirst(pieces);
    }
  }

  lemma {:induction false} NumberWritten(width: nat, n: nat)
    requires Fits(Number(width), Num(n))
    ensures Write(Number(width), Num(n)) == Some(N(width, n))
  {
  }

  lemma {:induction false} BlobWritten(width: nat, b: Bytes)
    requires Fits(Blob(width), Text(b))
    ensures Write(Blob(width), Text(b)) == Some(Sized(width, b))
  {
  }

  lemma {:induction false} TracingWritten(t: Tracing)
    requires Fits(TracingSchema(), TracingValue(t))
    ensures Write(TracingSchema(), TracingValue(t)) == Some(TracingBytes(t))
  {
    var links, items := TracingSchema().links, TracingValue(t).items;
    assert forall i | 0 <= i < 4 :: Fits(links[i], items[i]);
    assert items[0].n < Capacity(8) && items[1].n < Capacity(8) && items[2].n < Capacity(8) && items[3].n < Capacity(1);
    FourWritten(links, items, N(8, t.span), N(8, t.parent), N(8, t.trace), N(1, t.flags));
  }

  lemma {:induction false} PairWritten(key: Bytes, value: Bytes)
    requires |key| < Capacity(1) && |value| < Capacity(1)
    ensures Write(Chain([Blob(1), Blob(1)]), List([Text(key), Text(value)])) == Some(Sized(1, key) + Sized(1, value))
  {
    var pieces: seq<Bytes> := [Sized(1, key), Sized(1, value)];
    PiecesWritten([Blob(1), Blob(1)], [Text(key), Text(value)], pieces);
    ConcatFirst(pieces);
    ConcatFirst(pieces[1..]);
    assert pieces[1..][1..] == [] && Sized(1, value) == Sized(1, value) + [];
  }

  lemma {:induction false} PairsWritten(headers: seq<Header>)
    requires forall i | 0 <= i < |headers| :: |headers[i].key| < Capacity(1) && |headers[i].value| < Capacity(1)
    ensures WriteEach(Chain([Blob(1), Blob(1)]), PairValues(headers)) == Some(PairsBytes(headers))
  {
    if headers != [] {
      PairsWritten(headers[1..]);
      PairWritten(headers[0].key, headers[0].value);
      assert PairValues(headers)[1..] == PairValues(headers[1..]);
    }
  }

  lemma {:induction false} HeadersWritten(headers: seq<Header>)
    requires Fits(HeadersSchema(), List(PairValues(headers)))
    ensures Write(HeadersSchema(), List(PairValues(headers))) == Some(HeadersBytes(headers))
  {
    forall i | 0 <= i < |headers| ensures |headers[i].key| < Capacity(1) && |headers[i].value| < Capacity(1) {
      var pair, links := PairValues(headers)[i], [Blob(1), Blob(1)];
      assert Fits(Chain(links), pair);
      assert Fits(links[0], pair.items[0]) && Fits(links[1], pair.items[1]);
    }
    PairsWritten(headers);
  }

  lemma {:induction false} ChecksumWritten(c: Checksum)
    requires ChecksumFits(c)
    ensures Write(ChecksumSchema(), ChecksumValue(c)) == Some(ChecksumBytes(c))
  {
    SmallCapacities();
  }

  lemma {:induction false} ArgsWritten(args: A.Args)
    requires forall i | 0 <= i < |args| :: |args[i]| < Capacity(2)
    ensures WriteArgs(2, ArgValues(args)) == Some(ArgsBytes(args))
  {
    if args != [] {
      ArgsWritten(args[1..]);
      assert ArgValues(args)[1..] == ArgValues(args[1..]);
    }
  }

  /** Checksum and arguments are at the end of every payload. */
  lemma {:induction false} EndWritten(m: Message)
    requires Encodable(m)
    ensures AllWritten([ChecksumSchema(), Args(2, 3)], [ChecksumValue(m.checksum), List(ArgValues(m.args))],
                       [ChecksumBytes(m.checksum), ArgsBytes(m.args)])
  {
    ChecksumWritten(m.checksum);
    ArgsWritten(m.args);
  }

  lemma {:induction false} PayloadWritten(m: Message, header: seq<Bytes>)
    requires Encodable(m) && AllWritten(HeaderSchemas(m.kind), m.header, header)
    ensures WritePayload(m)
         == Some(Concat([N(1, m.flags)] + header + [ChecksumBytes(m.checksum), ArgsBytes(m.args)]))
  {
    SmallCapacities();
    EndWritten(m);
    AllWrittenAppend([Number(1)], [Num(m.flags)], [N(1, m.flags)], HeaderSchemas(m.kind), m.header, header);
    var links, items := [Number(1)] + HeaderSchemas(m.kind), [Num(m.flags)] + m.header;
    var pieces := [N(1, m.flags)] + header;
    var links', items' := [ChecksumSchema(), Args(2, 3)], [ChecksumValue(m.checksum), List(ArgValues(m.args))];
    var pieces' := [ChecksumBytes(m.checksum), ArgsBytes(m.args)];
    AllWrittenAppend(links, items, pieces, links', items', pieces');
    assert links + [ChecksumSchema()] + [Args(2, 3)] == links + links';
    assert items + [ChecksumValue(m.checksum)] + [List(ArgValues(m.args))] == items + items';
    PiecesWritten(links + links', items + items', pieces + pieces');
  }

  lemma {:induction false} FitsAt(m: Message, i: nat)
    requires HeaderFits(m) && i < |m.header|
    ensures |HeaderSchemas(m.kind)| == |m.header| && Fits(HeaderSchemas(m.kind)[i], m.header[i])
  {
  }

  lemma {:induction false} RequestHeader(m: Message, ttl: nat, t: Tracing, service: Bytes, headers: seq<Header>)
    requires HeaderFits(m) && m.kind == CallRequest
    requires m.header == [Num(ttl), TracingValue(t), Text(service), List(PairValues(headers))]
    ensures AllWritten(HeaderSchemas(CallRequest), m.header,
                       [N(4, ttl), TracingBytes(t), Sized(1, service), HeadersBytes(headers)])
  {
    var schemas := HeaderSchemas(CallRequest);
    var pieces := [N(4, ttl), TracingBytes(t), Sized(1, service), HeadersBytes(headers)];
    forall i | 0 <= i < 4 ensures Write(schemas[i], m.header[i]) == Some(pieces[i]) {
      FitsAt(m, i);
      if i == 0 { NumberWritten(4, ttl); }
      else if i == 1 { TracingWritten(t); }
      else if i == 2 { BlobWritten(1, service); }
      else { HeadersWritten(headers); }
    }
  }

  /** flags:1 ttl:4 tracing:25 service~1 nh:1 (hk~1 hv~1){nh} csumtype:1 (csum:4){0,1} arg1~2 arg2~2 arg3~2 */
  lemma {:induction false} RequestIsLaidOut(m: Message, ttl: nat, t: Tracing, service: Bytes, headers: seq<Header>)
    requires Encodable(m) && m.kind == CallRequest
    requires m.header == [Num(ttl), TracingValue(t), Text(service), List(PairValues(headers))]
    ensures WritePayload(m) == Some(Concat([
      N(1, m.flags), N(4, ttl), TracingBytes(t), Sized(1, service), HeadersBytes(headers),
      ChecksumBytes(m.checksum), ArgsBytes(m.args)]))
  {
    RequestHeader(m, ttl, t, service, headers);
    var header := [N(4, ttl), TracingBytes(t), Sized(1, service), HeadersBytes(headers)];
    PayloadWritten(m, header);
    assert [N(1, m.flags)] + header + [ChecksumBytes(m.checksum), ArgsBytes(m.args)] == [
      N(1, m.flags), N(4, ttl), TracingBytes(t), Sized(1, service), HeadersBytes(headers),
      ChecksumBytes(m.checksum), ArgsBytes(m.args)];
  }

  lemma {:induction false} ResponseHeader(m: Message, code: nat, t: Tracing, headers: seq<Header>)
    requires HeaderFits(m) && m.kind == CallResponse
    requires m.header == [Num(code), TracingValue(t), List(PairValues(headers))]
    ensures AllWritten(HeaderSchemas(CallResponse), m.header, [N(1, code), TracingBytes(t), HeadersBytes(headers)])
  {
    var schemas, pieces := HeaderSchemas(CallResponse), [N(1, code), TracingBytes(t), HeadersBytes(headers)];
    forall i | 0 <= i < 3 ensures Write(schemas[i], m.header[i]) == Some(pieces[i]) {
      FitsAt(m, i);
      if i == 0 { NumberWritten(1, code); } else if i == 1 { TracingWritten(t); } else { HeadersWritten(headers); }
    }
  }

  /** flags:1 code:1 tracing:25 nh:1 (hk~1 hv~1){nh} csumtype:1 (csum:4){0,1} arg1~2 arg2~2 arg3~2 */
  lemma {:induction false} ResponseIsLaidOut(m: Message, code: nat, t: Tracing, headers: seq<Header>)
    requires Encodable(m) && m.kind == CallResponse
    requires m.header == [Num(code), TracingValue(t), List(PairValues(headers))]
    ensures WritePayload(m) == Some(Concat([
      N(1, m.flags), N(1, code), TracingBytes(t), HeadersBytes(headers),
      ChecksumBytes(m.checksum), ArgsBytes(m.args)]))
  {
    ResponseHeader(m, code, t, headers);
    var header := [N(1, code), TracingBytes(t), HeadersBytes(headers)];
    PayloadWritten(m, header);
    assert [N(1, m.flags)] + header + [ChecksumBytes(m.checksum), ArgsBytes(m.args)] == [
      N(1, m.flags), N(1, code), TracingBytes(t), HeadersBytes(headers),
      ChecksumBytes(m.checksum), ArgsBytes(m.args)];
  }

  /** flags:1 csumtype:1 (csum:4){0,1} (arg~2)* */
  lemma {:induction false} ContinueIsLaidOut(m: Message)
    requires Encodable(m) && m.kind in {CallRequestContinue, CallResponseContinue}
    ensures WritePayload(m) == Some(Concat([N(1, m.flags), ChecksumBytes(m.checksum), ArgsBytes(m.args)]))
  {
    PayloadWritten(m, []);
    assert [N(1, m.flags)] + [] + [ChecksumBytes(m.checksum), ArgsBytes(m.args)]
        == [N(1, m.flags), ChecksumBytes(m.checksum), ArgsBytes(m.args)];
  }

  // ---------- messages ----------

  /** The type byte of each kind of message. */
  function TypeByte(kind: Kind): Byte {
    match kind
    case CallRequest => 3
    case CallResponse => 4
    case CallRequestContinue => 19
    case CallResponseContinue => 20
  }

  /** A message is its payload in a frame of its type and id. */
  lemma {:induction false} MessageIsLaidOut(m: Message) returns (b: Bytes, payload: Bytes)
    requires Sendable(m)
    ensures WritePayload(m) == Some(payload) && WriteMessage(m) == Some(b)
    ensures IsFrame(b, TypeByte(m.kind), m.id, payload)
  {
    SmallCapacities();
    SendableIsEncodable(m);
    PayloadLength(m);
    payload := WritePayload(m).value;
    b := FrameIsLaidOut(m.kind.Code(), m.id, payload);
  }

  /** The kind and id of a message that is read are those of its frame. */
  lemma {:induction false} ReadByType(b: Bytes)
    requires ReadMessage(b).Parsed?
    ensures var m := ReadMessage(b).value;
            |b| >= 16 && b[2] == TypeByte(m.kind) && m.id == Number4(b[4..8])
  {
    AnyBytesRead(b);
  }
}
