/**
 * The ReadWriter combinators of tchannel/rw.py. A schema is a tree of combinators; the
 * functions Write, Read, Length and Width give its meaning, and the methods at the end are
 * the stream-consuming, stream-appending form the source has.
 */
module ReadWriter {
  import opened Wrappers
  import opened Bytes

  datatype Schema =
    | Nothing                                       // none()
    | Number(width: nat)                            // number(width)
    | Blob(width: nat)                              // len_prefixed_string(number(width))
    | Chain(links: seq<Schema>)                     // chain, dictionary, instance
    | Headers(width: nat, pair: Schema)             // headers(number(width), ...)
    | Constant(inner: Schema, value: Value)         // constant(rw, value)
    | Switch(width: nat, cases: map<nat, Schema>)   // switch(number(width), cases)
    | Args(width: nat, num: nat)                    // args(number(width)), num arguments

  datatype Value =
    | NoValue
    | Num(n: int)
    | Text(bytes: Bytes)
    | List(items: seq<Value>)
    | Tagged(tag: int, payload: Value)

  /** What reading yields: a value and the unread input, or a ReadError. */
  datatype Parsed<+T> = Parsed(value: T, rest: Bytes) | ReadError

  // ---------- write ----------

  function WriteNumber(width: nat, n: int): Option<Bytes> {
    if 0 <= n < Capacity(width) then Some(BigEndian(width, n)) else None
  }

  function Both(a: Option<Bytes>, b: Option<Bytes>): Option<Bytes> {
    if a.Some? && b.Some? then Some(a.value + b.value) else None
  }

  function WriteBlob(width: nat, v: Value): Option<Bytes> {
    if v.Text? then Both(WriteNumber(width, |v.bytes|), Some(v.bytes)) else None
  }

  function WriteArgs(width: nat, args: seq<Value>): Option<Bytes> {
    if args == [] then Some([]) else Both(WriteBlob(width, args[0]), WriteArgs(width, args[1..]))
  }

  /** The bytes written, or None where the source raises. */
  function Write(s: Schema, v: Value): Option<Bytes>
    decreases s, 0
  {
    match s
    case Nothing => Some([])
    case Number(width) => if v.Num? then WriteNumber(width, v.n) else None
    case Blob(width) => WriteBlob(width, v)
    case Chain(links) => if v.List? && |v.items| == |links| then WriteChain(links, v.items) else None
    case Headers(width, pair) =>
      if v.List? then Both(WriteNumber(width, |v.items|), WriteEach(pair, v.items)) else None
    case Constant(inner, value) => Write(inner, value)
    case Switch(width, cases) =>
      if !v.Tagged? then None
      else if v.payload != NoValue && v.tag in cases
      then Both(WriteNumber(width, v.tag), Write(cases[v.tag], v.payload))
      else WriteNumber(width, v.tag)
    case Args(width, _) => if v.List? then WriteArgs(width, v.items) else None
  }

  function WriteChain(links: seq<Schema>, items: seq<Value>): Option<Bytes>
    requires |items| == |links|
    decreases links, 0
  {
    if links == [] then Some([]) else Both(Write(links[0], items[0]), WriteChain(links[1..], items[1..]))
  }

  function WriteEach(s: Schema, items: seq<Value>): Option<Bytes>
    decreases s, 1 + |items|
  {
    if items == [] then Some([]) else Both(Write(s, items[0]), WriteEach(s, items[1..]))
  }

  // ---------- read ----------

  function Take(b: Bytes, n: nat): Parsed<Bytes> {
    if n <= |b| then Parsed(b[..n], b[n..]) else ReadError
  }

  function ReadNumber(width: nat, b: Bytes): Parsed<nat> {
    match Take(b, width)
    case Parsed(taken, rest) => Parsed(FromBigEndian(taken), rest)
    case ReadError => ReadError
  }

  function ReadBlob(width: nat, b: Bytes): Parsed<Bytes> {
    match ReadNumber(width, b)
    case Parsed(length, rest) => Take(rest, length)
    case ReadError => ReadError
  }

  function Prepend<T>(items: seq<T>, others: Parsed<seq<T>>): Parsed<seq<T>> {
    match others
    case Parsed(more, rest) => Parsed(items + more, rest)
    case ReadError => ReadError
  }

  function Read(s: Schema, b: Bytes): Parsed<Value>
    decreases s, 0
  {
    match s
    case Nothing => Parsed(NoValue, b)
    case Number(width) =>
      (match ReadNumber(width, b)
       case Parsed(n, rest) => Parsed(Num(n), rest)
       case ReadError => ReadError)
    case Blob(width) =>
      (match ReadBlob(width, b)
       case Parsed(bytes, rest) => Parsed(Text(bytes), rest)
       case ReadError => ReadError)
    case Chain(links) =>
      (match ReadChain(links, b)
       case Parsed(items, rest) => Parsed(List(items), rest)
       case ReadError => ReadError)
    case Headers(width, pair) =>
      (match ReadNumber(width, b)
       case Parsed(count, rest) =>
         (match ReadEach(pair, count, rest)
          case Parsed(items, rest') => Parsed(List(items), rest')
          case ReadError => ReadError)
       case ReadError => ReadError)
    case Constant(inner, value) =>
      (match Read(inner, b)
       case Parsed(_, rest) => Parsed(value, rest)
       case ReadError => ReadError)
    case Switch(width, cases) =>
      (match ReadNumber(width, b)
       case Parsed(tag, rest) =>
         if tag !in cases then Parsed(Tagged(tag, NoValue), rest) else
         (match Read(cases[tag], rest)
          case Parsed(payload, rest') => Parsed(Tagged(tag, payload), rest')
          case ReadError => ReadError)
       case ReadError => ReadError)
    case Args(width, num) =>
      (match ReadArgs(width, num, b)
       case Parsed(items, rest) => Parsed(List(items), rest))
  }

  function ReadChain(links: seq<Schema>, b: Bytes): Parsed<seq<Value>>
    decreases links, 0
  {
    if links == [] then Parsed([], b) else
    match Read(links[0], b)
    case ReadError => ReadError
    case Parsed(first, rest) =>
      Prepend([first], ReadChain(links[1..], rest))
  }

  function ReadEach(s: Schema, count: nat, b: Bytes): Parsed<seq<Value>>
    decreases s, 1 + count
  {
    if count == 0 then Parsed([], b) else
    match Read(s, b)
    case ReadError => ReadError
    case Parsed(first, rest) =>
      Prepend([first], ReadEach(s, count - 1, rest))
  }

  /** Reads up to `num` arguments; a ReadError ends the run, with the input used up. */
  function ReadArgs(width: nat, num: nat, b: Bytes): (r: Parsed<seq<Value>>)
    ensures r.Parsed?
    decreases num
  {
    if num == 0 then Parsed([], b) else
    match ReadBlob(width, b)
    case ReadError => Parsed([], [])
    case Parsed(first, rest) => Prepend([Text(first)], ReadArgs(width, num - 1, rest))
  }

  // ---------- length and width ----------

  /** The source's `length`, for a value that can be written. */
  function Length(s: Schema, v: Value): nat
    decreases s, 0
  {
    match s
    case Nothing => 0
    case Number(width) => width
    case Blob(width) => if v.Text? then |v.bytes| + width else 0
    case Chain(links) => if v.List? && |v.items| == |links| then LengthChain(links, v.items) else 0
    case Headers(width, pair) => if v.List? then width + LengthEach(pair, v.items) else 0
    case Constant(inner, _) => Width(inner)
    case Switch(width, cases) =>
      width + (if v.Tagged? && v.payload != NoValue && v.tag in cases then Length(cases[v.tag], v.payload) else 0)
    case Args(width, _) => if v.List? then LengthArgs(width, v.items) else 0
  }

  function LengthArgs(width: nat, args: seq<Value>): nat {
    if args == [] then 0
    else (if args[0].Text? then |args[0].bytes| + width else 0) + LengthArgs(width, args[1..])
  }

  function LengthChain(links: seq<Schema>, items: seq<Value>): nat
    requires |items| == |links|
    decreases links, 0
  {
    if links == [] then 0 else Length(links[0], items[0]) + LengthChain(links[1..], items[1..])
  }

  function LengthEach(s: Schema, items: seq<Value>): nat
    decreases s, 1 + |items|
  {
    if items == [] then 0 else Length(s, items[0]) + LengthEach(s, items[1..])
  }

  function Width(s: Schema): nat
    decreases s
  {
    match s
    case Nothing => 0
    case Number(width) => width
    case Blob(width) => width
    case Chain(links) => WidthChain(links)
    case Headers(width, _) => width
    case Constant(inner, _) => Width(inner)
    case Switch(width, _) => width
    case Args(width, num) => num * width
  }

  function WidthChain(links: seq<Schema>): nat
    decreases links
  {
    if links == [] then 0 else Width(links[0]) + WidthChain(links[1..])
  }

  // ---------- which schemas and values the laws are about ----------

  /** No `args` inside: its reader needs the end of the input. */
  predicate ArgFree(s: Schema)
    decreases s
  {
    match s
    case Chain(links) => forall i | 0 <= i < |links| :: ArgFree(links[i])
    case Headers(_, pair) => ArgFree(pair)
    case Constant(inner, _) => ArgFree(inner)
    case Switch(_, cases) => forall k | k in cases :: ArgFree(cases[k])
    case Args(_, _) => false
    case _ => true
  }

  /** The values a schema is for: the ones it can write and that its reader produces. */
  predicate Fits(s: Schema, v: Value)
    decreases s
  {
    match s
    case Nothing => v == NoValue
    case Number(width) => v.Num? && 0 <= v.n < Capacity(width)
    case Blob(width) => FitsBlob(width, v)
    case Chain(links) =>
      v.List? && |v.items| == |links| && forall i | 0 <= i < |links| :: Fits(links[i], v.items[i])
    case Headers(width, pair) =>
      v.List? && |v.items| < Capacity(width) && forall i | 0 <= i < |v.items| :: Fits(pair, v.items[i])
    case Constant(inner, value) => v == value && Fits(inner, value)
    case Switch(width, cases) =>
      && v.Tagged? && 0 <= v.tag < Capacity(width)
      && (if v.tag !in cases then v.payload == NoValue
          else if v.payload == NoValue then cases[v.tag] == Nothing
          else Fits(cases[v.tag], v.payload))
    case Args(width, num) =>
      v.List? && |v.items| <= num && forall i | 0 <= i < |v.items| :: FitsBlob(width, v.items[i])
  }

  predicate FitsBlob(width: nat, v: Value) { v.Text? && |v.bytes| < Capacity(width) }

  // ---------- reading inverts writing ----------

  lemma {:induction false} Regroup(a: Bytes, b: Bytes, c: Bytes)
    ensures a + b + c == a + (b + c)
  {
  }

  lemma {:induction false} NumberRoundTrip(width: nat, n: nat, rest: Bytes)
    requires n < Capacity(width)
    ensures ReadNumber(width, BigEndian(width, n) + rest) == Parsed(n, rest)
  {
    FromBigEndianInverts(width, n);
  }

  lemma {:induction false} BlobRoundTrip(width: nat, bytes: Bytes, rest: Bytes)
    requires |bytes| < Capacity(width)
    ensures ReadBlob(width, BigEndian(width, |bytes|) + bytes + rest) == Parsed(bytes, rest)
  {
    NumberRoundTrip(width, |bytes|, bytes + rest);
    assert BigEndian(width, |bytes|) + bytes + rest == BigEndian(width, |bytes|) + (bytes + rest);
  }

  /** Reading what was written yields the value and leaves the rest of the input alone. */
  lemma {:induction false} RoundTrip(s: Schema, v: Value, rest: Bytes)
    requires ArgFree(s) && Fits(s, v)
    ensures Write(s, v).Some? && Read(s, Write(s, v).value + rest) == Parsed(v, rest)
    decreases s, 0
  {
    match s
    case Nothing =>
    case Number(width) => NumberRoundTrip(width, v.n, rest);
    case Blob(width) => BlobRoundTrip(width, v.bytes, rest);
    case Chain(links) => ChainRoundTrip(links, v.items, rest);
    case Headers(width, pair) =>
      EachRoundTrip(pair, v.items, rest);
      PrefixedRead(width, |v.items|, WriteEach(pair, v.items).value, rest);
    case Constant(inner, value) => RoundTrip(inner, value, rest);
    case Switch(width, cases) =>
      if v.tag in cases && v.payload != NoValue {
        RoundTrip(cases[v.tag], v.payload, rest);
        PrefixedRead(width, v.tag, Write(cases[v.tag], v.payload).value, rest);
      } else {
        NumberRoundTrip(width, v.tag, rest);
      }
  }

  lemma {:induction false} PrefixedRead(width: nat, n: nat, body: Bytes, rest: Bytes)
    requires n < Capacity(width)
    ensures ReadNumber(width, BigEndian(width, n) + body + rest) == Parsed(n, body + rest)
  {
    NumberRoundTrip(width, n, body + rest);
    assert BigEndian(width, n) + body + rest == BigEndian(width, n) + (body + rest);
  }

  /** One link of a chain, then the others. */
  lemma {:induction false} ChainStep(
      links: seq<Schema>, b: Bytes, b1: Bytes, first: Value, others: seq<Value>, rest: Bytes)
    requires links != []
    requires Read(links[0], b) == Parsed(first, b1) && ReadChain(links[1..], b1) == Parsed(others, rest)
    ensures ReadChain(links, b) == Parsed([first] + others, rest)
  {
  }

  lemma {:induction false} ChainRoundTrip(links: seq<Schema>, items: seq<Value>, rest: Bytes)
    requires |items| == |links|
    requires forall i | 0 <= i < |links| :: ArgFree(links[i]) && Fits(links[i], items[i])
    ensures WriteChain(links, items).Some?
    ensures ReadChain(links, WriteChain(links, items).value + rest) == Parsed(items, rest)
    decreases links, 0
  {
    if links == [] {
      assert WriteChain(links, items).value + rest == rest;
    } else {
      assert [items[0]] + items[1..] == items;
      ChainRoundTrip(links[1..], items[1..], rest);
      var tail := WriteChain(links[1..], items[1..]).value;
      RoundTrip(links[0], items[0], tail + rest);
      var head := Write(links[0], items[0]).value;
      Regroup(head, tail, rest);
      ChainStep(links, head + (tail + rest), tail + rest, items[0], items[1..], rest);
    }
  }

  lemma {:induction false} EachStep(
      s: Schema, count: nat, b: Bytes, b1: Bytes, first: Value, others: seq<Value>, rest: Bytes)
    requires count > 0
    requires Read(s, b) == Parsed(first, b1) && ReadEach(s, count - 1, b1) == Parsed(others, rest)
    ensures ReadEach(s, count, b) == Parsed([first] + others, rest)
  {
  }

  lemma {:induction false} ArgsStep(
      width: nat, num: nat, b: Bytes, b1: Bytes, first: Bytes, others: seq<Value>, rest: Bytes)
    requires num > 0
    requires ReadBlob(width, b) == Parsed(first, b1) && ReadArgs(width, num - 1, b1) == Parsed(others, rest)
    ensures ReadArgs(width, num, b) == Parsed([Text(first)] + others, rest)
  {
  }

  lemma {:induction false} EachRoundTrip(s: Schema, items: seq<Value>, rest: Bytes)
    requires ArgFree(s) && forall i | 0 <= i < |items| :: Fits(s, items[i])
    ensures WriteEach(s, items).Some?
    ensures ReadEach(s, |items|, WriteEach(s, items).value + rest) == Parsed(items, rest)
    decreases s, 1 + |items|
  {
    if items == [] {
      assert WriteEach(s, items).value + rest == rest;
    } else {
      EachRoundTrip(s, items[1..], rest);
      var tail := WriteEach(s, items[1..]).value;
      RoundTrip(s, items[0], tail + rest);
      var head := Write(s, items[0]).value;
      Regroup(head, tail, rest);
      ItemInFront(s, items, head, tail + rest, rest);
    }
  }

  lemma {:induction false} ItemInFront(s: Schema, items: seq<Value>, head: Bytes, body: Bytes, rest: Bytes)
    requires items != [] && Read(s, head + body) == Parsed(items[0], body)
    requires ReadEach(s, |items| - 1, body) == Parsed(items[1..], rest)
    ensures ReadEach(s, |items|, head + body) == Parsed(items, rest)
  {
    EachStep(s, |items|, head + body, body, items[0], items[1..], rest);
    assert [items[0]] + items[1..] == items;
  }

  /**
   * Arguments at the end of the input: fewer than `num` are read back if what follows them is
   * not another complete argument, and exactly `num` whatever follows.
   */
  lemma {:induction false} ArgsRoundTrip(width: nat, num: nat, args: seq<Value>, rest: Bytes)
    requires |args| <= num && forall i | 0 <= i < |args| :: FitsBlob(width, args[i])
    requires |args| == num || ReadBlob(width, rest) == ReadError
    ensures WriteArgs(width, args).Some?
    ensures ReadArgs(width, num, WriteArgs(width, args).value + rest)
         == Parsed(args, if |args| == num then rest else [])
  {
    if args == [] {
      assert [] + rest == rest;
    } else {
      ArgsRoundTrip(width, num - 1, args[1..], rest);
      ArgInFront(width, num, args, WriteArgs(width, args[1..]).value, rest, if |args| == num then rest else []);
    }
  }

  lemma {:induction false} ArgInFront(width: nat, num: nat, args: seq<Value>, tail: Bytes, rest: Bytes, end: Bytes)
    requires num > 0 && args != [] && FitsBlob(width, args[0])
    requires WriteArgs(width, args[1..]) == Some(tail)
    requires ReadArgs(width, num - 1, tail + rest) == Parsed(args[1..], end)
    ensures WriteArgs(width, args).Some?
    ensures ReadArgs(width, num, WriteArgs(width, args).value + rest) == Parsed(args, end)
  {
    OneMoreArg(width, num, args, tail, rest);
    assert args[..1] + args[1..] == args;
  }

  lemma {:induction false} OneMoreArg(width: nat, num: nat, args: seq<Value>, tail: Bytes, rest: Bytes)
    requires num > 0 && args != [] && FitsBlob(width, args[0])
    requires WriteArgs(width, args[1..]) == Some(tail)
    ensures WriteArgs(width, args).Some?
    ensures ReadArgs(width, num, WriteArgs(width, args).value + rest)
         == Prepend(args[..1], ReadArgs(width, num - 1, tail + rest))
  {
    var head := WriteBlob(width, args[0]).value;
    BlobRoundTrip(width, args[0].bytes, tail + rest);
    Regroup(head, tail, rest);
    var Parsed(others, end) := ReadArgs(width, num - 1, tail + rest);
    ArgsStep(width, num, head + (tail + rest), tail + rest, args[0].bytes, others, end);
    assert [args[0]] == args[..1];
  }

  /** A message: fields of any kind, then the arguments, then the end of the input. */
  lemma {:induction false} MessageRoundTrip(
      fields: seq<Schema>, width: nat, num: nat, items: seq<Value>, args: seq<Value>)
    requires |items| == |fields| && 0 < width
    requires forall i | 0 <= i < |fields| :: ArgFree(fields[i]) && Fits(fields[i], items[i])
    requires Fits(Args(width, num), List(args))
    ensures WriteChain(fields, items).Some? && WriteArgs(width, args).Some?
    ensures var s, v := Chain(fields + [Args(width, num)]), List(items + [List(args)]);
            && Write(s, v) == Some(WriteChain(fields, items).value + WriteArgs(width, args).value)
            && Read(s, Write(s, v).value) == Parsed(v, [])
  {
    ArgsRoundTrip(width, num, args, []);
    var tail := WriteArgs(width, args).value;
    assert tail + [] == tail;
    FieldsThenTail(fields, width, num, items, tail);
    WriteFieldsThenArgs(fields, width, num, items, args);
  }

  lemma {:induction false} WriteFieldsThenArgs(
      fields: seq<Schema>, width: nat, num: nat, items: seq<Value>, args: seq<Value>)
    requires |items| == |fields| && WriteChain(fields, items).Some? && WriteArgs(width, args).Some?
    ensures WriteChain(fields + [Args(width, num)], items + [List(args)])
         == Some(WriteChain(fields, items).value + WriteArgs(width, args).value)
  {
    var links, all, tail := fields + [Args(width, num)], items + [List(args)], WriteArgs(width, args).value;
    if fields == [] {
      assert links[1..] == [] && all[1..] == [] && links[0] == Args(width, num) && all[0] == List(args);
      assert tail + [] == tail && [] + tail == tail;
    } else {
      WriteFieldsThenArgs(fields[1..], width, num, items[1..], args);
      assert links[1..] == fields[1..] + [Args(width, num)];
      assert all[1..] == items[1..] + [List(args)];
      Regroup(Write(fields[0], items[0]).value, WriteChain(fields[1..], items[1..]).value, tail);
    }
  }

  /** Whatever follows the fields is read as arguments. */
  lemma {:induction false} FieldsThenTail(fields: seq<Schema>, width: nat, num: nat, items: seq<Value>, tail: Bytes)
    requires |items| == |fields|
    requires forall i | 0 <= i < |fields| :: ArgFree(fields[i]) && Fits(fields[i], items[i])
    ensures WriteChain(fields, items).Some?
    ensures var args := ReadArgs(width, num, tail);
            ReadChain(fields + [Args(width, num)], WriteChain(fields, items).value + tail)
            == Parsed(items + [List(args.value)], args.rest)
  {
    var args := ReadArgs(width, num, tail);
    if fields == [] {
      ArgsAlone(width, num, tail);
      assert [] + tail == tail && [] + [List(args.value)] == [List(args.value)];
      assert fields + [Args(width, num)] == [Args(width, num)];
    } else {
      FieldsThenTail(fields[1..], width, num, items[1..], tail);
      var body := WriteChain(fields[1..], items[1..]).value;
      RoundTrip(fields[0], items[0], body + tail);
      var head := Write(fields[0], items[0]).value;
      FieldInFront(fields, Args(width, num), items, List(args.value), head, body + tail, args.rest);
      Regroup(head, body, tail);
    }
  }

  lemma {:induction false} ArgsAlone(width: nat, num: nat, b: Bytes)
    ensures var args := ReadArgs(width, num, b);
            ReadChain([Args(width, num)], b) == Parsed([List(args.value)], args.rest)
  {
    var links, args := [Args(width, num)], ReadArgs(width, num, b);
    assert links[1..] == [] && [List(args.value)] + [] == [List(args.value)];
    ChainStep(links, b, args.rest, List(args.value), [], args.rest);
  }

  lemma {:induction false} FieldInFront(
      fields: seq<Schema>, last: Schema, items: seq<Value>, lastItem: Value, head: Bytes, body: Bytes, rest: Bytes)
    requires fields != [] && |items| == |fields|
    requires Read(fields[0], head + body) == Parsed(items[0], body)
    requires ReadChain(fields[1..] + [last], body) == Parsed(items[1..] + [lastItem], rest)
    ensures ReadChain(fields + [last], head + body) == Parsed(items + [lastItem], rest)
  {
    var links := fields + [last];
    assert links[1..] == fields[1..] + [last];
    ChainStep(links, head + body, body, items[0], items[1..] + [lastItem], rest);
    assert [items[0]] + (items[1..] + [lastItem]) == items + [lastItem];
  }

  // ---------- truncated input ----------

  /** More input never changes what has been read. */
  lemma {:induction false} ReadExtends(s: Schema, b: Bytes, more: Bytes)
    requires ArgFree(s) && Read(s, b).Parsed?
    ensures Read(s, b + more) == Parsed(Read(s, b).value, Read(s, b).rest + more)
    decreases s, 0
  {
    match s
    case Nothing =>
    case Number(width) => NumberExtends(width, b, more);
    case Blob(width) =>
      NumberExtends(width, b, more);
      var n, rest := ReadNumber(width, b).value, ReadNumber(width, b).rest;
      assert (rest + more)[..n] == rest[..n] && (rest + more)[n..] == rest[n..] + more;
    case Chain(links) => ChainExtends(links, b, more);
    case Headers(width, pair) =>
      NumberExtends(width, b, more);
      EachExtends(pair, ReadNumber(width, b).value, ReadNumber(width, b).rest, more);
    case Constant(inner, _) => ReadExtends(inner, b, more);
    case Switch(width, cases) =>
      NumberExtends(width, b, more);
      var tag := ReadNumber(width, b).value;
      if tag in cases { ReadExtends(cases[tag], ReadNumber(width, b).rest, more); }
  }

  lemma {:induction false} NumberExtends(width: nat, b: Bytes, more: Bytes)
    requires width <= |b|
    ensures ReadNumber(width, b + more) == Parsed(ReadNumber(width, b).value, ReadNumber(width, b).rest + more)
  {
    assert (b + more)[..width] == b[..width] && (b + more)[width..] == b[width..] + more;
  }

  lemma {:induction false} ChainExtends(links: seq<Schema>, b: Bytes, more: Bytes)
    requires (forall i | 0 <= i < |links| :: ArgFree(links[i])) && ReadChain(links, b).Parsed?
    ensures ReadChain(links, b + more) == Parsed(ReadChain(links, b).value, ReadChain(links, b).rest + more)
    decreases links, 0
  {
    if links != [] {
      ReadExtends(links[0], b, more);
      ChainExtends(links[1..], Read(links[0], b).rest, more);
    }
  }

  lemma {:induction false} EachExtends(s: Schema, count: nat, b: Bytes, more: Bytes)
    requires ArgFree(s) && ReadEach(s, count, b).Parsed?
    ensures ReadEach(s, count, b + more) == Parsed(ReadEach(s, count, b).value, ReadEach(s, count, b).rest + more)
    decreases s, 1 + count
  {
    if count > 0 {
      ReadExtends(s, b, more);
      EachExtends(s, count - 1, Read(s, b).rest, more);
    }
  }

  lemma {:induction false} NoPrefixReads(s: Schema, v: Value, all: Bytes, n: nat)
    requires ArgFree(s) && n < |all| && Read(s, all) == Parsed(v, [])
    ensures Read(s, all[..n]) == ReadError
  {
    assert all[..n] + all[n..] == all;
    if Read(s, all[..n]).Parsed? { ReadExtends(s, all[..n], all[n..]); }
  }

  /** Every strict prefix of an encoding raises ReadError. */
  lemma {:induction false} TruncatedInputFails(s: Schema, v: Value, n: nat)
    requires ArgFree(s) && Fits(s, v)
    requires Write(s, v).Some? && n < |Write(s, v).value|
    ensures Read(s, Write(s, v).value[..n]) == ReadError
  {
    var all := Write(s, v).value;
    RoundTrip(s, v, []);
    assert all + [] == all;
    NoPrefixReads(s, v, all, n);
  }

  lemma {:induction false} ChainFailsEarly(fields: seq<Schema>, last: Schema, b: Bytes)
    requires ReadChain(fields, b) == ReadError
    ensures ReadChain(fields + [last], b) == ReadError
  {
    assert fields != [] && (fields + [last])[1..] == fields[1..] + [last];
    if Read(fields[0], b).Parsed? { ChainFailsEarly(fields[1..], last, Read(fields[0], b).rest); }
  }

  /** A message cut short inside its fields is a ReadError. */
  lemma {:induction false} TruncatedFieldsFail(
      fields: seq<Schema>, last: Schema, items: seq<Value>, n: nat, more: Bytes)
    requires |items| == |fields| && forall i | 0 <= i < |fields| :: ArgFree(fields[i]) && Fits(fields[i], items[i])
    requires WriteChain(fields, items).Some? && n < |WriteChain(fields, items).value|
    ensures Read(Chain(fields + [last]), (WriteChain(fields, items).value + more)[..n]) == ReadError
  {
    var head := WriteChain(fields, items).value;
    assert (head + more)[..n] == head[..n];
    TruncatedInputFails(Chain(fields), List(items), n);
    ChainFailsEarly(fields, last, head[..n]);
  }

  lemma {:induction false} CutBehind(head: Bytes, tail: Bytes, n: nat)
    requires |head| <= n <= |head| + |tail|
    ensures (head + tail)[..n] == head + tail[..n - |head|]
  {
  }

  lemma {:induction false} FieldsThenLeft(
      fields: seq<Schema>, width: nat, num: nat, items: seq<Value>, left: Bytes)
    requires |items| == |fields| && forall i | 0 <= i < |fields| :: ArgFree(fields[i]) && Fits(fields[i], items[i])
    requires WriteChain(fields, items).Some?
    ensures var run := ReadArgs(width, num, left);
            Read(Chain(fields + [Args(width, num)]), WriteChain(fields, items).value + left)
            == Parsed(List(items + [List(run.value)]), run.rest)
  {
    FieldsThenTail(fields, width, num, items, left);
  }

  /** Cut short inside its arguments it is accepted, with the longest run of complete arguments that is left. */
  lemma {:induction false} TruncatedArgsAccepted(
      fields: seq<Schema>, width: nat, num: nat, items: seq<Value>, args: seq<Value>, n: nat)
    requires |items| == |fields| && forall i | 0 <= i < |fields| :: ArgFree(fields[i]) && Fits(fields[i], items[i])
    requires WriteChain(fields, items).Some? && WriteArgs(width, args).Some?
    requires |WriteChain(fields, items).value| <= n
          <= |WriteChain(fields, items).value| + |WriteArgs(width, args).value|
    ensures var head, tail := WriteChain(fields, items).value, WriteArgs(width, args).value;
            var left := tail[..n - |head|];
            var run := ReadArgs(width, num, left);
            && Read(Chain(fields + [Args(width, num)]), (head + tail)[..n])
               == Parsed(List(items + [List(run.value)]), run.rest)
            && LongestRun(width, num, left, run.value, run.rest)
  {
    var head, tail := WriteChain(fields, items).value, WriteArgs(width, args).value;
    var left := tail[..n - |head|];
    CutBehind(head, tail, n);
    FieldsThenLeft(fields, width, num, items, left);
    ArgsAreLongestRun(width, num, left);
  }

  // ---------- what width and length say about the bytes written ----------

  function Size(written: Option<Bytes>): nat { if written.Some? then |written.value| else 0 }

  function ContentArgs(args: seq<Value>): nat {
    if args == [] then 0 else (if args[0].Text? then |args[0].bytes| else 0) + ContentArgs(args[1..])
  }

  /** How many of the bytes written `width` cannot know of: texts, headers, what a switch selects. */
  function Content(s: Schema, v: Value): nat
    decreases s
  {
    match s
    case Blob(_) => if v.Text? then |v.bytes| else 0
    case Chain(links) => if v.List? && |v.items| == |links| then ContentChain(links, v.items) else 0
    case Headers(_, pair) => if v.List? then Size(WriteEach(pair, v.items)) else 0
    case Constant(inner, value) => Content(inner, value)
    case Switch(_, cases) =>
      if v.Tagged? && v.payload != NoValue && v.tag in cases then Size(Write(cases[v.tag], v.payload)) else 0
    case Args(_, _) => if v.List? then ContentArgs(v.items) else 0
    case _ => 0
  }

  function ContentChain(links: seq<Schema>, items: seq<Value>): nat
    requires |items| == |links|
    decreases links
  {
    if links == [] then 0 else Content(links[0], items[0]) + ContentChain(links[1..], items[1..])
  }

  /** The bytes of the length fields that `width` counts for arguments that are not there. */
  function MissingKeys(s: Schema, v: Value): int
    decreases s
  {
    match s
    case Chain(links) => if v.List? && |v.items| == |links| then MissingChain(links, v.items) else 0
    case Constant(inner, value) => MissingKeys(inner, value)
    case Args(width, num) => if v.List? then num * width - |v.items| * width else 0
    case _ => 0
  }

  function MissingChain(links: seq<Schema>, items: seq<Value>): int
    requires |items| == |links|
    decreases links
  {
    if links == [] then 0 else MissingKeys(links[0], items[0]) + MissingChain(links[1..], items[1..])
  }

  lemma {:induction false} OneMoreKey(width: nat, n: nat)
    ensures (n + 1) * width == n * width + width
  {
  }

  lemma {:induction false} ArgsBytes(width: nat, args: seq<Value>)
    requires WriteArgs(width, args).Some?
    ensures |WriteArgs(width, args).value| == |args| * width + ContentArgs(args)
  {
    if args == [] {
      assert 0 * width == 0;
    } else {
      ArgsBytes(width, args[1..]);
      OneMoreKey(width, |args[1..]|);
    }
  }

  lemma {:induction false} ArgsLength(width: nat, args: seq<Value>)
    requires WriteArgs(width, args).Some?
    ensures LengthArgs(width, args) == |WriteArgs(width, args).value|
  {
    if args != [] { ArgsLength(width, args[1..]); }
  }

  /** What is written is what `width` announces and the contents, less the length fields of missing arguments. */
  lemma {:induction false} WidthAccount(s: Schema, v: Value)
    requires Write(s, v).Some?
    ensures |Write(s, v).value| == Width(s) + Content(s, v) - MissingKeys(s, v)
    decreases s
  {
    match s
    case Chain(links) => ChainWidthAccount(links, v.items);
    case Constant(inner, value) => WidthAccount(inner, value);
    case Args(width, _) => ArgsBytes(width, v.items);
    case _ =>
  }

  lemma {:induction false} ChainWidthAccount(links: seq<Schema>, items: seq<Value>)
    requires |items| == |links| && WriteChain(links, items).Some?
    ensures |WriteChain(links, items).value|
         == WidthChain(links) + ContentChain(links, items) - MissingChain(links, items)
    decreases links
  {
    if links != [] {
      WidthAccount(links[0], items[0]);
      ChainWidthAccount(links[1..], items[1..]);
    }
  }

  lemma {:induction false} NothingMissing(s: Schema, v: Value)
    requires ArgFree(s)
    ensures MissingKeys(s, v) == 0
    decreases s
  {
    match s
    case Chain(links) => if v.List? && |v.items| == |links| { NothingMissingInChain(links, v.items); }
    case Constant(inner, value) => NothingMissing(inner, value);
    case _ =>
  }

  lemma {:induction false} NothingMissingInChain(links: seq<Schema>, items: seq<Value>)
    requires |items| == |links| && forall i | 0 <= i < |links| :: ArgFree(links[i])
    ensures MissingChain(links, items) == 0
    decreases links
  {
    if links != [] {
      NothingMissing(links[0], items[0]);
      NothingMissingInChain(links[1..], items[1..]);
    }
  }

  /**
   * `width` is a lower bound for what is written exactly when the contents make up for the
   * length fields of missing arguments; without arguments in the schema it always is.
   */
  lemma {:induction false} WidthIsLowerBound(s: Schema, v: Value)
    requires Write(s, v).Some?
    ensures Width(s) <= |Write(s, v).value| <==> MissingKeys(s, v) <= Content(s, v)
    ensures ArgFree(s) ==> Width(s) <= |Write(s, v).value|
  {
    WidthAccount(s, v);
    if ArgFree(s) { NothingMissing(s, v); }
  }

  lemma {:induction false} MissingAtEnd(fields: seq<Schema>, width: nat, num: nat, items: seq<Value>, args: seq<Value>)
    requires |items| == |fields| && forall i | 0 <= i < |fields| :: ArgFree(fields[i])
    ensures var links, all := fields + [Args(width, num)], items + [List(args)];
            && MissingChain(links, all) == num * width - |args| * width
            && ContentChain(links, all) == ContentChain(fields, items) + ContentArgs(args)
    decreases fields
  {
    var links, all := fields + [Args(width, num)], items + [List(args)];
    if fields == [] {
      assert links[1..] == [] && all[1..] == [];
    } else {
      MissingAtEnd(fields[1..], width, num, items[1..], args);
      NothingMissing(fields[0], items[0]);
      assert links[1..] == fields[1..] + [Args(width, num)];
      assert all[1..] == items[1..] + [List(args)];
    }
  }

  /** For a message, fields and then arguments: always when no argument is missing. */
  lemma {:induction false} WidthOfMessage(
      fields: seq<Schema>, width: nat, num: nat, items: seq<Value>, args: seq<Value>)
    requires |items| == |fields| && forall i | 0 <= i < |fields| :: ArgFree(fields[i])
    requires Write(Chain(fields + [Args(width, num)]), List(items + [List(args)])).Some?
    ensures var s, v := Chain(fields + [Args(width, num)]), List(items + [List(args)]);
            Width(s) <= |Write(s, v).value|
            <==> num * width <= |args| * width + ContentArgs(args) + ContentChain(fields, items)
    ensures |args| == num ==>
      Width(Chain(fields + [Args(width, num)]))
      <= |Write(Chain(fields + [Args(width, num)]), List(items + [List(args)])).value|
  {
    MissingAtEnd(fields, width, num, items, args);
    WidthIsLowerBound(Chain(fields + [Args(width, num)]), List(items + [List(args)]));
  }

  /** No arguments at all are announced with six bytes and written with none. */
  lemma {:induction false} NoArgsBelowWidth()
    ensures Write(Args(2, 3), List([])) == Some([]) && Width(Args(2, 3)) == 6
  {
  }

  /** What the constants written for a value take beyond their widths. */
  function ConstantSurplus(s: Schema, v: Value): int
    decreases s, 0
  {
    match s
    case Chain(links) => if v.List? && |v.items| == |links| then SurplusChain(links, v.items) else 0
    case Headers(_, pair) => if v.List? then SurplusEach(pair, v.items) else 0
    case Constant(inner, value) => Content(inner, value) - MissingKeys(inner, value)
    case Switch(_, cases) =>
      if v.Tagged? && v.payload != NoValue && v.tag in cases then ConstantSurplus(cases[v.tag], v.payload) else 0
    case _ => 0
  }

  function SurplusChain(links: seq<Schema>, items: seq<Value>): int
    requires |items| == |links|
    decreases links, 0
  {
    if links == [] then 0 else ConstantSurplus(links[0], items[0]) + SurplusChain(links[1..], items[1..])
  }

  function SurplusEach(s: Schema, items: seq<Value>): int
    decreases s, 1 + |items|
  {
    if items == [] then 0 else ConstantSurplus(s, items[0]) + SurplusEach(s, items[1..])
  }

  /** `length` is off by exactly that much, for every schema. */
  lemma {:induction false} LengthAccount(s: Schema, v: Value)
    requires Write(s, v).Some?
    ensures |Write(s, v).value| == Length(s, v) + ConstantSurplus(s, v)
    decreases s, 0
  {
    match s
    case Chain(links) => ChainLengthAccount(links, v.items);
    case Headers(_, pair) => EachLengthAccount(pair, v.items);
    case Constant(inner, value) => WidthAccount(inner, value);
    case Switch(_, cases) =>
      if v.payload != NoValue && v.tag in cases { LengthAccount(cases[v.tag], v.payload); }
    case Args(width, _) => ArgsLength(width, v.items);
    case _ =>
  }

  lemma {:induction false} ChainLengthAccount(links: seq<Schema>, items: seq<Value>)
    requires |items| == |links| && WriteChain(links, items).Some?
    ensures |WriteChain(links, items).value| == LengthChain(links, items) + SurplusChain(links, items)
    decreases links, 0
  {
    if links != [] {
      LengthAccount(links[0], items[0]);
      ChainLengthAccount(links[1..], items[1..]);
    }
  }

  lemma {:induction false} EachLengthAccount(s: Schema, items: seq<Value>)
    requires WriteEach(s, items).Some?
    ensures |WriteEach(s, items).value| == LengthEach(s, items) + SurplusEach(s, items)
    decreases s, 1 + |items|
  {
    if items != [] {
      LengthAccount(s, items[0]);
      EachLengthAccount(s, items[1..]);
    }
  }

  /** No constant has arguments inside. */
  predicate PlainConstants(s: Schema)
    decreases s
  {
    match s
    case Chain(links) => forall i | 0 <= i < |links| :: PlainConstants(links[i])
    case Headers(_, pair) => PlainConstants(pair)
    case Constant(inner, _) => ArgFree(inner)
    case Switch(_, cases) => forall k | k in cases :: PlainConstants(cases[k])
    case _ => true
  }

  /** No constant that is written for the value has any content: no text, no header, no selected case. */
  predicate BareConstants(s: Schema, v: Value)
    decreases s
  {
    match s
    case Chain(links) =>
      v.List? && |v.items| == |links| ==> forall i | 0 <= i < |links| :: BareConstants(links[i], v.items[i])
    case Headers(_, pair) => v.List? ==> forall i | 0 <= i < |v.items| :: BareConstants(pair, v.items[i])
    case Constant(inner, value) => Content(inner, value) == 0
    case Switch(_, cases) =>
      v.Tagged? && v.payload != NoValue && v.tag in cases ==> BareConstants(cases[v.tag], v.payload)
    case _ => true
  }

  lemma {:induction false} SurplusIsContent(s: Schema, v: Value)
    requires PlainConstants(s)
    ensures ConstantSurplus(s, v) >= 0 && (ConstantSurplus(s, v) == 0 <==> BareConstants(s, v))
    decreases s, 0
  {
    match s
    case Chain(links) => if v.List? && |v.items| == |links| { SurplusOfChain(links, v.items); }
    case Headers(_, pair) => if v.List? { SurplusOfEach(pair, v.items); }
    case Constant(inner, value) => NothingMissing(inner, value);
    case Switch(_, cases) =>
      if v.Tagged? && v.payload != NoValue && v.tag in cases { SurplusIsContent(cases[v.tag], v.payload); }
    case _ =>
  }

  lemma {:induction false} SurplusOfChain(links: seq<Schema>, items: seq<Value>)
    requires |items| == |links| && forall i | 0 <= i < |links| :: PlainConstants(links[i])
    ensures SurplusChain(links, items) >= 0
    ensures SurplusChain(links, items) == 0 <==> forall i | 0 <= i < |links| :: BareConstants(links[i], items[i])
    decreases links, 0
  {
    if links != [] {
      SurplusIsContent(links[0], items[0]);
      SurplusOfChain(links[1..], items[1..]);
      if forall i | 0 <= i < |links[1..]| :: BareConstants(links[1..][i], items[1..][i]) {
        forall i | 1 <= i < |links| ensures BareConstants(links[i], items[i]) {
          assert links[1..][i - 1] == links[i] && items[1..][i - 1] == items[i];
        }
      }
    }
  }

  lemma {:induction false} SurplusOfEach(s: Schema, items: seq<Value>)
    requires PlainConstants(s)
    ensures SurplusEach(s, items) >= 0
    ensures SurplusEach(s, items) == 0 <==> forall i | 0 <= i < |items| :: BareConstants(s, items[i])
    decreases s, 1 + |items|
  {
    if items != [] {
      SurplusIsContent(s, items[0]);
      SurplusOfEach(s, items[1..]);
      if forall i | 0 <= i < |items[1..]| :: BareConstants(s, items[1..][i]) {
        forall i | 1 <= i < |items| ensures BareConstants(s, items[i]) { assert items[1..][i - 1] == items[i]; }
      }
    }
  }

  /**
   * `length` is the number of bytes written exactly when the constants written have no surplus.
   * Unless arguments stand inside a constant, it never exceeds that number, and equals it exactly
   * when no constant that is written has any content. Every constant in the repository is a number,
   * which has none.
   */
  lemma {:induction false} LengthIsBytesWritten(s: Schema, v: Value)
    requires Write(s, v).Some?
    ensures Length(s, v) == |Write(s, v).value| <==> ConstantSurplus(s, v) == 0
    ensures PlainConstants(s) ==>
      Length(s, v) <= |Write(s, v).value| && (Length(s, v) == |Write(s, v).value| <==> BareConstants(s, v))
  {
    LengthAccount(s, v);
    if PlainConstants(s) { SurplusIsContent(s, v); }
  }

  /** The same for the links of a chain. */
  lemma {:induction false} ChainLength(links: seq<Schema>, items: seq<Value>)
    requires |items| == |links| && WriteChain(links, items).Some?
    requires forall i | 0 <= i < |links| :: PlainConstants(links[i])
    ensures LengthChain(links, items) <= |WriteChain(links, items).value|
    ensures LengthChain(links, items) == |WriteChain(links, items).value|
       <==> forall i | 0 <= i < |links| :: BareConstants(links[i], items[i])
  {
    ChainLengthAccount(links, items);
    SurplusOfChain(links, items);
  }

  /** A constant string is announced without its text. */
  lemma {:induction false} ConstantStringLength()
    ensures var s := Constant(Blob(2), Text([7]));
            Write(s, NoValue) == Some([0, 1, 7]) && Length(s, NoValue) == 2
  {
    assert Capacity(2) == 256 * 256 by { assert Capacity(1) == 256; }
    assert BigEndian(1, 0) == [0];
    assert BigEndian(2, 1) == [0] + [1];
    assert [0] + [1] + [7] == [0, 1, 7];
  }

  // ---------- what was read is what a writer would have written ----------

  /** No constants inside: their reader ignores what it reads. */
  predicate ConstantFree(s: Schema)
    decreases s
  {
    match s
    case Chain(links) => forall i | 0 <= i < |links| :: ConstantFree(links[i])
    case Headers(_, pair) => ConstantFree(pair)
    case Constant(_, _) => false
    case Switch(_, cases) => forall k | k in cases :: ConstantFree(cases[k])
    case _ => true
  }

  /** A schema without constants has none that `length` could get wrong. */
  lemma {:induction false} NoConstantsAreBare(s: Schema, v: Value)
    requires ConstantFree(s)
    ensures PlainConstants(s) && BareConstants(s, v)
    decreases s
  {
    match s
    case Chain(links) =>
      forall i | 0 <= i < |links| ensures PlainConstants(links[i]) { NoConstantsAreBare(links[i], NoValue); }
      if v.List? && |v.items| == |links| {
        forall i | 0 <= i < |links| ensures BareConstants(links[i], v.items[i]) {
          NoConstantsAreBare(links[i], v.items[i]);
        }
      }
    case Headers(_, pair) =>
      NoConstantsAreBare(pair, NoValue);
      if v.List? {
        forall i | 0 <= i < |v.items| ensures BareConstants(pair, v.items[i]) { NoConstantsAreBare(pair, v.items[i]); }
      }
    case Switch(_, cases) =>
      forall k | k in cases ensures PlainConstants(cases[k]) { NoConstantsAreBare(cases[k], NoValue); }
      if v.Tagged? && v.payload != NoValue && v.tag in cases { NoConstantsAreBare(cases[v.tag], v.payload); }
    case _ =>
  }

  /** Without constants every input has at most one reading, and writing it gives the input back. */
  lemma {:induction false} WriteInvertsRead(s: Schema, b: Bytes)
    requires ArgFree(s) && ConstantFree(s) && Read(s, b).Parsed?
    ensures Write(s, Read(s, b).value).Some?
    ensures Write(s, Read(s, b).value).value + Read(s, b).rest == b
    decreases s, 0
  {
    match s
    case Nothing =>
    case Number(width) => NumberInverts(width, b);
    case Blob(width) => NumberInverts(width, b);
    case Chain(links) => ChainInverts(links, b);
    case Headers(width, pair) =>
      NumberInverts(width, b);
      EachInverts(pair, ReadNumber(width, b).value, ReadNumber(width, b).rest);
      HeadersInvert(width, pair, b);
    case Switch(width, cases) =>
      NumberInverts(width, b);
      var tag, rest := ReadNumber(width, b).value, ReadNumber(width, b).rest;
      if tag in cases {
        WriteInvertsRead(cases[tag], rest);
        SwitchInverts(width, cases, b);
      }
  }

  lemma {:induction false} HeadersInvert(width: nat, pair: Schema, b: Bytes)
    requires width <= |b|
    requires var Parsed(count, rest) := ReadNumber(width, b);
             && BigEndian(width, count) + rest == b
             && ReadEach(pair, count, rest).Parsed?
             && |ReadEach(pair, count, rest).value| == count
             && WriteEach(pair, ReadEach(pair, count, rest).value).Some?
             && WriteEach(pair, ReadEach(pair, count, rest).value).value + ReadEach(pair, count, rest).rest == rest
    ensures var s := Headers(width, pair);
            Read(s, b).Parsed? && Write(s, Read(s, b).value).Some?
            && Write(s, Read(s, b).value).value + Read(s, b).rest == b
  {
    var Parsed(count, rest) := ReadNumber(width, b);
    var Parsed(items, end) := ReadEach(pair, count, rest);
    Regroup(BigEndian(width, count), WriteEach(pair, items).value, end);
  }

  lemma {:induction false} SwitchInverts(width: nat, cases: map<nat, Schema>, b: Bytes)
    requires width <= |b|
    requires var Parsed(tag, rest) := ReadNumber(width, b);
             && BigEndian(width, tag) + rest == b
             && tag in cases && ConstantFree(cases[tag]) && ArgFree(cases[tag])
             && Read(cases[tag], rest).Parsed?
             && Write(cases[tag], Read(cases[tag], rest).value).Some?
             && Write(cases[tag], Read(cases[tag], rest).value).value + Read(cases[tag], rest).rest == rest
    ensures var s := Switch(width, cases);
            Read(s, b).Parsed? && Write(s, Read(s, b).value).Some?
            && Write(s, Read(s, b).value).value + Read(s, b).rest == b
  {
    var Parsed(tag, rest) := ReadNumber(width, b);
    var Parsed(payload, end) := Read(cases[tag], rest);
    Regroup(BigEndian(width, tag), Write(cases[tag], payload).value, end);
    assert payload == NoValue ==> cases[tag] == Nothing;
  }

  lemma {:induction false} NumberInverts(width: nat, b: Bytes)
    requires width <= |b|
    ensures BigEndian(width, ReadNumber(width, b).value) + ReadNumber(width, b).rest == b
  {
    BigEndianInverts(b[..width]);
  }

  lemma {:induction false} BlobInverts(width: nat, b: Bytes)
    requires ReadBlob(width, b).Parsed?
    ensures var first := ReadBlob(width, b).value;
            && |first| < Capacity(width)
            && WriteBlob(width, Text(first)).Some?
            && WriteBlob(width, Text(first)).value + ReadBlob(width, b).rest == b
  {
    NumberInverts(width, b);
    var first, tail := ReadBlob(width, b).value, ReadNumber(width, b).rest;
    assert FromBigEndian(b[..width]) == |first|;
    assert first + ReadBlob(width, b).rest == tail;
    Regroup(BigEndian(width, |first|), first, ReadBlob(width, b).rest);
  }

  /** `args` are complete arguments that `b` starts with, and after them comes `rest` or no further one. */
  predicate LongestRun(width: nat, num: nat, b: Bytes, args: seq<Value>, rest: Bytes) {
    && |args| <= num && WriteArgs(width, args).Some?
    && var used := WriteArgs(width, args).value;
       && used <= b
       && if |args| == num then rest == b[|used|..] else rest == [] && ReadBlob(width, b[|used|..]) == ReadError
  }

  lemma {:induction false} LongerRun(
      width: nat, num: nat, b: Bytes, first: Value, args: seq<Value>, head: Bytes, tail: Bytes, rest: Bytes)
    requires WriteBlob(width, first) == Some(head) && b == head + tail && LongestRun(width, num, tail, args, rest)
    ensures LongestRun(width, num + 1, b, [first] + args, rest)
  {
    var used := WriteArgs(width, args).value;
    assert ([first] + args)[1..] == args;
    assert WriteArgs(width, [first] + args) == Some(head + used);
    assert b[..|head + used|] == head + tail[..|used|];
    assert b[|head + used|..] == tail[|used|..];
  }

  /**
   * Arguments are read to the longest run of complete ones: what is returned is what the input
   * starts with, and if fewer than `num` are returned, what comes next is not a complete one.
   */
  lemma {:induction false} ArgsAreLongestRun(width: nat, num: nat, b: Bytes)
    ensures LongestRun(width, num, b, ReadArgs(width, num, b).value, ReadArgs(width, num, b).rest)
    decreases num
  {
    if num > 0 && ReadBlob(width, b).Parsed? {
      var first, rest := ReadBlob(width, b).value, ReadBlob(width, b).rest;
      BlobInverts(width, b);
      ArgsAreLongestRun(width, num - 1, rest);
      var later := ReadArgs(width, num - 1, rest);
      LongerRun(width, num - 1, b, Text(first), later.value, WriteBlob(width, Text(first)).value, rest, later.rest);
    }
  }

  lemma {:induction false} ChainInverts(links: seq<Schema>, b: Bytes)
    requires ReadChain(links, b).Parsed?
    requires forall i | 0 <= i < |links| :: ArgFree(links[i]) && ConstantFree(links[i])
    ensures |ReadChain(links, b).value| == |links|
    ensures WriteChain(links, ReadChain(links, b).value).Some?
    ensures WriteChain(links, ReadChain(links, b).value).value + ReadChain(links, b).rest == b
    decreases links, 0
  {
    if links != [] {
      WriteInvertsRead(links[0], b);
      var Parsed(first, b1) := Read(links[0], b);
      ChainInverts(links[1..], b1);
      var Parsed(others, rest) := ReadChain(links[1..], b1);
      ChainStep(links, b, b1, first, others, rest);
      assert ([first] + others)[1..] == others;
      Regroup(Write(links[0], first).value, WriteChain(links[1..], others).value, rest);
    }
  }

  lemma {:induction false} EachInverts(s: Schema, count: nat, b: Bytes)
    requires ArgFree(s) && ConstantFree(s) && ReadEach(s, count, b).Parsed?
    ensures |ReadEach(s, count, b).value| == count
    ensures WriteEach(s, ReadEach(s, count, b).value).Some?
    ensures WriteEach(s, ReadEach(s, count, b).value).value + ReadEach(s, count, b).rest == b
    decreases s, 1 + count
  {
    if count > 0 {
      WriteInvertsRead(s, b);
      var first, b1 := Read(s, b).value, Read(s, b).rest;
      EachInverts(s, count - 1, b1);
      var others, rest := ReadEach(s, count - 1, b1).value, ReadEach(s, count - 1, b1).rest;
      EachStep(s, count, b, b1, first, others, rest);
      assert ([first] + others)[1..] == others;
      Regroup(Write(s, first).value, WriteEach(s, others).value, rest);
    }
  }

  // ---------- the stream-consuming and stream-appending form ----------

  /** The file-like object a reader consumes. */
  class Input {
    var rest: Bytes

    constructor (content: Bytes)
      ensures rest == content
    {
      rest := content;
    }

    /** `take`: short input is used up all the same, and is a ReadError (None). */
    method TakeBytes(num: nat) returns (taken: Option<Bytes>)
      modifies this
      ensures taken.Some? == (num <= |old(rest)|)
      ensures taken.Some? ==> Take(old(rest), num) == Parsed(taken.value, rest)
      ensures taken.None? ==> rest == []
    {
      var size := if num <= |rest| then num else |rest|;
      var s := rest[..size];
      rest := rest[size..];
      taken := if |s| != num then None else Some(s);
    }

    method TakeNumber(width: nat) returns (n: Option<nat>)
      modifies this
      ensures n.Some? == ReadNumber(width, old(rest)).Parsed?
      ensures n.Some? ==> ReadNumber(width, old(rest)) == Parsed(n.value, rest)
      ensures n.None? ==> rest == []
    {
      var taken := TakeBytes(width);
      n := if taken.None? then None else Some(FromBigEndian(taken.value));
    }

    method TakeBlob(width: nat) returns (blob: Option<Bytes>)
      modifies this
      ensures blob.Some? == ReadBlob(width, old(rest)).Parsed?
      ensures blob.Some? ==> ReadBlob(width, old(rest)) == Parsed(blob.value, rest)
      ensures blob.None? ==> rest == []
    {
      var length := TakeNumber(width);
      if length.None? { return None; }
      if length.value == 0 {
        assert rest[0..] == rest;
        return Some([]);
      }
      blob := TakeBytes(length.value);
    }
  }

  lemma {:induction false} PrependNothing<T>(others: Parsed<seq<T>>)
    ensures Prepend([], others) == others
  {
    if others.Parsed? { assert [] + others.value == others.value; }
  }

  lemma {:induction false} PrependOneMore<T>(items: seq<T>, item: T, others: Parsed<seq<T>>)
    ensures Prepend(items, Prepend([item], others)) == Prepend(items + [item], others)
  {
    if others.Parsed? { assert items + ([item] + others.value) == items + [item] + others.value; }
  }

  /** `read` of every combinator: the value, or None for a ReadError. */
  method ReadFrom(s: Schema, input: Input) returns (v: Option<Value>)
    modifies input
    ensures v.Some? == Read(s, old(input.rest)).Parsed?
    ensures v.Some? ==> Read(s, old(input.rest)) == Parsed(v.value, input.rest)
    decreases s, 0
  {
    match s
    case Nothing => v := Some(NoValue);
    case Number(width) =>
      var n := input.TakeNumber(width);
      v := if n.None? then None else Some(Num(n.value));
    case Blob(width) =>
      var blob := input.TakeBlob(width);
      v := if blob.None? then None else Some(Text(blob.value));
    case Chain(links) =>
      var items := ReadLinks(links, input);
      v := if items.None? then None else Some(List(items.value));
    case Headers(width, pair) =>
      var count := input.TakeNumber(width);
      if count.None? { return None; }
      var items := ReadRepeatedly(pair, count.value, input);
      v := if items.None? then None else Some(List(items.value));
    case Constant(inner, value) =>
      var ignored := ReadFrom(inner, input);
      v := if ignored.None? then None else Some(value);
    case Switch(width, cases) =>
      var tag := input.TakeNumber(width);
      if tag.None? { return None; }
      if tag.value !in cases { return Some(Tagged(tag.value, NoValue)); }
      var payload := ReadFrom(cases[tag.value], input);
      v := if payload.None? then None else Some(Tagged(tag.value, payload.value));
    case Args(width, num) =>
      var args: seq<Value> := [];
      var n := 0;
      PrependNothing(ReadArgs(width, num, input.rest));
      while n < num
        invariant 0 <= n <= num
        invariant ReadArgs(width, num, old(input.rest)) == Prepend(args, ReadArgs(width, num - n, input.rest))
      {
        var blob := input.TakeBlob(width);
        if blob.None? {
          assert args + [] == args;
          return Some(List(args));
        }
        PrependOneMore(args, Text(blob.value), ReadArgs(width, num - n - 1, input.rest));
        args := args + [Text(blob.value)];
        n := n + 1;
      }
      assert args + [] == args;
      v := Some(List(args));
  }

  method ReadLinks(links: seq<Schema>, input: Input) returns (items: Option<seq<Value>>)
    modifies input
    ensures items.Some? == ReadChain(links, old(input.rest)).Parsed?
    ensures items.Some? ==> ReadChain(links, old(input.rest)) == Parsed(items.value, input.rest)
    decreases links, 0
  {
    var result: seq<Value> := [];
    PrependNothing(ReadChain(links, input.rest));
    assert links[0..] == links;
    for i := 0 to |links|
      invariant ReadChain(links, old(input.rest)) == Prepend(result, ReadChain(links[i..], input.rest))
    {
      assert links[i..][1..] == links[i + 1..];
      var v := ReadFrom(links[i], input);
      if v.None? { return None; }
      PrependOneMore(result, v.value, ReadChain(links[i + 1..], input.rest));
      result := result + [v.value];
    }
    assert result + [] == result;
    items := Some(result);
  }

  method ReadRepeatedly(s: Schema, count: nat, input: Input) returns (items: Option<seq<Value>>)
    modifies input
    ensures items.Some? == ReadEach(s, count, old(input.rest)).Parsed?
    ensures items.Some? ==> ReadEach(s, count, old(input.rest)) == Parsed(items.value, input.rest)
    decreases s, 1
  {
    var result: seq<Value> := [];
    PrependNothing(ReadEach(s, count, input.rest));
    for i := 0 to count
      invariant ReadEach(s, count, old(input.rest)) == Prepend(result, ReadEach(s, count - i, input.rest))
    {
      var v := ReadFrom(s, input);
      if v.None? { return None; }
      PrependOneMore(result, v.value, ReadEach(s, count - i - 1, input.rest));
      result := result + [v.value];
    }
    assert result + [] == result;
    items := Some(result);
  }

  /** The file-like object a writer appends to. */
  class Output {
    var written: Bytes

    constructor ()
      ensures written == []
    {
      written := [];
    }

    method Append(b: Bytes)
      modifies this
      ensures written == old(written) + b
    {
      written := written + b;
    }

    method AppendNumber(width: nat, n: int) returns (ok: bool)
      modifies this
      ensures ok == WriteNumber(width, n).Some?
      ensures written == old(written) + (if ok then WriteNumber(width, n).value else [])
    {
      ok := 0 <= n < Capacity(width);
      if ok { Append(BigEndian(width, n)); }
    }

    method AppendBlob(width: nat, v: Value) returns (ok: bool)
      modifies this
      ensures ok == WriteBlob(width, v).Some?
      ensures ok ==> written == old(written) + WriteBlob(width, v).value
    {
      if !v.Text? { return false; }
      ok := AppendNumber(width, |v.bytes|);
      if ok { Append(v.bytes); }
    }
  }

  lemma {:induction false} BothRegroups(a: Bytes, b: Bytes, c: Option<Bytes>)
    ensures Both(Some(a), Both(Some(b), c)) == Both(Some(a + b), c)
  {
    if c.Some? { Regroup(a, b, c.value); }
  }

  /** `write` of every combinator; false where the source raises. */
  method WriteTo(s: Schema, v: Value, out: Output) returns (ok: bool)
    modifies out
    ensures ok == Write(s, v).Some?
    ensures ok ==> out.written == old(out.written) + Write(s, v).value
    decreases s, 0
  {
    match s
    case Nothing => ok := true;
    case Number(width) =>
      if !v.Num? { return false; }
      ok := out.AppendNumber(width, v.n);
    case Blob(width) => ok := out.AppendBlob(width, v);
    case Chain(links) =>
      if !v.List? || |v.items| != |links| { return false; }
      ok := WriteLinks(links, v.items, out);
    case Headers(width, pair) =>
      if !v.List? { return false; }
      ok := out.AppendNumber(width, |v.items|);
      if ok { ok := WriteRepeatedly(pair, v.items, out); }
    case Constant(inner, value) => ok := WriteTo(inner, value, out);
    case Switch(width, cases) =>
      if !v.Tagged? { return false; }
      ok := out.AppendNumber(width, v.tag);
      if ok && v.payload != NoValue && v.tag in cases {
        ok := WriteTo(cases[v.tag], v.payload, out);
      }
    case Args(width, _) =>
      if !v.List? { return false; }
      assert v.items[0..] == v.items;
      for i := 0 to |v.items|
        invariant Both(Some(old(out.written)), WriteArgs(width, v.items))
               == Both(Some(out.written), WriteArgs(width, v.items[i..]))
      {
        assert v.items[i..][1..] == v.items[i + 1..];
        ghost var before := out.written;
        ok := out.AppendBlob(width, v.items[i]);
        if !ok { return; }
        BothRegroups(before, WriteBlob(width, v.items[i]).value, WriteArgs(width, v.items[i + 1..]));
      }
      ok := true;
  }

  method WriteLinks(links: seq<Schema>, items: seq<Value>, out: Output) returns (ok: bool)
    requires |items| == |links|
    modifies out
    ensures ok == WriteChain(links, items).Some?
    ensures ok ==> out.written == old(out.written) + WriteChain(links, items).value
    decreases links, 0
  {
    assert links[0..] == links && items[0..] == items;
    for i := 0 to |links|
      invariant Both(Some(old(out.written)), WriteChain(links, items))
             == Both(Some(out.written), WriteChain(links[i..], items[i..]))
    {
      assert links[i..][1..] == links[i + 1..] && items[i..][1..] == items[i + 1..];
      ghost var before := out.written;
      ok := WriteTo(links[i], items[i], out);
      if !ok { return; }
      BothRegroups(before, Write(links[i], items[i]).value, WriteChain(links[i + 1..], items[i + 1..]));
    }
    ok := true;
  }

  method WriteRepeatedly(s: Schema, items: seq<Value>, out: Output) returns (ok: bool)
    modifies out
    ensures ok == WriteEach(s, items).Some?
    ensures ok ==> out.written == old(out.written) + WriteEach(s, items).value
    decreases s, 1
  {
    assert items[0..] == items;
    for i := 0 to |items|
      invariant Both(Some(old(out.written)), WriteEach(s, items))
             == Both(Some(out.written), WriteEach(s, items[i..]))
    {
      assert items[i..][1..] == items[i + 1..];
      ghost var before := out.written;
      ok := WriteTo(s, items[i], out);
      if !ok { return; }
      BothRegroups(before, Write(s, items[i]).value, WriteEach(s, items[i + 1..]));
    }
    ok := true;
  }
}
