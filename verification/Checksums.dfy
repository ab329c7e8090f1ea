/**
 * Running checksums of call messages (tchannel/messages/common.py). CRC-32 (section 8 of
 * RFC 1952) and CRC-32C (section 12.1 of RFC 3720) are left folds over bytes; what one
 * byte does to the sum is a parameter.
 */
module Checksums {
  import opened Wrappers
  import opened Bytes
  import opened Messages
  import A = Args

  type U32 = x: int | 0 <= x < 0x1_0000_0000

  type Update = (U32, Byte) -> U32

  datatype Crc = Crc(crc32: Update, crc32c: Update)

  function FoldBytes(update: Update, sum: U32, bytes: Bytes): U32 {
    if bytes == [] then sum
    else update(FoldBytes(update, sum, bytes[..|bytes| - 1]), bytes[|bytes| - 1])
  }

  function FoldArgs(update: Update, sum: U32, args: A.Args): U32
    decreases args
  {
    if args == [] then sum else FoldArgs(update, FoldBytes(update, sum, args[0]), args[1..])
  }

  lemma {:induction false} FoldBytesAppend(update: Update, sum: U32, a: Bytes, b: Bytes)
    ensures FoldBytes(update, sum, a + b) == FoldBytes(update, FoldBytes(update, sum, a), b)
  {
    if b == [] {
      assert a + b == a;
    } else {
      var last := |b| - 1;
      FoldBytesAppend(update, sum, a, b[..last]);
      assert (a + b)[..|a| + last] == a + b[..last];
    }
  }

  /** Cutting arguments differently does not change the sum: it only sees the bytes. */
  lemma {:induction false} FoldArgsSeesBytes(update: Update, sum: U32, args: A.Args)
    ensures FoldArgs(update, sum, args) == FoldBytes(update, sum, Concat(args))
    decreases args
  {
    if args != [] {
      FoldArgsSeesBytes(update, FoldBytes(update, sum, args[0]), args[1..]);
      FoldBytesAppend(update, sum, args[0], Concat(args[1..]));
      ConcatAppend(args[..1], args[1..]);
      assert args[..1] + args[1..] == args;
      assert args[..1][..0] == [] && [] + args[0] == args[0];
    }
  }

  // ---------- compute, generate, verify ----------

  datatype Computed = NoSum | Sum(sum: U32) | NotImplemented | InvalidType

  /** `previous` is the entry of the checksum table: a missing one and one holding None count as 0. */
  function Previous(previous: Option<Option<U32>>): U32 {
    if previous.Some? && previous.value.Some? then previous.value.value else 0
  }

  function Compute(crc: Crc, kind: nat, args: A.Args, previous: Option<Option<U32>>): Computed {
    if kind == NO_CHECKSUM then NoSum
    else if kind == CRC32 then Sum(FoldArgs(crc.crc32, Previous(previous), args))
    else if kind == FARM32 then NotImplemented
    else if kind == CRC32C then Sum(FoldArgs(crc.crc32c, Previous(previous), args))
    else InvalidType
  }

  /** The checksum types for which a sum can be generated. */
  predicate Supported(kind: nat) { kind == NO_CHECKSUM || kind == CRC32 || kind == CRC32C }

  function SumValue(c: Computed): Option<U32> { if c.Sum? then Some(c.sum) else None }

  /**
   * The message with the checksum of its arguments, continued from the fragments before it.
   * Signing a message of an unsupported type raises, and nothing is sent.
   */
  function Sign(crc: Crc, previous: Option<Option<U32>>, m: Message): Message {
    m.(checksum := Checksum(m.checksum.kind, SumValue(Compute(crc, m.checksum.kind, m.args, previous))))
  }

  /** What a checksum table holds for the message's id afterwards: nothing once the last fragment has passed. */
  function Remembered(m: Message): Option<Option<U32>>
  {
    if m.flags == NONE then None
    else
      var sum := m.checksum.value;
      Some(if sum.Some? && sum.value < 0x1_0000_0000 then Some(sum.value) else None)
  }

  /** The loop of compute_checksum for one CRC. */
  method FoldLoop(update: Update, args: A.Args, start: U32) returns (sum: U32)
    ensures sum == FoldBytes(update, start, Concat(args))
  {
    FoldArgsSeesBytes(update, start, args);
    sum := start;
    assert args[0..] == args;
    for i := 0 to |args|
      invariant FoldArgs(update, sum, args[i..]) == FoldArgs(update, start, args)
    {
      assert args[i..][1..] == args[i + 1..];
      sum := FoldBytes(update, sum, args[i]);
    }
  }

  method ComputeChecksum(crc: Crc, kind: nat, args: A.Args, previous: Option<Option<U32>>) returns (c: Computed)
    ensures c == Compute(crc, kind, args, previous)
  {
    var start := Previous(previous);
    if kind == NO_CHECKSUM { return NoSum; }
    if kind == CRC32 {
      var sum := FoldLoop(crc.crc32, args, start);
      FoldArgsSeesBytes(crc.crc32, start, args);
      return Sum(sum);
    }
    if kind == FARM32 { return NotImplemented; }
    if kind == CRC32C {
      var sum := FoldLoop(crc.crc32c, args, start);
      FoldArgsSeesBytes(crc.crc32c, start, args);
      return Sum(sum);
    }
    c := InvalidType;
  }
}
