/** Byte strings and the big-endian numbers of `struct.pack`. */
module Bytes {

  type Byte = x: int | 0 <= x < 256
  type Bytes = seq<Byte>

  /** The number of values that fit in `width` bytes. */
  function Capacity(width: nat): (c: nat)
    ensures c > 0
  {
    if width == 0 then 1 else 256 * Capacity(width - 1)
  }

  function BigEndian(width: nat, n: nat): (b: Bytes)
    requires n < Capacity(width)
    ensures |b| == width
  {
    if width == 0 then [] else BigEndian(width - 1, n / 256) + [n % 256]
  }

  function FromBigEndian(b: Bytes): (n: nat)
    ensures n < Capacity(|b|)
  {
    if b == [] then 0 else 256 * FromBigEndian(b[..|b| - 1]) + b[|b| - 1]
  }

  lemma {:induction false} FromBigEndianInverts(width: nat, n: nat)
    requires n < Capacity(width)
    ensures FromBigEndian(BigEndian(width, n)) == n
  {
    if width > 0 {
      FromBigEndianInverts(width - 1, n / 256);
      assert BigEndian(width, n)[..width - 1] == BigEndian(width - 1, n / 256);
    }
  }

  lemma {:induction false} BigEndianInverts(b: Bytes)
    ensures BigEndian(|b|, FromBigEndian(b)) == b
  {
    if b != [] {
      BigEndianInverts(b[..|b| - 1]);
    }
  }

  function Concat(bs: seq<Bytes>): Bytes {
    if bs == [] then [] else Concat(bs[..|bs| - 1]) + bs[|bs| - 1]
  }

  lemma {:induction false} ConcatAppend(xs: seq<Bytes>, ys: seq<Bytes>)
    ensures Concat(xs + ys) == Concat(xs) + Concat(ys)
  {
    if ys == [] {
      assert xs + ys == xs;
    } else {
      var last, all := |ys| - 1, xs + ys;
      ConcatAppend(xs, ys[..last]);
      assert all[..|all| - 1] == xs + ys[..last] && all[|all| - 1] == ys[last];
      assert Concat(all) == Concat(xs) + Concat(ys[..last]) + ys[last];
    }
  }

  lemma {:induction false} ConcatFirst(bs: seq<Bytes>)
    requires bs != []
    ensures Concat(bs) == bs[0] + Concat(bs[1..])
  {
    ConcatAppend(bs[..1], bs[1..]);
    assert bs[..1] + bs[1..] == bs;
    assert bs[..1][..0] == [] && [] + bs[0] == bs[0];
  }

  lemma {:induction false} ConcatLast(bs: seq<Bytes>, last: Bytes)
    ensures Concat(bs + [last]) == Concat(bs) + last
  {
    assert (bs + [last])[..|bs|] == bs;
  }
}
