/** Bytes, machine words and their byte orders. */
module Bytes {

  type byte = x: int | 0 <= x < 0x100
  type uint16 = x: int | 0 <= x < 0x1_0000
  type uint32 = x: int | 0 <= x < 0x1_0000_0000
  type uint64 = x: int | 0 <= x < 0x1_0000_0000_0000_0000

  const TWO_32 := 0x1_0000_0000
  const TWO_63 := 0x8000_0000_0000_0000
  const TWO_64 := 0x1_0000_0000_0000_0000

  /** Two's complement wrap to a 64-bit signed integer. */
  function Wrap(x: int): (w: int)
    ensures -TWO_63 <= x < TWO_63 ==> w == x
    ensures TWO_63 <= x < TWO_64 ==> w == x - TWO_64
    ensures -TWO_63 <= w < TWO_63
  {
    (x + TWO_63) % TWO_64 - TWO_63
  }

  /** The big-endian 32-bit word at `i`. */
  function Be32(s: seq<byte>, i: nat): uint32
    requires i + 4 <= |s|
  {
    var b0: int, b1: int, b2: int, b3: int := s[i], s[i + 1], s[i + 2], s[i + 3];
    b0 * 0x100_0000 + b1 * 0x1_0000 + b2 * 0x100 + b3
  }

  function ToBe32(n: uint32): (s: seq<byte>)
    ensures |s| == 4 && Be32(s, 0) == n
  {
    var q1 := n / 0x100;
    var q2 := q1 / 0x100;
    var b0: int, b1: int, b2: int, b3: int := q2 / 0x100, q2 % 0x100, q1 % 0x100, n % 0x100;
    [b0, b1, b2, b3]
  }

  function Pow256(k: nat): (p: nat)
    ensures p >= 1
  {
    if k == 0 then 1 else 0x100 * Pow256(k - 1)
  }

  /** The little-endian value of a byte string. */
  function Le(s: seq<byte>): (n: nat)
    ensures n < Pow256(|s|)
  {
    if s == [] then 0 else
      var low: int := s[0];
      low + 0x100 * Le(s[1..])
  }

  /** Two and four bytes as a number, the low one first. */
  function Two(a: int, b: int): int { a + 0x100 * b }
  function Four(a: int, b: int, c: int, d: int): int { a + 0x100 * b + 0x1_0000 * c + 0x100_0000 * d }

  /** The value of a few bytes, written out. */
  lemma LowFirst(s: seq<byte>)
    ensures |s| == 2 ==> Le(s) == Two(s[0], s[1])
    ensures |s| == 4 ==> Le(s) == Four(s[0], s[1], s[2], s[3])
  {
  }

  /** The `k` low bytes of `n`, least significant first. */
  function ToLe(n: nat, k: nat): (s: seq<byte>)
    ensures |s| == k
  {
    if k == 0 then [] else
      var low: int := n % 0x100;
      [low] + ToLe(n / 0x100, k - 1)
  }

  lemma {:induction false} LeOfToLe(n: nat, k: nat)
    requires n < Pow256(k)
    ensures Le(ToLe(n, k)) == n
  {
    if k > 0 {
      LeOfToLe(n / 0x100, k - 1);
    }
  }

  lemma {:induction false} ToLeOfLe(s: seq<byte>)
    ensures ToLe(Le(s), |s|) == s
  {
    if s != [] {
      ToLeOfLe(s[1..]);
      LowByte(s[0], Le(s[1..]));
      assert s == [s[0]] + s[1..];
    }
  }

  lemma LowByte(low: int, high: int)
    requires 0 <= low < 0x100
    ensures (low + 0x100 * high) % 0x100 == low && (low + 0x100 * high) / 0x100 == high
  {
  }

  lemma Pow256Values()
    ensures Pow256(1) == 0x100 && Pow256(2) == 0x1_0000 && Pow256(4) == TWO_32 && Pow256(8) == TWO_64
  {
    assert Pow256(3) == 0x100_0000;
    assert Pow256(5) == 0x100 * TWO_32 && Pow256(6) == 0x1_0000 * TWO_32;
  }

  /** `s` sits in the file at `start`. */
  ghost predicate Holds(file: seq<byte>, start: nat, s: seq<byte>) {
    start + |s| <= |file| && forall k :: 0 <= k < |s| ==> file[start + k] == s[k]
  }

  /** A word of a slice is a word of the file. */
  lemma WordAt(file: seq<byte>, start: nat, s: seq<byte>, i: nat)
    requires Holds(file, start, s) && i + 4 <= |s|
    ensures Be32(file, start + i) == Be32(s, i)
  {
    assert file[start + i] == s[i] && file[start + (i + 1)] == s[i + 1];
    assert file[start + (i + 2)] == s[i + 2] && file[start + (i + 3)] == s[i + 3];
  }

  lemma Parts(file: seq<byte>, start: nat, a: seq<byte>, b: seq<byte>, c: seq<byte>)
    requires Holds(file, start, a + b + c)
    ensures Holds(file, start, a)
    ensures Holds(file, start + |a|, b)
    ensures Holds(file, start + |a| + |b|, c)
    ensures start + |a| + |b| + |c| <= |file|
  {
    var all := a + b + c;
    assert forall k :: 0 <= k < |a| ==> file[start + k] == all[k] == a[k];
    assert forall k :: 0 <= k < |b| ==> file[start + (|a| + k)] == all[|a| + k] == b[k];
    assert forall k :: 0 <= k < |c| ==> file[start + (|a| + |b| + k)] == all[|a| + |b| + k] == c[k];
  }

  lemma WholeFile(file: seq<byte>)
    ensures Holds(file, 0, file)
  {
  }
}
