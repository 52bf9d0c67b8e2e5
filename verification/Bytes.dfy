/** Bytes, digests of them, and fixed-width little-endian integers, as `to_le_bytes` and `from_le_bytes` give them. */
module Bytes {

  type byte = b: int | 0 <= b < 256

  type Text = seq<byte>

  /** A digest function, of which only its output length is ever assumed. */
  type Digest = Text -> Text

  /** Two different strings with one digest. */
  predicate Collision(h: Digest, x: Text, y: Text) { x != y && h(x) == h(y) }

  /** The bytes of a text in ASCII. */
  function Ascii(s: string): (t: Text)
    requires forall i :: 0 <= i < |s| ==> s[i] < 128 as char
    ensures |t| == |s|
  {
    seq(|s|, i requires 0 <= i < |s| => s[i] as int)
  }

  const TWO_32: nat := 0x1_0000_0000
  const TWO_64: nat := 0x1_0000_0000_0000_0000

  function Pow256(k: nat): (p: nat)
    ensures p > 0
  {
    if k == 0 then 1 else 256 * Pow256(k - 1)
  }

  /** The low `k` bytes of `n`, least significant first: a wider `n` is truncated, as by `as u32`. */
  function LittleEndian(n: nat, k: nat): (s: seq<byte>)
    ensures |s| == k
  {
    if k == 0 then [] else [n % 256] + LittleEndian(n / 256, k - 1)
  }

  function FromLittleEndian(s: seq<byte>): nat {
    if s == [] then 0 else s[0] + 256 * FromLittleEndian(s[1..])
  }

  lemma {:induction false} ReadBack(n: nat, k: nat)
    requires n < Pow256(k)
    ensures FromLittleEndian(LittleEndian(n, k)) == n
  {
    if k > 0 {
      ReadBack(n / 256, k - 1);
      assert LittleEndian(n, k)[1..] == LittleEndian(n / 256, k - 1);
    }
  }

  lemma {:induction false} WriteBack(s: seq<byte>)
    ensures FromLittleEndian(s) < Pow256(|s|)
    ensures LittleEndian(FromLittleEndian(s), |s|) == s
  {
    if s != [] {
      WriteBack(s[1..]);
      assert FromLittleEndian(s) / 256 == FromLittleEndian(s[1..]);
      assert s == [s[0]] + s[1..];
    }
  }

  lemma {:induction false} Widths()
    ensures Pow256(4) == TWO_32 && Pow256(8) == TWO_64
  {
    assert Pow256(2) == 65536;
    assert Pow256(4) == 256 * (256 * Pow256(2));
    assert Pow256(6) == 256 * (256 * Pow256(4));
  }

  /** Fixed-width encodings of two numbers that fit agree only for the same number. */
  lemma {:induction false} LittleEndianInjective(m: nat, n: nat, k: nat)
    requires m < Pow256(k) && n < Pow256(k) && LittleEndian(m, k) == LittleEndian(n, k)
    ensures m == n
  {
    ReadBack(m, k);
    ReadBack(n, k);
  }

  /** Two concatenations with first parts of equal length agree part by part. */
  lemma {:induction false} SplitEqual(a: seq<byte>, b: seq<byte>, c: seq<byte>, d: seq<byte>)
    requires |a| == |c| && a + b == c + d
    ensures a == c && b == d
  {
    assert a == (a + b)[..|a|] && c == (c + d)[..|c|];
    assert b == (a + b)[|a|..] && d == (c + d)[|c|..];
  }
}
