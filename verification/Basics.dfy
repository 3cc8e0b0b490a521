/** An absent value, and byte strings read and written as numbers. */
module Basics {
  /** The source's null pointers and -1 answers. */
  datatype Option<+T> = None | Some(value: T)

  type Byte = b: nat | b < 256
  type Bytes = seq<Byte>

  /** Most significant byte first. */
  function BigEndian(b: Bytes): (n: nat) {
    if b == [] then 0 else BigEndian(b[..|b| - 1]) * 256 + b[|b| - 1]
  }

  /** The `width` bytes of a number, most significant first. */
  function Digits(n: nat, width: nat): (b: Bytes)
    ensures |b| == width
  {
    if width == 0 then [] else Digits(n / 256, width - 1) + [n % 256]
  }

  lemma {:induction false} DigitsBack(n: nat, width: nat)
    requires n < Pow256(width)
    ensures BigEndian(Digits(n, width)) == n
  {
    if width > 0 {
      DigitsBack(n / 256, width - 1);
      assert Digits(n, width)[..width - 1] == Digits(n / 256, width - 1);
    }
  }

  lemma {:induction false} BigEndianBound(b: Bytes)
    ensures BigEndian(b) < Pow256(|b|)
  {
    if b != [] {
      BigEndianBound(b[..|b| - 1]);
    }
  }

  lemma {:induction false} BigEndianDigits(b: Bytes)
    ensures BigEndian(b) < Pow256(|b|) && Digits(BigEndian(b), |b|) == b
  {
    if b != [] {
      var a := b[..|b| - 1];
      BigEndianDigits(a);
      assert BigEndian(b) / 256 == BigEndian(a) && BigEndian(b) % 256 == b[|b| - 1];
    }
  }

  function Pow256(n: nat): (p: nat)
    ensures p > 0
  {
    if n == 0 then 1 else 256 * Pow256(n - 1)
  }

  lemma Pow256Values()
    ensures Pow256(2) == 0x1_0000 && Pow256(8) == 0x1_0000_0000_0000_0000
  {
    assert Pow256(4) == 0x1_0000_0000;
    assert Pow256(6) == 0x1_0000_0000_0000;
  }

  /** The input at `p` begins with `b`. */
  ghost predicate Begins(data: Bytes, p: nat, b: Bytes) {
    p + |b| <= |data| && data[p..p + |b|] == b
  }

  lemma BeginsSplit(data: Bytes, p: nat, a: Bytes, b: Bytes)
    requires Begins(data, p, a + b)
    ensures Begins(data, p, a) && Begins(data, p + |a|, b) && p + |a| + |b| <= |data|
  {
    var d := data[p..p + |a + b|];
    assert d[..|a|] == a && d[|a|..] == b;
    assert data[p..p + |a|] == d[..|a|] && data[p + |a|..p + |a| + |b|] == d[|a|..];
  }

  lemma BeginsAt(data: Bytes, p: nat, b: Bytes)
    requires Begins(data, p, b)
    ensures p + |b| <= |data| && data[p..p + |b|] == b
  {
  }
}
