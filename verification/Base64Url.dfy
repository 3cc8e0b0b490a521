/** Base64url without padding, section 5 of RFC 4648, with the decoder's 32-bit accumulator. */
module Base64Url {
  import opened Basics

  const TWO32: nat := 0x1_0000_0000

  function Symbol(v: nat): (c: Byte)
    requires v < 64
  {
    if v < 26 then 65 + v else if v < 52 then 97 + v - 26 else if v < 62 then 48 + v - 52 else if v == 62 then 45 else 95
  }

  function Value(c: Byte): (v: Option<nat>)
    ensures v.Some? ==> v.value < 64
  {
    if 65 <= c <= 90 then Some(c - 65)
    else if 97 <= c <= 122 then Some(c - 97 + 26)
    else if 48 <= c <= 57 then Some(c - 48 + 52)
    else if c == 45 then Some(62)
    else if c == 95 then Some(63)
    else None
  }

  lemma ValueOfSymbol(v: nat)
    requires v < 64
    ensures Value(Symbol(v)) == Some(v)
  {
  }

  // ----- encoding

  /** The 24 bits of a group of up to three bytes. */
  function Word(g: Bytes): (v: nat)
    requires 1 <= |g| <= 3
    ensures v < 0x1000000
  {
    g[0] as nat * 65536 + (if |g| > 1 then g[1] as nat * 256 else 0) + (if |g| > 2 then g[2] as nat else 0)
  }

  /** The symbols of a group: one more than its bytes. */
  function Group(g: Bytes): (s: Bytes)
    requires 1 <= |g| <= 3
    ensures |s| == |g| + 1
  {
    var v := Word(g);
    [Symbol(v / 64 / 64 / 64), Symbol(v / 64 / 64 % 64)] + (if |g| > 1 then [Symbol(v / 64 % 64)] else [])
    + (if |g| > 2 then [Symbol(v % 64)] else [])
  }

  function Encoded(data: Bytes): (s: Bytes)
    decreases |data|
  {
    if data == [] then []
    else if |data| <= 3 then Group(data)
    else Group(data[..3]) + Encoded(data[3..])
  }

  /** Four symbols for every three bytes, rounded up. */
  lemma {:induction false} EncodedLength(data: Bytes)
    ensures |Encoded(data)| == (|data| * 4 + 2) / 3
    decreases |data|
  {
    hide Group;
    if |data| > 3 {
      EncodedLength(data[3..]);
    }
  }

  lemma {:induction false} EncodedNext(data: Bytes, i: nat, k: nat)
    requires i < |data| && i == 3 * k
    ensures var end := if i + 3 <= |data| then i + 3 else |data|;
            Encoded(data[..end]) == Encoded(data[..i]) + Group(data[i..end])
    decreases i
  {
    hide Group;
    var end := if i + 3 <= |data| then i + 3 else |data|;
    if i == 0 {
      assert data[0..end] == data[..end] && data[..0] == [];
    } else {
      EncodedNext(data[3..], i - 3, k - 1);
      EncodedFront(data[..end]);
      EncodedFront(data[..i]);
      hide Encoded;
      assert data[..end][..3] == data[..i][..3] == data[..3];
      assert data[..end][3..] == data[3..][..end - 3] && data[..i][3..] == data[3..][..i - 3];
      assert data[3..][i - 3..end - 3] == data[i..end];
    }
  }

  lemma EncodedFront(d: Bytes)
    requires |d| >= 3
    ensures Encoded(d) == Group(d[..3]) + Encoded(d[3..])
  {
    hide Group;
    if |d| == 3 {
      assert d[..3] == d && d[3..] == [];
    }
  }

  /** The symbols of one group, as the loop puts them out. */
  method PutGroup(data: Bytes, i: nat) returns (s: Bytes)
    requires i < |data|
    ensures s == Group(data[i..if i + 3 <= |data| then i + 3 else |data|])
  {
    var rem := |data| - i;
    var v: nat := data[i] as nat * 65536;
    if rem > 1 {
      v := v + data[i + 1] as nat * 256;
    }
    if rem > 2 {
      v := v + data[i + 2] as nat;
    }
    assert v == Word(data[i..if i + 3 <= |data| then i + 3 else |data|]);
    hide Symbol, Word;
    s := [Symbol(v / 64 / 64 / 64), Symbol(v / 64 / 64 % 64)];
    if rem > 1 {
      s := s + [Symbol(v / 64 % 64)];
    }
    if rem > 2 {
      s := s + [Symbol(v % 64)];
    }
  }

  method Encode(data: Bytes) returns (out: Bytes)
    ensures out == Encoded(data)
  {
    out := [];
    var i := 0;
    ghost var k := 0;
    while i < |data|
      invariant i == 3 * k && k >= 0 && out == Encoded(data[..if i <= |data| then i else |data|])
      decreases |data| - i
    {
      hide Encoded, Group;
      EncodedNext(data, i, k);
      var s := PutGroup(data, i);
      out := out + s;
      i := i + 3;
      k := k + 1;
    }
    assert data[..|data|] == data;
  }

  // ----- decoding

  /** The accumulator, how many of its low bits are still to be given out, and the bytes given out. */
  datatype Acc = Acc(buf: nat, bits: nat, out: Bytes)

  predicate AccOk(a: Acc) {
    a.buf < TWO32 && (a.bits == 0 || a.bits == 2 || a.bits == 4 || a.bits == 6)
  }

  /** Two to the number of bits left, of which there are 0, 2 or 4 when a byte is given out. */
  function Scale(bits: nat): (d: nat)
    ensures d > 0
  {
    if bits == 0 then 1 else if bits == 2 then 4 else 16
  }

  /** One symbol: six more bits, the accumulator's top ones falling off, and a byte out when there are eight. */
  function Shift(a: Acc, v: nat): (r: Acc)
    requires v < 64 && AccOk(a)
    ensures AccOk(r)
  {
    var buf := (a.buf * 64 + v) % TWO32;
    if a.bits + 6 < 8 then Acc(buf, a.bits + 6, a.out)
    else Acc(buf, a.bits - 2, a.out + [buf / Scale(a.bits - 2) % 256])
  }

  function Decoded(a: Acc, text: Bytes): (r: Option<Acc>)
    requires AccOk(a)
    ensures r.Some? ==> AccOk(r.value)
    decreases |text|
  {
    if text == [] then Some(a)
    else
      var v := Value(text[0]);
      if v.None? then None else Decoded(Shift(a, v.value), text[1..])
  }

  lemma {:induction false} DecodedConcat(a: Acc, s: Bytes, t: Bytes)
    requires AccOk(a)
    ensures Decoded(a, s).None? ==> Decoded(a, s + t).None?
    ensures Decoded(a, s).Some? ==> AccOk(Decoded(a, s).value) && Decoded(a, s + t) == Decoded(Decoded(a, s).value, t)
    decreases |s|
  {
    if s == [] {
      assert s + t == t;
    } else {
      assert (s + t)[1..] == s[1..] + t;
      var v := Value(s[0]);
      if v.Some? {
        DecodedConcat(Shift(a, v.value), s[1..], t);
      }
    }
  }

  lemma {:induction false} OutGrows(a: Acc, text: Bytes)
    requires AccOk(a) && Decoded(a, text).Some?
    ensures |a.out| <= |Decoded(a, text).value.out|
    decreases |text|
  {
    if text != [] {
      OutGrows(Shift(a, Value(text[0]).value), text[1..]);
    }
  }

  const START := Acc(0, 0, [])

  /** Decode into a buffer of `cap` bytes. */
  method Decode(text: Bytes, cap: nat) returns (out: Option<Bytes>)
    ensures var r := Decoded(START, text);
            out == if r.Some? && |r.value.out| <= cap then Some(r.value.out) else None
  {
    var a := START;
    for i := 0 to |text|
      invariant AccOk(a) && |a.out| <= cap && Decoded(a, text[i..]) == Decoded(START, text)
    {
      assert text[i..][0] == text[i] && text[i..][1..] == text[i + 1..];
      var v := Value(text[i]);
      if v.None? {
        return None;
      }
      var b := Shift(a, v.value);
      if |b.out| > cap {
        if Decoded(b, text[i + 1..]).Some? {
          OutGrows(b, text[i + 1..]);
        }
        return None;
      }
      a := b;
    }
    return Some(a.out);
  }

  // ----- the round trip

  lemma DivMod(x: int, d: int, q: int, r: int)
    requires d > 0 && 0 <= r < d && x == q * d + r
    ensures x / d == q && x % d == r
  {
    var e := x / d - q;
    assert x == (x / d) * d + x % d;
    assert e * d == r - x % d by { assert (x / d) * d - q * d == e * d; }
    assert e >= 1 ==> e * d >= d;
    assert e <= -1 ==> e * d <= -d;
  }

  /** The four six-bit parts of a word. */
  lemma SixBits(p: nat, q: nat, r: nat, t: nat)
    requires q < 64 && r < 64 && t < 64
    ensures var v := ((p * 64 + q) * 64 + r) * 64 + t;
            v / 64 / 64 / 64 == p && v / 64 / 64 % 64 == q && v / 64 % 64 == r && v % 64 == t
  {
    DivMod(((p * 64 + q) * 64 + r) * 64 + t, 64, (p * 64 + q) * 64 + r, t);
    DivMod((p * 64 + q) * 64 + r, 64, p * 64 + q, r);
    DivMod(p * 64 + q, 64, p, q);
  }

  /** The low bits of the accumulator after a symbol: what was lowest, moved up, and the symbol; whatever fell off the top. */
  lemma ShiftLow(buf: nat, v: nat, m: nat)
    requires v < 64 && (m == 1 || m == 4 || m == 16 || m == 64)
    ensures (buf * 64 + v) % TWO32 % (64 * m) == buf % m * 64 + v
  {
    var x := buf * 64 + v;
    var k := x / TWO32;
    assert x % TWO32 == x - k * TWO32;
    if m == 1 {
      DivMod(x % TWO32, 64, buf - k * 0x400_0000, v);
    } else if m == 4 {
      DivMod(x % TWO32, 256, buf / 4 - k * 0x100_0000, buf % 4 * 64 + v);
    } else if m == 16 {
      DivMod(x % TWO32, 1024, buf / 16 - k * 0x40_0000, buf % 16 * 64 + v);
    } else {
      DivMod(x % TWO32, 4096, buf / 64 - k * 0x10_0000, buf % 64 * 64 + v);
    }
  }

  /** A byte given out is the low bits above those left over. */
  lemma ByteOut(buf: nat, low: nat)
    ensures buf % 4096 == low ==> buf / 16 % 256 == low / 16 && buf % 16 == low % 16
    ensures buf % 1024 == low ==> buf / 4 % 256 == low / 4 && buf % 4 == low % 4
  {
    if buf % 4096 == low {
      var k := buf / 4096;
      DivMod(buf, 16, k * 256 + low / 16, low % 16);
      DivMod(buf / 16, 256, k, low / 16);
    }
    if buf % 1024 == low {
      var k := buf / 1024;
      DivMod(buf, 4, k * 256 + low / 4, low % 4);
      DivMod(buf / 4, 256, k, low / 4);
    }
  }

  /** Three bytes as four six-bit parts. */
  datatype Split = Split(p: nat, x: nat, y: nat, z: nat, w: nat, t: nat)

  function SplitOf(a: Byte, b: Byte, c: Byte): (s: Split)
    ensures s.p < 64 && s.x < 4 && s.y < 16 && s.z < 16 && s.w < 4 && s.t < 64
    ensures a == s.p * 4 + s.x && b == s.y * 16 + s.z && c == s.w * 64 + s.t
  {
    Split(a / 4, a % 4, b / 16, b % 16, c / 64, c % 64)
  }

  /** Two symbols give the first byte out. */
  lemma FirstByte(acc: Acc, p: nat, x: nat, y: nat)
    requires AccOk(acc) && acc.bits == 0 && p < 64 && x < 4 && y < 16
    ensures var r := Shift(Shift(acc, p), x * 16 + y); r.bits == 4 && r.out == acc.out + [p * 4 + x] && r.buf % 16 == y
  {
    var one := Shift(acc, p);
    ShiftLow(acc.buf, p, 1);
    ShiftLow(one.buf, x * 16 + y, 64);
    ByteOut(Shift(one, x * 16 + y).buf, p * 64 + x * 16 + y);
  }

  lemma SecondByte(acc: Acc, y: nat, z: nat, w: nat)
    requires AccOk(acc) && acc.bits == 4 && acc.buf % 16 == y && z < 16 && w < 4
    ensures var r := Shift(acc, z * 4 + w); r.bits == 2 && r.out == acc.out + [y * 16 + z] && r.buf % 4 == w
  {
    ShiftLow(acc.buf, z * 4 + w, 16);
    ByteOut(Shift(acc, z * 4 + w).buf, y * 64 + z * 4 + w);
  }

  lemma ThirdByte(acc: Acc, w: nat, t: nat)
    requires AccOk(acc) && acc.bits == 2 && acc.buf % 4 == w && t < 64
    ensures var r := Shift(acc, t); r.bits == 0 && r.out == acc.out + [w * 64 + t]
  {
    ShiftLow(acc.buf, t, 4);
  }

  /** The symbols of a group, by its parts. */
  lemma GroupSymbols(g: Bytes, s: Split)
    requires 1 <= |g| <= 3 && s == SplitOf(g[0], if |g| > 1 then g[1] else 0, if |g| > 2 then g[2] else 0)
    ensures var t := Group(g);
            && Value(t[0]) == Some(s.p) && Value(t[1]) == Some(s.x * 16 + s.y)
            && (|g| > 1 ==> Value(t[2]) == Some(s.z * 4 + s.w)) && (|g| > 2 ==> Value(t[3]) == Some(s.t))
  {
    SixBits(s.p, s.x * 16 + s.y, s.z * 4 + s.w, s.t);
    assert Word(g) == ((s.p * 64 + (s.x * 16 + s.y)) * 64 + (s.z * 4 + s.w)) * 64 + s.t;
    ValueOfSymbol(s.p);
    ValueOfSymbol(s.x * 16 + s.y);
    ValueOfSymbol(s.z * 4 + s.w);
    ValueOfSymbol(s.t);
  }

  lemma DecodedStep(acc: Acc, s: Bytes, i: nat)
    requires AccOk(acc) && i < |s| && Value(s[i]).Some?
    ensures Decoded(acc, s[i..]) == Decoded(Shift(acc, Value(s[i]).value), s[i + 1..])
  {
    assert s[i..][1..] == s[i + 1..];
  }

  /** A group decodes to its bytes, from whatever the accumulator held; a whole one leaves no bits over. */
  lemma GroupDecodes(acc: Acc, g: Bytes)
    requires AccOk(acc) && acc.bits == 0 && 1 <= |g| <= 3
    ensures var r := Decoded(acc, Group(g)); r.Some? && r.value.out == acc.out + g && (|g| == 3 ==> r.value.bits == 0)
  {
    hide Group, Shift, Decoded, Value;
    var s := SplitOf(g[0], if |g| > 1 then g[1] else 0, if |g| > 2 then g[2] else 0);
    var sym := Group(g);
    GroupSymbols(g, s);
    hide SplitOf;
    FirstByte(acc, s.p, s.x, s.y);
    var one := Shift(acc, s.p);
    var two := Shift(one, s.x * 16 + s.y);
    assert sym[0..] == sym;
    DecodedStep(acc, sym, 0);
    DecodedStep(one, sym, 1);
    if |g| == 1 {
      DecodedEnd(two, sym);
      assert acc.out + [g[0]] == acc.out + g;
    } else {
      SecondByte(two, s.y, s.z, s.w);
      var three := Shift(two, s.z * 4 + s.w);
      DecodedStep(two, sym, 2);
      if |g| == 2 {
        DecodedEnd(three, sym);
        assert acc.out + [g[0]] + [g[1]] == acc.out + g;
      } else {
        ThirdByte(three, s.w, s.t);
        DecodedStep(three, sym, 3);
        DecodedEnd(Shift(three, s.t), sym);
        assert acc.out + [g[0]] + [g[1]] + [g[2]] == acc.out + g;
      }
    }
  }

  lemma DecodedEnd(acc: Acc, s: Bytes)
    requires AccOk(acc)
    ensures Decoded(acc, s[|s|..]) == Some(acc)
  {
  }

  lemma {:induction false} DecodeUndoesEncode(acc: Acc, data: Bytes)
    requires AccOk(acc) && acc.bits == 0
    ensures var r := Decoded(acc, Encoded(data)); r.Some? && r.value.out == acc.out + data
    decreases |data|
  {
    if data == [] {
      assert acc.out + [] == acc.out;
    } else if |data| <= 3 {
      GroupDecodes(acc, data);
    } else {
      GroupDecodes(acc, data[..3]);
      DecodedConcat(acc, Group(data[..3]), Encoded(data[3..]));
      hide Group;
      var next := Decoded(acc, Group(data[..3])).value;
      DecodeUndoesEncode(next, data[3..]);
      assert acc.out + data == acc.out + data[..3] + data[3..];
    }
  }

  // ----- what the decoder takes besides

  ghost predicate InAlphabet(text: Bytes) {
    forall i :: 0 <= i < |text| ==> Value(text[i]).Some?
  }

  /** Decoding succeeds if and only if every symbol is of the alphabet. */
  lemma {:induction false} DecodesAlphabet(acc: Acc, text: Bytes)
    requires AccOk(acc)
    ensures Decoded(acc, text).Some? <==> InAlphabet(text)
    decreases |text|
  {
    hide Value, Shift;
    if text != [] && Value(text[0]).Some? {
      DecodesAlphabet(Shift(acc, Value(text[0]).value), text[1..]);
      assert forall i :: 0 < i < |text| ==> text[i] == text[1..][i - 1];
    }
  }

  /** What a caller can see of a text: a length an encoding can have, and a last symbol with no bits over. */
  ghost predicate Canonical(text: Bytes)
    requires InAlphabet(text)
  {
    && |text| % 4 != 1
    && (|text| % 4 == 2 ==> Value(text[|text| - 1]).value % 16 == 0)
    && (|text| % 4 == 3 ==> Value(text[|text| - 1]).value % 4 == 0)
  }

  /** The bytes two to four symbols decode to. */
  function BytesOf(s: Split, n: nat): (g: Bytes)
    requires s.p < 64 && s.x < 4 && s.y < 16 && s.z < 16 && s.w < 4 && s.t < 64 && 1 <= n <= 3
    ensures |g| == n
  {
    [s.p * 4 + s.x] + (if n > 1 then [s.y * 16 + s.z] else []) + (if n > 2 then [s.w * 64 + s.t] else [])
  }

  ghost predicate Spells(q: Bytes, s: Split) {
    && 2 <= |q| <= 4 && s.p < 64 && s.x < 4 && s.y < 16 && s.z < 16 && s.w < 4 && s.t < 64
    && Value(q[0]) == Some(s.p) && Value(q[1]) == Some(s.x * 16 + s.y)
    && (|q| > 2 ==> Value(q[2]) == Some(s.z * 4 + s.w)) && (|q| > 3 ==> Value(q[3]) == Some(s.t))
  }

  lemma SplitText(q: Bytes) returns (s: Split)
    requires 2 <= |q| <= 4 && InAlphabet(q)
    ensures Spells(q, s)
  {
    var a, b := Value(q[0]).value, Value(q[1]).value;
    var c := if |q| > 2 then Value(q[2]).value else 0;
    var d := if |q| > 3 then Value(q[3]).value else 0;
    s := Split(a, b / 16, b % 16, c / 4, c % 4, d);
  }

  lemma GroupValues(q: Bytes, s: Split)
    requires Spells(q, s)
    ensures var n := |q|; var t := Group(BytesOf(s, n - 1));
            && |t| == n && Value(t[0]) == Value(q[0]) && Value(t[1]) == Some(s.x * 16 + (if n > 2 then s.y else 0))
            && (n > 2 ==> Value(t[2]) == Some(s.z * 4 + (if n > 3 then s.w else 0))) && (n > 3 ==> Value(t[3]) == Value(q[3]))
  {
    hide Group, Value, SplitOf, BytesOf;
    var g := BytesOf(s, |q| - 1);
    var u := SplitOf(g[0], if |g| > 1 then g[1] else 0, if |g| > 2 then g[2] else 0);
    GroupSymbols(g, u);
    SplitBack(s, |q| - 1);
  }

  /** A group of symbols is the encoding of its bytes if and only if the bits over are 0. */
  lemma GroupBack(q: Bytes, s: Split)
    requires Spells(q, s)
    ensures Group(BytesOf(s, |q| - 1)) == q <==> (|q| == 2 ==> s.y == 0) && (|q| == 3 ==> s.w == 0)
  {
    hide Group, Value, BytesOf;
    GroupValues(q, s);
    var t := Group(BytesOf(s, |q| - 1));
    ValueMaybe(t[0], q[0]);
    ValueMaybe(t[1], q[1]);
    if |q| > 2 {
      ValueMaybe(t[2], q[2]);
    }
    if |q| > 3 {
      ValueMaybe(t[3], q[3]);
    }
    SameSymbols(t, q);
  }

  lemma SameSymbols(t: Bytes, q: Bytes)
    requires |t| == |q| && 2 <= |q| <= 4
    ensures t == q <==> t[0] == q[0] && t[1] == q[1] && (|q| > 2 ==> t[2] == q[2]) && (|q| > 3 ==> t[3] == q[3])
  {
  }

  lemma ValueMaybe(a: Byte, b: Byte)
    requires Value(a).Some?
    ensures a == b <==> Value(a) == Value(b)
  {
  }

  lemma SplitBack(s: Split, n: nat)
    requires s.p < 64 && s.x < 4 && s.y < 16 && s.z < 16 && s.w < 4 && s.t < 64 && 1 <= n <= 3
    ensures var g := BytesOf(s, n); var u := SplitOf(g[0], if n > 1 then g[1] else 0, if n > 2 then g[2] else 0);
            && u.p == s.p && u.x == s.x && u.y == (if n > 1 then s.y else 0) && u.z == (if n > 1 then s.z else 0)
            && u.w == (if n > 2 then s.w else 0) && u.t == (if n > 2 then s.t else 0)
  {
    DivMod(s.p * 4 + s.x, 4, s.p, s.x);
    DivMod(s.y * 16 + s.z, 16, s.y, s.z);
    DivMod(s.w * 64 + s.t, 64, s.w, s.t);
  }

  lemma Appended(out: Bytes, s: Split)
    requires s.p < 64 && s.x < 4 && s.y < 16 && s.z < 16 && s.w < 4 && s.t < 64
    ensures var a: Bytes, b: Bytes, c: Bytes := [s.p * 4 + s.x], [s.y * 16 + s.z], [s.w * 64 + s.t];
            out + a == out + BytesOf(s, 1) && out + a + b == out + BytesOf(s, 2) && out + a + b + c == out + BytesOf(s, 3)
  {
  }

  /** A group of symbols decodes to its bytes, and leaves over what they do not hold. */
  lemma TextDecodes(acc: Acc, q: Bytes, s: Split)
    requires AccOk(acc) && acc.bits == 0 && Spells(q, s)
    ensures var r := Decoded(acc, q);
            && r.Some? && r.value.out == acc.out + BytesOf(s, |q| - 1)
            && r.value.bits == (if |q| == 2 then 4 else if |q| == 3 then 2 else 0)
            && (|q| == 2 ==> r.value.buf % 16 == s.y) && (|q| == 3 ==> r.value.buf % 4 == s.w)
  {
    hide Decoded, Value, BytesOf, Spells;
    SpelledParts(q, s);
    Appended(acc.out, s);
    var two := TwoSymbols(acc, q, s);
    if |q| == 2 {
      DecodedEnd(two, q);
    } else {
      var three := ThirdSymbol(two, q, s);
      if |q| == 3 {
        DecodedEnd(three, q);
      } else {
        var four := FourthSymbol(three, q, s);
        DecodedEnd(four, q);
      }
    }
  }

  lemma SpelledParts(q: Bytes, s: Split)
    requires Spells(q, s)
    ensures 2 <= |q| <= 4 && s.p < 64 && s.x < 4 && s.y < 16 && s.z < 16 && s.w < 4 && s.t < 64
  {
  }

  lemma TwoSymbols(acc: Acc, q: Bytes, s: Split) returns (two: Acc)
    requires AccOk(acc) && acc.bits == 0 && Spells(q, s)
    ensures AccOk(two) && two.bits == 4 && two.out == acc.out + [s.p * 4 + s.x] && two.buf % 16 == s.y
    ensures Decoded(acc, q) == Decoded(two, q[2..])
  {
    hide Shift, Decoded, Value;
    FirstByte(acc, s.p, s.x, s.y);
    var one := Shift(acc, s.p);
    two := Shift(one, s.x * 16 + s.y);
    assert q[0..] == q;
    DecodedStep(acc, q, 0);
    DecodedStep(one, q, 1);
  }

  lemma ThirdSymbol(two: Acc, q: Bytes, s: Split) returns (three: Acc)
    requires AccOk(two) && two.bits == 4 && Spells(q, s) && two.buf % 16 == s.y && |q| > 2
    ensures AccOk(three) && three.bits == 2 && three.out == two.out + [s.y * 16 + s.z] && three.buf % 4 == s.w
    ensures Decoded(two, q[2..]) == Decoded(three, q[3..])
  {
    hide Shift, Decoded, Value;
    SecondByte(two, s.y, s.z, s.w);
    three := Shift(two, s.z * 4 + s.w);
    DecodedStep(two, q, 2);
  }

  lemma FourthSymbol(three: Acc, q: Bytes, s: Split) returns (four: Acc)
    requires AccOk(three) && three.bits == 2 && Spells(q, s) && three.buf % 4 == s.w && |q| == 4
    ensures AccOk(four) && four.bits == 0 && four.out == three.out + [s.w * 64 + s.t]
    ensures Decoded(three, q[3..]) == Decoded(four, q[4..])
  {
    hide Shift, Decoded, Value;
    ThirdByte(three, s.w, s.t);
    four := Shift(three, s.t);
    DecodedStep(three, q, 3);
  }

  /**
    A text of the alphabet is the encoding of what it decodes to if and only if it is
    canonical; otherwise it is another spelling of it.
   */
  lemma {:induction false} EncodesBack(acc: Acc, text: Bytes) returns (data: Bytes)
    requires AccOk(acc) && acc.bits == 0 && InAlphabet(text)
    ensures var r := Decoded(acc, text);
            && r.Some? && r.value.out == acc.out + data
            && (Encoded(data) == text <==> Canonical(text))
    decreases |text|, 1
  {
    hide Shift, Value, Group;
    if text == [] {
      data := [];
      assert acc.out + [] == acc.out;
    } else if |text| == 1 {
      data := [];
      DecodesAlphabet(acc, text);
      OneSymbol(acc, text);
      assert acc.out + [] == acc.out;
    } else if |text| <= 4 {
      var s := SplitText(text);
      data := BytesOf(s, |text| - 1);
      TextDecodes(acc, text, s);
      GroupBack(text, s);
      hide Decoded;
      LastPart(text, s);
    } else {
      data := EncodesMore(acc, text);
    }
  }

  lemma LastPart(q: Bytes, s: Split)
    requires Spells(q, s)
    ensures (|q| == 2 ==> Value(q[1]).value % 16 == s.y) && (|q| == 3 ==> Value(q[2]).value % 4 == s.w)
  {
    DivMod(s.x * 16 + s.y, 16, s.x, s.y);
    DivMod(s.z * 4 + s.w, 4, s.z, s.w);
  }

  lemma OneSymbol(acc: Acc, text: Bytes)
    requires AccOk(acc) && acc.bits == 0 && |text| == 1 && Value(text[0]).Some?
    ensures Decoded(acc, text) == Some(Shift(acc, Value(text[0]).value)) && Shift(acc, Value(text[0]).value).out == acc.out
  {
    assert text[1..] == [];
  }

  lemma EncodesMore(acc: Acc, text: Bytes) returns (data: Bytes)
    requires AccOk(acc) && acc.bits == 0 && InAlphabet(text) && |text| > 4
    ensures var r := Decoded(acc, text);
            && r.Some? && r.value.out == acc.out + data
            && (Encoded(data) == text <==> Canonical(text))
    decreases |text|, 0
  {
    hide Shift, Value, Group, Decoded, Encoded;
    var q, rest := text[..4], text[4..];
    assert text == q + rest;
    var s := SplitText(q);
    var g := BytesOf(s, 3);
    TextDecodes(acc, q, s);
    GroupBack(q, s);
    DecodedConcat(acc, q, rest);
    var more := EncodesBack(Decoded(acc, q).value, rest);
    data := g + more;
    assert data[..3] == g && data[3..] == more;
    EncodedFront(data);
    assert acc.out + g + more == acc.out + data;
    assert Encoded(data) == q + Encoded(more);
    SameFront(q, Encoded(more), rest);
    assert text[|text| - 1] == rest[|rest| - 1];
  }

  lemma SameFront(a: Bytes, b: Bytes, c: Bytes)
    ensures a + b == a + c <==> b == c
  {
    if a + b == a + c {
      assert b == (a + b)[|a|..] == (a + c)[|a|..] == c;
    }
  }

  /** Two spellings of nothing and of one byte: a symbol too many, and bits over. */
  lemma OtherSpellings(text: Bytes)
    requires text == [65] || text == [65, 66]
    ensures var r := Decoded(START, text); r.Some? && Encoded(r.value.out) != text
  {
    var data := EncodesBack(START, text);
    assert [] + data == data;
  }
}
