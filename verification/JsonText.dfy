/**
  JSON string escapes: the reader's unescape with the grammar it takes, the
  invitation body's escape, and the UTF-8 a code point becomes.
 */
module JsonText {
  import opened Basics

  const QUOTE: Byte := 34
  const BACKSLASH: Byte := 92
  const LETTER_U: Byte := 117

  // ----- code points

  /** A code point's bytes, 1 to 4 of them. */
  function Utf8(cp: nat): (b: Bytes)
    requires cp < 0x110000
    ensures 1 <= |b| <= 4
  {
    var q := cp / 64;
    if cp < 0x80 then [cp]
    else if cp < 0x800 then [0xC0 + q, 0x80 + cp % 64]
    else if cp < 0x10000 then [0xE0 + q / 64, 0x80 + q % 64, 0x80 + cp % 64]
    else [0xF0 + q / 64 / 64, 0x80 + q / 64 % 64, 0x80 + q % 64, 0x80 + cp % 64]
  }

  predicate Continues(b: Byte) {
    0x80 <= b < 0xC0
  }

  /** The one code point that bytes are the UTF-8 of, section 3 of RFC 3629; none for a longer form than need be, or a surrogate. */
  function FromUtf8(b: Bytes): (cp: Option<nat>) {
    if |b| == 1 && b[0] < 0x80 then Some(b[0])
    else if |b| == 2 && 0xC2 <= b[0] < 0xE0 && Continues(b[1]) then Some((b[0] as nat - 0xC0) * 64 + (b[1] - 0x80))
    else if |b| == 3 && 0xE0 <= b[0] < 0xF0 && Continues(b[1]) && Continues(b[2])
            && (b[0] == 0xE0 ==> b[1] >= 0xA0) && (b[0] == 0xED ==> b[1] < 0xA0)
      then Some(((b[0] as nat - 0xE0) * 64 + (b[1] - 0x80)) * 64 + (b[2] - 0x80))
    else if |b| == 4 && 0xF0 <= b[0] < 0xF5 && Continues(b[1]) && Continues(b[2]) && Continues(b[3])
            && (b[0] == 0xF0 ==> b[1] >= 0x90) && (b[0] == 0xF4 ==> b[1] < 0x90)
      then Some((((b[0] as nat - 0xF0) * 64 + (b[1] - 0x80)) * 64 + (b[2] - 0x80)) * 64 + (b[3] - 0x80))
    else None
  }

  predicate Scalar(cp: nat) {
    cp < 0x110000 && !(0xD800 <= cp < 0xE000)
  }

  lemma Utf8IsExact(cp: nat)
    requires Scalar(cp)
    ensures FromUtf8(Utf8(cp)) == Some(cp)
  {
  }

  // ----- escapes

  function HexVal(c: Byte): (v: Option<nat>)
    ensures v.Some? ==> v.value < 16
  {
    if 48 <= c <= 57 then Some(c - 48)
    else if 97 <= c <= 102 then Some(c - 97 + 10)
    else if 65 <= c <= 70 then Some(c - 65 + 10)
    else None
  }

  function Hex4(h: Bytes): (v: Option<nat>)
    requires |h| == 4
    ensures v.Some? ==> v.value < 0x10000
  {
    var a, b, c, d := HexVal(h[0]), HexVal(h[1]), HexVal(h[2]), HexVal(h[3]);
    if a.None? || b.None? || c.None? || d.None? then None
    else Some(((a.value * 16 + b.value) * 16 + c.value) * 16 + d.value)
  }

  /** The characters a backslash and one letter stand for. */
  function Simple(c: Byte): (v: Option<Byte>)
    ensures v.Some? ==> 0 < v.value < 0x80
  {
    if c == QUOTE || c == BACKSLASH || c == 47 then Some(c)
    else if c == 98 then Some(8)
    else if c == 102 then Some(12)
    else if c == 110 then Some(10)
    else if c == 114 then Some(13)
    else if c == 116 then Some(9)
    else None
  }

  /** One character of a string as it is spelled. */
  datatype Token =
    | Raw(b: Byte)
    | Letter(c: Byte)
    | Unicode(hex: Bytes)
    | Pair(hi: Bytes, lo: Bytes)

  predicate High(v: nat) { 0xD800 <= v <= 0xDBFF }
  predicate Low(v: nat) { 0xDC00 <= v <= 0xDFFF }

  /** A spelling the reader takes: any raw byte but NUL and the backslash, and escapes of anything but NUL. */
  predicate TokenOk(t: Token) {
    match t
    case Raw(b) => b != 0 && b != BACKSLASH
    case Letter(c) => Simple(c).Some?
    case Unicode(h) => |h| == 4 && Hex4(h).Some? && Hex4(h).value != 0 && Scalar(Hex4(h).value)
    case Pair(h, l) => |h| == 4 && |l| == 4 && Hex4(h).Some? && Hex4(l).Some? && High(Hex4(h).value) && Low(Hex4(l).value)
  }

  function Spelled(t: Token): (b: Bytes)
    requires TokenOk(t)
    ensures |b| >= 1
  {
    match t
    case Raw(b) => [b]
    case Letter(c) => [BACKSLASH, c]
    case Unicode(h) => [BACKSLASH, LETTER_U] + h
    case Pair(h, l) => [BACKSLASH, LETTER_U] + h + [BACKSLASH, LETTER_U] + l
  }

  /** What a surrogate pair stands for, section 7 of RFC 8259. */
  function Combined(hi: nat, lo: nat): (cp: nat)
    requires High(hi) && Low(lo)
    ensures 0x10000 <= cp < 0x110000
  {
    0x10000 + (hi - 0xD800) * 0x400 + (lo - 0xDC00)
  }

  function Meaning(t: Token): (b: Bytes)
    requires TokenOk(t)
  {
    match t
    case Raw(b) => [b]
    case Letter(c) => [Simple(c).value]
    case Unicode(h) => Utf8(Hex4(h).value)
    case Pair(h, l) => Utf8(Combined(Hex4(h).value, Hex4(l).value))
  }

  /** The token at `i`: what is next read, None when it is malformed. */
  function TokenAt(src: Bytes, i: nat): (t: Option<Token>)
    requires i < |src|
    ensures t.Some? ==> TokenOk(t.value) && i + |Spelled(t.value)| <= |src| && src[i..i + |Spelled(t.value)|] == Spelled(t.value)
  {
    if src[i] != BACKSLASH then (if src[i] == 0 then None else Some(Raw(src[i])))
    else if i + 1 >= |src| then None
    else if Simple(src[i + 1]).Some? then Some(Letter(src[i + 1]))
    else if src[i + 1] != LETTER_U || i + 5 >= |src| then None
    else
      var h := src[i + 2..i + 6];
      var cp := Hex4(h);
      if cp.None? || Low(cp.value) || cp.value == 0 then None
      else if !High(cp.value) then
        assert src[i..i + 6] == [BACKSLASH, LETTER_U] + h;
        Some(Unicode(h))
      else if i + 11 >= |src| || src[i + 6] != BACKSLASH || src[i + 7] != LETTER_U then None
      else
        var l := src[i + 8..i + 12];
        var lo := Hex4(l);
        if lo.None? || !Low(lo.value) then None
        else
          assert src[i..i + 12] == [BACKSLASH, LETTER_U] + h + [BACKSLASH, LETTER_U] + l;
          Some(Pair(h, l))
  }

  /** What the string from `i` on means, None when it is malformed. */
  function Decoded(src: Bytes, i: nat): (r: Option<Bytes>)
    requires i <= |src|
    decreases |src| - i
  {
    if i == |src| then Some([])
    else
      var t := TokenAt(src, i);
      if t.None? then None
      else
        var rest := Decoded(src, i + |Spelled(t.value)|);
        if rest.None? then None else Some(Meaning(t.value) + rest.value)
  }

  /** A character as it comes out, and where the next one is spelled. */
  datatype Char = Char(out: Bytes, next: nat)

  /** One turn of the loop, short of the room left: the character at `i`. */
  method Next(src: Bytes, i: nat) returns (r: Option<Char>)
    requires i < |src|
    ensures var t := TokenAt(src, i);
            r == if t.None? then None else Some(Char(Meaning(t.value), i + |Spelled(t.value)|))
  {
    var c := src[i];
    if c != BACKSLASH {
      return if c == 0 then None else Some(Char([c], i + 1));
    }
    if i + 1 >= |src| {
      return None;
    }
    var simple := Simple(src[i + 1]);
    if simple.Some? {
      return Some(Char(Utf8(simple.value), i + 2));
    }
    if src[i + 1] != LETTER_U || i + 5 >= |src| {
      return None;
    }
    var u := Hex4(src[i + 2..i + 6]);
    if u.None? {
      return None;
    }
    if High(u.value) {
      if i + 11 >= |src| || src[i + 6] != BACKSLASH || src[i + 7] != LETTER_U {
        return None;
      }
      var lo := Hex4(src[i + 8..i + 12]);
      if lo.None? || !Low(lo.value) {
        return None;
      }
      return Some(Char(Utf8(Combined(u.value, lo.value)), i + 12));
    }
    if Low(u.value) || u.value == 0 {
      return None;
    }
    return Some(Char(Utf8(u.value), i + 6));
  }

  /** Unescape into a buffer of `cap` bytes with room for the NUL: all of it or nothing. */
  method Unescape(src: Bytes, cap: nat) returns (dst: Option<Bytes>)
    requires cap > 0
    ensures dst == if Decoded(src, 0).Some? && |Decoded(src, 0).value| < cap then Decoded(src, 0) else None
  {
    hide TokenAt, Meaning, Spelled;
    var o: Bytes := [];
    var i := 0;
    PrefixedNone(Decoded(src, 0));
    while i < |src|
      invariant 0 <= i <= |src| && |o| < cap
      invariant Decoded(src, 0) == Prefixed(o, Decoded(src, i))
      decreases |src| - i
    {
      var ch := Next(src, i);
      if ch.None? {
        return None;
      }
      PrefixedMore(o, ch.value.out, Decoded(src, ch.value.next));
      if |o| + |ch.value.out| >= cap {
        return None;
      }
      o := o + ch.value.out;
      i := ch.value.next;
    }
    assert o + [] == o;
    return Some(o);
  }

  function Prefixed(o: Bytes, r: Option<Bytes>): (p: Option<Bytes>) {
    if r.None? then None else Some(o + r.value)
  }

  lemma PrefixedNone(r: Option<Bytes>)
    ensures Prefixed([], r) == r
  {
    if r.Some? {
      assert [] + r.value == r.value;
    }
  }

  lemma PrefixedMore(a: Bytes, b: Bytes, r: Option<Bytes>)
    ensures Prefixed(a, Prefixed(b, r)) == Prefixed(a + b, r)
  {
    if r.Some? {
      assert a + (b + r.value) == a + b + r.value;
    }
  }

  // ----- reading against spelling

  ghost predicate TokensOk(ts: seq<Token>) {
    forall i :: 0 <= i < |ts| ==> TokenOk(ts[i])
  }

  ghost function SpelledAll(ts: seq<Token>): (b: Bytes)
    requires TokensOk(ts)
  {
    if ts == [] then [] else Spelled(ts[0]) + SpelledAll(ts[1..])
  }

  ghost function MeaningAll(ts: seq<Token>): (b: Bytes)
    requires TokensOk(ts)
  {
    if ts == [] then [] else Meaning(ts[0]) + MeaningAll(ts[1..])
  }

  /** A character is read as it was spelled, whatever surrounds it. */
  lemma ReadsToken(t: Token, src: Bytes, i: nat)
    requires TokenOk(t) && Begins(src, i, Spelled(t))
    ensures i < |src| && TokenAt(src, i) == Some(t)
  {
    var u := [BACKSLASH, LETTER_U];
    match t {
      case Raw(b) =>
        assert src[i] == src[i..i + 1][0];
      case Letter(c) =>
        assert src[i..i + 2] == [BACKSLASH, c];
        assert src[i] == src[i..i + 2][0] && src[i + 1] == src[i..i + 2][1];
      case Unicode(h) =>
        BeginsSplit(src, i, u, h);
        assert src[i] == src[i..i + 2][0] && src[i + 1] == src[i..i + 2][1];
      case Pair(h, l) =>
        ReadsPair(h, l, src, i);
    }
  }

  lemma ReadsPair(h: Bytes, l: Bytes, src: Bytes, i: nat)
    requires TokenOk(Pair(h, l)) && Begins(src, i, Spelled(Pair(h, l)))
    ensures i < |src| && TokenAt(src, i) == Some(Pair(h, l))
  {
    var u := [BACKSLASH, LETTER_U];
    hide Hex4;
    BeginsSplit(src, i, u + h + u, l);
    BeginsSplit(src, i, u + h, u);
    BeginsSplit(src, i, u, h);
    assert src[i] == src[i..i + 2][0] && src[i + 1] == src[i..i + 2][1];
    assert src[i + 6] == src[i + 6..i + 8][0] && src[i + 7] == src[i + 6..i + 8][1];
  }

  lemma {:induction false} ReadsSpelling(ts: seq<Token>, src: Bytes, i: nat)
    requires TokensOk(ts) && Begins(src, i, SpelledAll(ts)) && i + |SpelledAll(ts)| == |src|
    ensures Decoded(src, i) == Some(MeaningAll(ts))
    decreases |ts|
  {
    hide TokenAt, Meaning, Spelled, TokenOk, Begins;
    if ts != [] {
      BeginsSplit(src, i, Spelled(ts[0]), SpelledAll(ts[1..]));
      ReadsToken(ts[0], src, i);
      ReadsSpelling(ts[1..], src, i + |Spelled(ts[0])|);
    }
  }

  lemma {:induction false} ReadIsSpelling(src: Bytes, i: nat) returns (ts: seq<Token>)
    requires i <= |src| && Decoded(src, i).Some?
    ensures TokensOk(ts) && SpelledAll(ts) == src[i..] && MeaningAll(ts) == Decoded(src, i).value
    decreases |src| - i
  {
    hide TokenAt, Meaning, Spelled, TokenOk;
    ts := [];
    if i < |src| {
      var t := TokenAt(src, i).value;
      var n := |Spelled(t)|;
      var rest := ReadIsSpelling(src, i + n);
      ts := [t] + rest;
      ConsTokens(t, rest);
      assert src[i..] == src[i..i + n] + src[i + n..];
    }
  }

  lemma ConsTokens(t: Token, rest: seq<Token>)
    requires TokenOk(t) && TokensOk(rest)
    ensures TokensOk([t] + rest) && SpelledAll([t] + rest) == Spelled(t) + SpelledAll(rest)
    ensures MeaningAll([t] + rest) == Meaning(t) + MeaningAll(rest)
  {
    hide Meaning, Spelled, TokenOk;
    assert ([t] + rest)[1..] == rest;
  }

  /** A string is read exactly when it is made of spellings the reader takes, and comes out as what they mean. */
  lemma DecodedIsExact(src: Bytes, out: Bytes)
    ensures Decoded(src, 0) == Some(out) <==> exists ts :: TokensOk(ts) && SpelledAll(ts) == src && MeaningAll(ts) == out
  {
    hide Decoded, SpelledAll, MeaningAll, TokensOk;
    assert src[0..] == src == src[..|src|];
    if Decoded(src, 0) == Some(out) {
      var ts := ReadIsSpelling(src, 0);
    }
    forall ts | TokensOk(ts) && SpelledAll(ts) == src && MeaningAll(ts) == out ensures Decoded(src, 0) == Some(out) {
      ReadsSpelling(ts, src, 0);
    }
  }

  // ----- the invitation body

  function HexDigit(v: nat): (c: Byte)
    requires v < 16
  {
    if v < 10 then 48 + v else 97 + v - 10
  }

  /** How the body spells a byte of the address. */
  function EscapeToken(b: Byte): (t: Token) {
    if b == QUOTE || b == BACKSLASH then Letter(b)
    else if b < 0x20 then Unicode([48, 48, HexDigit(b / 16), HexDigit(b % 16)])
    else Raw(b)
  }

  lemma EscapeMeans(b: Byte)
    requires b != 0
    ensures TokenOk(EscapeToken(b)) && Meaning(EscapeToken(b)) == [b]
  {
    if b < 0x20 {
      var h := [48, 48, HexDigit(b / 16), HexDigit(b % 16)];
      assert HexVal(h[2]) == Some(b / 16) && HexVal(h[3]) == Some(b % 16);
      assert Hex4(h) == Some(b);
    }
  }

  ghost predicate NulFree(s: Bytes) {
    forall i :: 0 <= i < |s| ==> s[i] != 0
  }

  function Escaped(s: Bytes): (b: Bytes)
    requires NulFree(s)
  {
    if s == [] then [] else EscapeMeans(s[|s| - 1]); Escaped(s[..|s| - 1]) + Spelled(EscapeToken(s[|s| - 1]))
  }

  ghost function EscapeTokens(s: Bytes): (ts: seq<Token>)
    ensures |ts| == |s| && forall i :: 0 <= i < |s| ==> ts[i] == EscapeToken(s[i])
  {
    seq(|s|, i requires 0 <= i < |s| => EscapeToken(s[i]))
  }

  lemma {:induction false} EscapedSpells(s: Bytes)
    requires NulFree(s)
    ensures TokensOk(EscapeTokens(s)) && SpelledAll(EscapeTokens(s)) == Escaped(s) && MeaningAll(EscapeTokens(s)) == s
  {
    hide TokenOk, EscapeToken, Spelled, Meaning;
    if s != [] {
      var init, b := s[..|s| - 1], s[|s| - 1];
      EscapedSpells(init);
      EscapeMeans(b);
      assert EscapeTokens(s) == EscapeTokens(init) + [EscapeToken(b)];
      SpelledPush(EscapeTokens(init), EscapeToken(b));
    }
  }

  lemma {:induction false} SpelledPush(ts: seq<Token>, t: Token)
    requires TokensOk(ts) && TokenOk(t)
    ensures TokensOk(ts + [t]) && SpelledAll(ts + [t]) == SpelledAll(ts) + Spelled(t) && MeaningAll(ts + [t]) == MeaningAll(ts) + Meaning(t)
  {
    hide Spelled, Meaning, TokenOk, SpelledAll, MeaningAll;
    if ts == [] {
      OneToken(t);
      assert ts + [t] == [t];
    } else {
      var first, rest := ts[0], ts[1..];
      assert ts == [first] + rest && ts + [t] == [first] + (rest + [t]);
      SpelledPush(rest, t);
      ConsTokens(first, rest);
      ConsTokens(first, rest + [t]);
      assert Spelled(first) + (SpelledAll(rest) + Spelled(t)) == Spelled(first) + SpelledAll(rest) + Spelled(t);
      assert Meaning(first) + (MeaningAll(rest) + Meaning(t)) == Meaning(first) + MeaningAll(rest) + Meaning(t);
    }
  }

  lemma OneToken(t: Token)
    requires TokenOk(t)
    ensures TokensOk([t]) && SpelledAll([t]) == SpelledAll([]) + Spelled(t) && MeaningAll([t]) == MeaningAll([]) + Meaning(t)
  {
    hide Spelled, Meaning;
    assert [t][1..] == [];
  }

  /** Unescaping undoes the body's escaping, for every address. */
  lemma UnescapeUndoesEscape(s: Bytes)
    requires NulFree(s)
    ensures Decoded(Escaped(s), 0) == Some(s)
  {
    EscapedSpells(s);
    assert Escaped(s)[0..|Escaped(s)|] == Escaped(s);
    ReadsSpelling(EscapeTokens(s), Escaped(s), 0);
  }

  /** The body: `before` and `after` are its fixed text with the id and the time in it; all of it, with its NUL, or nothing. */
  method BuildBody(before: Bytes, email: Bytes, after: Bytes, cap: nat) returns (out: Option<Bytes>)
    requires NulFree(email)
    ensures out == if |before + Escaped(email) + after| < cap then Some(before + Escaped(email) + after) else None
  {
    hide EscapeToken, Spelled, TokenOk;
    if |before| >= cap {
      return None;
    }
    var o := before;
    assert before + Escaped(email[..0]) == before;
    for i := 0 to |email|
      invariant o == before + Escaped(email[..i]) && |o| < cap
      invariant |Escaped(email[..i])| <= |Escaped(email)|
    {
      EscapedGrows(email, i + 1);
      EscapeMeans(email[i]);
      assert email[..i + 1][..i] == email[..i];
      var add := Spelled(EscapeToken(email[i]));
      if |o| + |add| >= cap {
        return None;
      }
      assert before + Escaped(email[..i]) + add == before + (Escaped(email[..i]) + add);
      o := o + add;
    }
    assert email[..|email|] == email;
    if |o| + |after| >= cap {
      return None;
    }
    return Some(o + after);
  }

  lemma {:induction false} EscapedGrows(s: Bytes, i: nat)
    requires NulFree(s) && i <= |s|
    ensures |Escaped(s[..i])| <= |Escaped(s)|
  {
    if i < |s| {
      EscapedGrows(s[..|s| - 1], i);
      assert s[..|s| - 1][..i] == s[..i];
    } else {
      assert s[..i] == s;
    }
  }
}
