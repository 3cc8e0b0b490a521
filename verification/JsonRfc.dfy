/**
  The strings of section 7 of RFC 8259, in UTF-8 as its section 8.1 asks, against what
  the reader of `JsonText` takes. The reader leaves it to its caller that raw bytes are
  what the format allows; of what the format allows, it refuses NUL and lone surrogates.
 */
module JsonRfc {
  import opened Basics
  import opened JsonText

  // ----- the format

  /** A character as it is, an escape of one letter, or four hexadecimal digits. */
  datatype Char = Plain(cp: nat) | Escape(c: Byte) | Hex(h: Bytes)

  predicate CharOk(t: Char) {
    match t
    case Plain(cp) => Scalar(cp) && cp >= 0x20 && cp != QUOTE && cp != BACKSLASH
    case Escape(c) => Simple(c).Some?
    case Hex(h) => |h| == 4 && Hex4(h).Some?
  }

  predicate CharsOk(ts: seq<Char>) {
    forall i :: 0 <= i < |ts| ==> CharOk(ts[i])
  }

  function Written(t: Char): (b: Bytes)
    requires CharOk(t)
    ensures |b| >= 1
  {
    match t
    case Plain(cp) => Utf8(cp)
    case Escape(c) => [BACKSLASH, c]
    case Hex(h) => [BACKSLASH, LETTER_U] + h
  }

  function WrittenAll(ts: seq<Char>): (b: Bytes)
    requires CharsOk(ts)
  {
    if ts == [] then [] else Written(ts[0]) + WrittenAll(ts[1..])
  }

  ghost predicate IsString(src: Bytes) {
    exists ts :: CharsOk(ts) && WrittenAll(ts) == src
  }

  /** Every high surrogate has its low one behind it, no low one stands alone, and none of them is NUL. */
  predicate Paired(ts: seq<Char>)
    requires CharsOk(ts)
  {
    if ts == [] then true
    else if !ts[0].Hex? then Paired(ts[1..])
    else
      var v := Hex4(ts[0].h).value;
      if v == 0 || Low(v) then false
      else if High(v) then |ts| >= 2 && ts[1].Hex? && Low(Hex4(ts[1].h).value) && Paired(ts[2..])
      else Paired(ts[1..])
  }

  /** The text a string stands for, in UTF-8. */
  function Text(ts: seq<Char>): (b: Bytes)
    requires CharsOk(ts) && Paired(ts)
  {
    if ts == [] then []
    else
      match ts[0]
      case Plain(cp) => Utf8(cp) + Text(ts[1..])
      case Escape(c) => [Simple(c).value] + Text(ts[1..])
      case Hex(h) =>
        if High(Hex4(h).value) then Utf8(Combined(Hex4(h).value, Hex4(ts[1].h).value)) + Text(ts[2..])
        else Utf8(Hex4(h).value) + Text(ts[1..])
  }

  // ----- code points

  /** How many bytes a lead byte announces. */
  function Length(b: Byte): (n: nat) {
    if b < 0x80 then 1 else if b < 0xE0 then 2 else if b < 0xF0 then 3 else 4
  }

  lemma Utf8Bytes(cp: nat)
    requires Scalar(cp)
    ensures var b := Utf8(cp);
            && Length(b[0]) == |b| && FromUtf8(b) == Some(cp)
            && if cp < 0x80 then b == [cp] else forall i :: 0 <= i < |b| ==> b[i] >= 0x80
  {
    Utf8IsExact(cp);
  }

  lemma Utf8Back(b: Bytes)
    requires FromUtf8(b).Some?
    ensures var cp := FromUtf8(b).value; Scalar(cp) && Utf8(cp) == b
  {
    if |b| == 2 {
      TwoBack(b);
    } else if |b| == 3 {
      ThreeBack(b);
    } else if |b| == 4 {
      FourBack(b);
    }
  }

  lemma TwoBack(b: Bytes)
    requires |b| == 2 && FromUtf8(b).Some?
    ensures var cp := FromUtf8(b).value; Scalar(cp) && Utf8(cp) == b
  {
    var cp: nat, x: nat, y: nat := FromUtf8(b).value, b[0] - 0xC0, b[1] - 0x80;
    assert cp == x * 64 + y && cp / 64 == x && cp % 64 == y;
  }

  lemma ThreeBack(b: Bytes)
    requires |b| == 3 && FromUtf8(b).Some?
    ensures var cp := FromUtf8(b).value; Scalar(cp) && Utf8(cp) == b
  {
    var cp: nat, x: nat, y: nat, z: nat := FromUtf8(b).value, b[0] - 0xE0, b[1] - 0x80, b[2] - 0x80;
    assert cp == (x * 64 + y) * 64 + z && cp / 64 == x * 64 + y && cp % 64 == z;
    assert cp / 64 / 64 == x && cp / 64 % 64 == y;
  }

  lemma FourBack(b: Bytes)
    requires |b| == 4 && FromUtf8(b).Some?
    ensures var cp := FromUtf8(b).value; Scalar(cp) && Utf8(cp) == b
  {
    var cp: nat, x: nat, y: nat, z: nat, w: nat := FromUtf8(b).value, b[0] - 0xF0, b[1] - 0x80, b[2] - 0x80, b[3] - 0x80;
    assert cp == ((x * 64 + y) * 64 + z) * 64 + w && cp / 64 == (x * 64 + y) * 64 + z && cp % 64 == w;
    assert cp / 64 / 64 == x * 64 + y && cp / 64 % 64 == z;
    assert cp / 64 / 64 / 64 == x && cp / 64 / 64 % 64 == y;
  }

  // ----- what a caller can check of the raw bytes

  /** From `i` on the bytes are UTF-8. */
  predicate Utf8From(src: Bytes, i: nat)
    requires i <= |src|
    decreases |src| - i
  {
    i == |src| || var n := Length(src[i]);
      i + n <= |src| && FromUtf8(src[i..i + n]).Some? && Utf8From(src, i + n)
  }

  /** From `i` on no quotation mark stands but behind a backslash. */
  predicate NoRawQuote(src: Bytes, i: nat)
    decreases |src| - i
  {
    i >= |src| || if src[i] == BACKSLASH then NoRawQuote(src, i + 2) else src[i] != QUOTE && NoRawQuote(src, i + 1)
  }

  /** No control characters from `i` on. */
  predicate NoControls(src: Bytes, i: nat) {
    forall j :: i <= j < |src| ==> src[j] >= 0x20
  }

  predicate Clean(src: Bytes, i: nat)
    requires i <= |src|
  {
    Utf8From(src, i) && NoRawQuote(src, i) && NoControls(src, i)
  }

  predicate Ordinary(b: Byte) {
    b != BACKSLASH && b != QUOTE
  }

  lemma {:induction false} QuoteSkip(src: Bytes, i: nat, n: nat)
    requires i + n <= |src| && forall j :: i <= j < i + n ==> Ordinary(src[j])
    ensures NoRawQuote(src, i) <==> NoRawQuote(src, i + n)
    decreases n
  {
    if n > 0 {
      assert Ordinary(src[i]);
      QuoteSkip(src, i + 1, n - 1);
    }
  }

  lemma {:induction false} AsciiSkip(src: Bytes, i: nat, n: nat)
    requires i + n <= |src| && forall j :: i <= j < i + n ==> src[j] < 0x80
    ensures Utf8From(src, i) <==> Utf8From(src, i + n)
    decreases n
  {
    if n > 0 {
      assert src[i] < 0x80 && src[i..i + 1] == [src[i]];
      AsciiSkip(src, i + 1, n - 1);
    }
  }

  lemma ControlSkip(src: Bytes, i: nat, n: nat)
    requires i + n <= |src| && forall j :: i <= j < i + n ==> src[j] >= 0x20
    ensures NoControls(src, i) <==> NoControls(src, i + n)
  {
  }

  /** Four hexadecimal digits are ordinary characters. */
  lemma HexIsOrdinary(h: Bytes)
    requires |h| == 4 && Hex4(h).Some?
    ensures forall j :: 0 <= j < 4 ==> Ordinary(h[j]) && 0x20 <= h[j] < 0x80
  {
    forall j | 0 <= j < 4 ensures Ordinary(h[j]) && 0x20 <= h[j] < 0x80 {
      assert HexVal(h[j]).Some?;
    }
  }

  lemma SimpleIsAscii(c: Byte)
    requires Simple(c).Some?
    ensures 0x20 <= c < 0x80 && c != LETTER_U
  {
  }

  lemma AsciiClean(src: Bytes, i: nat, n: nat)
    requires i + n <= |src| && (forall j :: i <= j < i + n ==> 0x20 <= src[j] < 0x80)
    requires NoRawQuote(src, i) <==> NoRawQuote(src, i + n)
    ensures Clean(src, i) <==> Clean(src, i + n)
  {
    hide Utf8From, NoRawQuote, NoControls;
    AsciiSkip(src, i, n);
    ControlSkip(src, i, n);
  }

  /** An escape tells nothing about the raw bytes after it. */
  lemma LetterIsClean(c: Byte, src: Bytes, i: nat)
    requires Simple(c).Some? && Begins(src, i, [BACKSLASH, c])
    ensures i + 2 <= |src| && (Clean(src, i) <==> Clean(src, i + 2))
  {
    hide Clean;
    SimpleIsAscii(c);
    assert src[i] == src[i..i + 2][0] && src[i + 1] == src[i..i + 2][1];
    AsciiClean(src, i, 2);
  }

  lemma HexIsClean(h: Bytes, src: Bytes, i: nat)
    requires |h| == 4 && Hex4(h).Some? && Begins(src, i, [BACKSLASH, LETTER_U] + h)
    ensures i + 6 <= |src| && (Clean(src, i) <==> Clean(src, i + 6))
  {
    HexIsOrdinary(h);
    hide Clean, Hex4;
    BeginsSplit(src, i, [BACKSLASH, LETTER_U], h);
    assert src[i] == src[i..i + 2][0] && src[i + 1] == src[i..i + 2][1];
    forall j | i + 2 <= j < i + 6 ensures Ordinary(src[j]) && 0x20 <= src[j] < 0x80 {
      assert src[j] == src[i + 2..i + 6][j - i - 2];
    }
    QuoteSkip(src, i + 2, 4);
    AsciiClean(src, i, 6);
  }

  lemma EscapeIsClean(t: Char, src: Bytes, i: nat)
    requires CharOk(t) && !t.Plain? && Begins(src, i, Written(t))
    ensures i + |Written(t)| <= |src| && (Clean(src, i) <==> Clean(src, i + |Written(t)|))
  {
    hide Clean, Begins, Hex4, Simple;
    match t {
      case Escape(c) => LetterIsClean(c, src, i);
      case Hex(h) => HexIsClean(h, src, i);
    }
  }

  lemma PlainIsClean(t: Char, src: Bytes, i: nat)
    requires CharOk(t) && t.Plain? && Begins(src, i, Written(t))
    ensures i + |Written(t)| <= |src| && (Clean(src, i) <==> Clean(src, i + |Written(t)|))
    ensures forall j :: i <= j < i + |Written(t)| ==> src[j] != BACKSLASH && src[j] != 0
  {
    var b, n := Utf8(t.cp), |Utf8(t.cp)|;
    Utf8Bytes(t.cp);
    assert src[i..i + n] == b && src[i] == b[0];
    hide Utf8, FromUtf8;
    forall j | i <= j < i + n ensures Ordinary(src[j]) && src[j] >= 0x20 {
      assert src[j] == b[j - i];
    }
    QuoteSkip(src, i, n);
    ControlSkip(src, i, n);
    assert Utf8From(src, i) <==> Utf8From(src, i + n);
  }

  lemma {:induction false} WrittenIsClean(ts: seq<Char>, src: Bytes, i: nat)
    requires CharsOk(ts) && Begins(src, i, WrittenAll(ts)) && i + |WrittenAll(ts)| == |src|
    ensures Clean(src, i)
    decreases |ts|
  {
    hide Clean, Written, CharOk, Begins;
    if ts == [] {
      CleanEnd(src);
    } else {
      var t := ts[0];
      BeginsSplit(src, i, Written(t), WrittenAll(ts[1..]));
      WrittenIsClean(ts[1..], src, i + |Written(t)|);
      if t.Plain? {
        PlainIsClean(t, src, i);
      } else {
        EscapeIsClean(t, src, i);
      }
    }
  }

  lemma CleanEnd(src: Bytes)
    ensures Clean(src, |src|)
  {
  }

  lemma RawOne(src: Bytes, i: nat)
    requires i < |src| && src[i] != BACKSLASH && src[i] != 0
    ensures Decoded(src, i) == Prefixed([src[i]], Decoded(src, i + 1))
  {
    assert TokenAt(src, i) == Some(Raw(src[i]));
  }

  /** Bytes the reader takes as they are. */
  lemma {:induction false} RawSkip(src: Bytes, i: nat, n: nat)
    requires i + n <= |src| && forall j :: i <= j < i + n ==> src[j] != BACKSLASH && src[j] != 0
    ensures Decoded(src, i) == Prefixed(src[i..i + n], Decoded(src, i + n))
    decreases n
  {
    hide Decoded, Prefixed;
    if n == 0 {
      PrefixedNone(Decoded(src, i));
      assert src[i..i] == [];
    } else {
      RawOne(src, i);
      RawSkip(src, i + 1, n - 1);
      PrefixedMore([src[i]], src[i + 1..i + n], Decoded(src, i + n));
      assert src[i..i + n] == [src[i]] + src[i + 1..i + n];
    }
  }

  /** An escape as the reader takes it. */
  lemma TokenOne(t: Token, src: Bytes, i: nat)
    requires TokenOk(t) && Begins(src, i, Spelled(t))
    ensures i + |Spelled(t)| <= |src| && Decoded(src, i) == Prefixed(Meaning(t), Decoded(src, i + |Spelled(t)|))
  {
    hide TokenAt, Meaning, TokenOk, Spelled;
    BeginsAt(src, i, Spelled(t));
    ReadsToken(t, src, i);
  }

  lemma TokenNext(src: Bytes, i: nat)
    requires i < |src| && Decoded(src, i).Some?
    ensures TokenAt(src, i).Some? && Decoded(src, i + |Spelled(TokenAt(src, i).value)|).Some?
  {
    hide TokenAt, Meaning, TokenOk, Spelled;
  }

  // ----- what is read and what the format allows

  /** Of what the reader takes, clean raw bytes make a string of the format. */
  lemma {:induction false} CleanIsWritten(src: Bytes, i: nat) returns (ts: seq<Char>)
    requires i <= |src| && Decoded(src, i).Some? && Clean(src, i)
    ensures CharsOk(ts) && WrittenAll(ts) == src[i..]
    decreases |src| - i
  {
    hide Clean, Decoded, WrittenAll, CharsOk;
    if i == |src| {
      ts := [];
      WrittenNone();
    } else {
      var first, n := CleanFirst(src, i);
      var rest := CleanIsWritten(src, i + n);
      ts := first + rest;
      WrittenConcat(first, rest);
      assert src[i..] == src[i..i + n] + src[i + n..];
    }
  }

  lemma {:induction false} WrittenConcat(a: seq<Char>, b: seq<Char>)
    requires CharsOk(a) && CharsOk(b)
    ensures CharsOk(a + b) && WrittenAll(a + b) == WrittenAll(a) + WrittenAll(b)
  {
    hide CharOk, Written;
    if a == [] {
      assert a + b == b;
    } else {
      WrittenConcat(a[1..], b);
      assert (a + b)[1..] == a[1..] + b;
    }
  }

  lemma WrittenNone()
    ensures CharsOk([]) && WrittenAll([]) == []
  {
  }

  lemma WrittenOne(t: Char)
    requires CharOk(t)
    ensures CharsOk([t]) && WrittenAll([t]) == Written(t)
  {
    assert WrittenAll([t]) == Written(t) + [];
  }

  /** The character, or the two of a surrogate pair, that the reader takes next. */
  lemma CleanFirst(src: Bytes, i: nat) returns (first: seq<Char>, n: nat)
    requires i < |src| && Decoded(src, i).Some? && Clean(src, i)
    ensures 0 < n && i + n <= |src| && CharsOk(first) && WrittenAll(first) == src[i..i + n]
    ensures Decoded(src, i + n).Some? && Clean(src, i + n)
  {
    hide Clean, Decoded, WrittenAll, CharsOk, CharOk, Written;
    if src[i] == BACKSLASH {
      first, n := EscapeFirst(src, i);
    } else {
      n := Length(src[i]);
      var t := PlainFirst(src, i);
      first := [t];
      WrittenOne(t);
      PlainIsClean(t, src, i);
      RawSkip(src, i, n);
    }
  }

  lemma PlainFirst(src: Bytes, i: nat) returns (t: Char)
    requires i < |src| && src[i] != BACKSLASH && Clean(src, i)
    ensures i + Length(src[i]) <= |src| && CharOk(t) && t.Plain? && Written(t) == src[i..i + Length(src[i])]
  {
    var b := src[i..i + Length(src[i])];
    t := Plain(FromUtf8(b).value);
    Utf8Back(b);
    Utf8Bytes(t.cp);
    hide Utf8, FromUtf8, Utf8From;
    assert b[0] == src[i] && src[i] >= 0x20 && src[i] != QUOTE;
  }

  lemma EscapeFirst(src: Bytes, i: nat) returns (first: seq<Char>, n: nat)
    requires i < |src| && src[i] == BACKSLASH && Decoded(src, i).Some? && Clean(src, i)
    ensures 0 < n && i + n <= |src| && CharsOk(first) && WrittenAll(first) == src[i..i + n]
    ensures Decoded(src, i + n).Some? && Clean(src, i + n)
  {
    hide TokenAt, Clean, Hex4, Simple, WrittenAll, CharsOk, Decoded;
    TokenNext(src, i);
    var t := TokenAt(src, i).value;
    n := |Spelled(t)|;
    match t {
      case Raw(b) => assert false;
      case Letter(c) =>
        first := [Escape(c)];
        WrittenOne(Escape(c));
        LetterIsClean(c, src, i);
      case Unicode(h) =>
        first := [Hex(h)];
        WrittenOne(Hex(h));
        HexIsClean(h, src, i);
      case Pair(h, l) =>
        first := [Hex(h)] + [Hex(l)];
        WrittenOne(Hex(h));
        WrittenOne(Hex(l));
        WrittenConcat([Hex(h)], [Hex(l)]);
        PairIsClean(h, l, src, i);
    }
  }

  lemma PairIsClean(h: Bytes, l: Bytes, src: Bytes, i: nat)
    requires |h| == |l| == 4 && Hex4(h).Some? && Hex4(l).Some?
    requires Begins(src, i, [BACKSLASH, LETTER_U] + h + [BACKSLASH, LETTER_U] + l)
    ensures i + 12 <= |src| && (Clean(src, i) <==> Clean(src, i + 12))
    ensures src[i..i + 12] == ([BACKSLASH, LETTER_U] + h) + ([BACKSLASH, LETTER_U] + l)
  {
    hide Clean, Hex4;
    var u := [BACKSLASH, LETTER_U];
    assert u + h + u + l == (u + h) + (u + l);
    BeginsSplit(src, i, u + h, u + l);
    HexIsClean(h, src, i);
    HexIsClean(l, src, i + 6);
  }

  /** What the reader takes is a string of the format if and only if it is clean: UTF-8, no control characters, no raw quotation mark. */
  lemma ReadIsStringIfClean(src: Bytes)
    requires Decoded(src, 0).Some?
    ensures IsString(src) <==> Clean(src, 0)
  {
    hide Decoded, Clean, CharsOk;
    assert src[0..] == src == src[..|src|];
    if Clean(src, 0) {
      var ts := CleanIsWritten(src, 0);
    }
    if IsString(src) {
      var ts :| CharsOk(ts) && WrittenAll(ts) == src;
      WrittenIsClean(ts, src, 0);
    }
  }

  /** And it takes some that are not: a control character, a quotation mark, a byte that is no UTF-8. */
  lemma ReadBeyondFormat(src: Bytes)
    requires src == [1] || src == [QUOTE] || src == [0xFF]
    ensures Decoded(src, 0) == Some(src) && !IsString(src)
  {
    assert TokenAt(src, 0) == Some(Raw(src[0]));
    assert Decoded(src, 1) == Some([]) && [src[0]] + [] == src;
    ReadIsStringIfClean(src);
    assert src[0..] == src;
  }

  /** The reader at a digit escape that is not the first of a pair, and at one that is. */
  lemma HexAlone(h: Bytes, src: Bytes, i: nat)
    requires |h| == 4 && Hex4(h).Some? && Begins(src, i, [BACKSLASH, LETTER_U] + h) && !High(Hex4(h).value)
    ensures i + 6 <= |src|
    ensures var v := Hex4(h).value;
            Decoded(src, i) == if v == 0 || Low(v) then None else Prefixed(Utf8(v), Decoded(src, i + 6))
  {
    var v := Hex4(h).value;
    BeginsSplit(src, i, [BACKSLASH, LETTER_U], h);
    if v != 0 && !Low(v) {
      TokenOne(Unicode(h), src, i);
    } else {
      hide Hex4, Decoded;
      assert src[i] == src[i..i + 2][0] && src[i + 1] == src[i..i + 2][1];
      NoToken(src, i);
    }
  }

  lemma NoToken(src: Bytes, i: nat)
    requires i < |src| && TokenAt(src, i).None?
    ensures Decoded(src, i) == None
  {
  }

  /** A high surrogate with anything else than a low one behind it is refused. */
  lemma HighAlone(h: Bytes, ts: seq<Char>, src: Bytes, i: nat)
    requires |h| == 4 && Hex4(h).Some? && High(Hex4(h).value) && CharsOk(ts)
    requires Begins(src, i, [BACKSLASH, LETTER_U] + h) && Begins(src, i + 6, WrittenAll(ts)) && i + 6 + |WrittenAll(ts)| == |src|
    requires ts != [] && ts[0].Hex? ==> !Low(Hex4(ts[0].h).value)
    ensures Decoded(src, i) == None
  {
    BeginsSplit(src, i, [BACKSLASH, LETTER_U], h);
    assert src[i] == src[i..i + 2][0] && src[i + 1] == src[i..i + 2][1];
    if ts != [] {
      BeginsSplit(src, i + 6, Written(ts[0]), WrittenAll(ts[1..]));
      hide WrittenAll, Decoded, Hex4;
      match ts[0] {
        case Plain(cp) =>
          PlainIsClean(ts[0], src, i + 6);
        case Escape(c) =>
          SimpleIsAscii(c);
          assert src[i + 7] == src[i + 6..i + 8][1];
        case Hex(l) =>
          BeginsSplit(src, i + 6, [BACKSLASH, LETTER_U], l);
          assert src[i + 8..i + 12] == l;
      }
    }
    NoToken(src, i);
  }

  lemma HexPair(h: Bytes, l: Bytes, src: Bytes, i: nat)
    requires |h| == |l| == 4 && Hex4(h).Some? && Hex4(l).Some? && High(Hex4(h).value) && Low(Hex4(l).value)
    requires Begins(src, i, [BACKSLASH, LETTER_U] + h) && Begins(src, i + 6, [BACKSLASH, LETTER_U] + l)
    ensures i + 12 <= |src|
    ensures Decoded(src, i) == Prefixed(Utf8(Combined(Hex4(h).value, Hex4(l).value)), Decoded(src, i + 12))
  {
    var u, t := [BACKSLASH, LETTER_U], Pair(h, l);
    assert Spelled(t) == (u + h) + (u + l);
    hide Hex4, Decoded;
    assert src[i..i + 12] == src[i..i + 6] + src[i + 6..i + 12];
    TokenOne(t, src, i);
  }

  /**
    A string of the format is read exactly when it has no NUL and no lone surrogate, and then
    as the text it stands for, each pair of surrogates the one code point they encode.
   */
  lemma {:induction false} ReadsString(ts: seq<Char>, src: Bytes, i: nat)
    requires CharsOk(ts) && Begins(src, i, WrittenAll(ts)) && i + |WrittenAll(ts)| == |src|
    ensures Decoded(src, i) == if Paired(ts) then Some(Text(ts)) else None
    decreases |ts|, 1
  {
    hide Hex4, Utf8, Simple, Begins, Prefixed, Decoded;
    if ts == [] {
      DecodedEnd(src);
    } else {
      BeginsSplit(src, i, Written(ts[0]), WrittenAll(ts[1..]));
      match ts[0] {
        case Plain(cp) =>
          PlainStep(cp, src, i);
          ReadsString(ts[1..], src, i + |Utf8(cp)|);
          PrefixedIs(Utf8(cp), Decoded(src, i + |Utf8(cp)|));
        case Escape(c) =>
          EscapeStep(c, src, i);
          ReadsString(ts[1..], src, i + 2);
          PrefixedIs([Simple(c).value], Decoded(src, i + 2));
        case Hex(h) =>
          ReadsHex(ts, src, i);
      }
    }
  }

  lemma DecodedEnd(src: Bytes)
    ensures Decoded(src, |src|) == Some([])
  {
  }

  lemma PrefixedIs(o: Bytes, r: Option<Bytes>)
    ensures Prefixed(o, r) == if r.None? then None else Some(o + r.value)
  {
  }

  lemma PlainStep(cp: nat, src: Bytes, i: nat)
    requires CharOk(Plain(cp)) && Begins(src, i, Utf8(cp))
    ensures i + |Utf8(cp)| <= |src| && Decoded(src, i) == Prefixed(Utf8(cp), Decoded(src, i + |Utf8(cp)|))
  {
    hide Decoded, Prefixed;
    PlainIsClean(Plain(cp), src, i);
    RawSkip(src, i, |Utf8(cp)|);
  }

  lemma EscapeStep(c: Byte, src: Bytes, i: nat)
    requires Simple(c).Some? && Begins(src, i, [BACKSLASH, c])
    ensures i + 2 <= |src| && Decoded(src, i) == Prefixed([Simple(c).value], Decoded(src, i + 2))
  {
    hide Decoded, Prefixed, Simple;
    TokenOne(Letter(c), src, i);
  }

  lemma ReadsHex(ts: seq<Char>, src: Bytes, i: nat)
    requires CharsOk(ts) && Begins(src, i, WrittenAll(ts)) && i + |WrittenAll(ts)| == |src|
    requires ts != [] && ts[0].Hex?
    ensures Decoded(src, i) == if Paired(ts) then Some(Text(ts)) else None
    decreases |ts|, 0
  {
    var h := ts[0].h;
    BeginsSplit(src, i, Written(ts[0]), WrittenAll(ts[1..]));
    hide Decoded, Hex4, Utf8, Begins;
    if !High(Hex4(h).value) {
      HexAlone(h, src, i);
      ReadsString(ts[1..], src, i + 6);
    } else if |ts| >= 2 && ts[1].Hex? && Low(Hex4(ts[1].h).value) {
      BeginsSplit(src, i + 6, Written(ts[1]), WrittenAll(ts[1..][1..]));
      assert ts[1..][1..] == ts[2..];
      HexPair(h, ts[1].h, src, i);
      ReadsString(ts[2..], src, i + 12);
    } else {
      HighAlone(h, ts[1..], src, i);
    }
  }
}
