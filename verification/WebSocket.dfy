/**
  WebSocket framing, sections 5.2 and 5.3 of RFC 6455: a client's frames taken
  off a byte stream that arrives in pieces of any size.
 */
module WebSockets {
  import opened Basics
  import FrameBufs

  /** Exclusive or of the low `bits` bits. */
  function XorBits(a: nat, b: nat, bits: nat): (r: nat) {
    if bits == 0 then 0 else (if a % 2 != b % 2 then 1 else 0) + 2 * XorBits(a / 2, b / 2, bits - 1)
  }

  lemma {:induction false} XorBound(a: nat, b: nat, bits: nat, bound: nat)
    requires bound == Pow2(bits)
    ensures XorBits(a, b, bits) < bound
  {
    if bits > 0 {
      XorBound(a / 2, b / 2, bits - 1, Pow2(bits - 1));
    }
  }

  function Pow2(n: nat): nat {
    if n == 0 then 1 else 2 * Pow2(n - 1)
  }

  lemma {:induction false} XorBitsTwice(a: nat, b: nat, bits: nat)
    requires a < Pow2(bits)
    ensures XorBits(XorBits(a, b, bits), b, bits) == a
  {
    if bits > 0 {
      XorBitsTwice(a / 2, b / 2, bits - 1);
    }
  }

  function Xor(a: Byte, b: Byte): (r: Byte) {
    assert Pow2(4) == 16;
    XorBound(a, b, 8, 256);
    XorBits(a, b, 8)
  }

  lemma XorTwice(a: Byte, b: Byte)
    ensures Xor(Xor(a, b), b) == a
  {
    assert Pow2(4) == 16;
    XorBitsTwice(a, b, 8);
  }

  /** Masking and unmasking are the same: each byte with the mask byte whose turn it is. */
  function Masked(mask: Bytes, payload: Bytes): (r: Bytes)
    requires |mask| == 4
    ensures |r| == |payload| && forall i :: 0 <= i < |payload| ==> r[i] == Xor(payload[i], mask[i % 4])
  {
    seq(|payload|, i requires 0 <= i < |payload| => Xor(payload[i], mask[i % 4]))
  }

  lemma MaskedTwice(mask: Bytes, payload: Bytes)
    requires |mask| == 4
    ensures Masked(mask, Masked(mask, payload)) == payload
  {
    forall i | 0 <= i < |payload| ensures Masked(mask, Masked(mask, payload))[i] == payload[i] {
      XorTwice(payload[i], mask[i % 4]);
    }
  }

  datatype Verdict = Refuse | More | Frame(opcode: nat, fin: bool, maskOff: nat, payloadOff: nat, len: nat, whole: nat)

  /** What the bytes at the front of `buf` are. */
  function Parsed(buf: Bytes, maxLen: nat): (v: Verdict)
    ensures v.Frame? ==>
              && v.maskOff + 4 == v.payloadOff && v.payloadOff + v.len == v.whole <= |buf|
              && 2 <= v.maskOff <= 10 && v.len <= maxLen
    ensures v.More? ==> |buf| < 14 + maxLen
  {
    if |buf| < 2 then More
    else if buf[0] / 16 % 8 != 0 || buf[1] < 128 then Refuse
    else
      var short := buf[1] % 128;
      var hdr := if short == 126 then 4 else if short == 127 then 10 else 2;
      if |buf| < hdr then More
      else
        var len := if short >= 126 then BigEndian(buf[2..hdr]) else short;
        if len > maxLen then Refuse
        else if |buf| < hdr + 4 + len then More
        else Frame(buf[0] % 16, buf[0] >= 128, hdr, hdr + 4, len, hdr + 4 + len)
  }

  /** The parser, which reads the length byte by byte. */
  method Parse(buf: Bytes, maxLen: nat) returns (v: Verdict)
    ensures v == Parsed(buf, maxLen)
  {
    if |buf| < 2 {
      return More;
    }
    var b0, b1 := buf[0], buf[1];
    if b0 / 16 % 8 != 0 {
      return Refuse;
    }
    if b1 < 128 {
      return Refuse;
    }
    var len: nat := b1 % 128;
    var hdr := 2;
    if len == 126 {
      if |buf| < 4 {
        return More;
      }
      len := (buf[2] as nat) * 256 + buf[3];
      hdr := 4;
      assert buf[2..4][..1] == [buf[2]] && BigEndian([buf[2]]) == buf[2];
    } else if len == 127 {
      if |buf| < 10 {
        return More;
      }
      len := 0;
      for i := 0 to 8
        invariant len == BigEndian(buf[2..2 + i])
      {
        assert buf[2..3 + i][..i] == buf[2..2 + i];
        len := len * 256 + buf[2 + i];
      }
      hdr := 10;
    }
    if len > maxLen {
      return Refuse;
    }
    var whole := hdr + 4 + len;
    if |buf| < whole {
      return More;
    }
    return Frame(b0 % 16, b0 >= 128, hdr, hdr + 4, len, whole);
  }

  // ----- the parser against the format

  /** A client's frame; `form` is which of the three length fields carries its length. */
  datatype ClientFrame = ClientFrame(fin: bool, opcode: nat, mask: Bytes, payload: Bytes, form: LengthForm)
  datatype LengthForm = Seven | Sixteen | SixtyFour

  predicate Valid(f: ClientFrame) {
    && f.opcode < 16 && |f.mask| == 4
    && match f.form
       case Seven => |f.payload| < 126
       case Sixteen => |f.payload| < 0x1_0000
       case SixtyFour => |f.payload| < 0x1_0000_0000_0000_0000
  }

  function LengthField(f: ClientFrame): (b: Bytes)
    requires Valid(f)
  {
    match f.form
    case Seven => [128 + |f.payload|]
    case Sixteen => [128 + 126] + Digits(|f.payload|, 2)
    case SixtyFour => [128 + 127] + Digits(|f.payload|, 8)
  }

  /** A frame on the wire. */
  function Encode(f: ClientFrame): (b: Bytes)
    requires Valid(f)
  {
    [(if f.fin then 128 else 0) + f.opcode] + LengthField(f) + f.mask + Masked(f.mask, f.payload)
  }

  function HeaderLength(form: LengthForm): (n: nat) {
    match form case Seven => 2 case Sixteen => 4 case SixtyFour => 10
  }

  /** The four parts of a frame, found again at the front of whatever they begin. */
  lemma Parts(a: Bytes, b: Bytes, c: Bytes, d: Bytes, buf: Bytes)
    requires a + b + c + d <= buf
    ensures var (i, j, k, l) := (|a|, |a| + |b|, |a| + |b| + |c|, |a| + |b| + |c| + |d|);
            l <= |buf| && buf[..i] == a && buf[i..j] == b && buf[j..k] == c && buf[k..l] == d
  {
    var e := a + b + c + d;
    assert e == buf[..|e|];
    assert e[..|a|] == a && e[|a|..|a| + |b|] == b && e[|a| + |b|..|a| + |b| + |c|] == c && e[|a| + |b| + |c|..] == d;
  }

  lemma LengthFieldReads(f: ClientFrame)
    requires Valid(f)
    ensures var b := LengthField(f);
            && 1 + |b| == HeaderLength(f.form) && b[0] >= 128
            && b[0] % 128 == (match f.form case Seven => |f.payload| case Sixteen => 126 case SixtyFour => 127)
            && (f.form != Seven ==> BigEndian(b[1..]) == |f.payload|)
  {
    Pow256Values();
    if f.form == Sixteen {
      DigitsBack(|f.payload|, 2);
    } else if f.form == SixtyFour {
      DigitsBack(|f.payload|, 8);
    }
  }

  /** What a frame's first bytes are, whatever follows them. */
  lemma EncodeHeader(f: ClientFrame, buf: Bytes)
    requires Valid(f) && Encode(f) <= buf
    ensures var hdr := HeaderLength(f.form);
            && |Encode(f)| == hdr + 4 + |f.payload| <= |buf| && buf[0] / 16 % 8 == 0 && buf[0] % 16 == f.opcode
            && (buf[0] >= 128 <==> f.fin) && buf[1] >= 128
            && buf[1] % 128 == (match f.form case Seven => |f.payload| case Sixteen => 126 case SixtyFour => 127)
            && (f.form != Seven ==> BigEndian(buf[2..hdr]) == |f.payload|)
            && buf[hdr..hdr + 4] == f.mask && buf[hdr + 4..hdr + 4 + |f.payload|] == Masked(f.mask, f.payload)
  {
    hide LengthField, Xor, BigEndian;
    var first := [(if f.fin then 128 else 0) + f.opcode];
    var field := LengthField(f);
    Parts(first, field, f.mask, Masked(f.mask, f.payload), buf);
    LengthFieldReads(f);
    assert buf[0] == buf[..1][0] && buf[1] == buf[1..1 + |field|][0];
    assert buf[2..1 + |field|] == buf[1..1 + |field|][1..];
  }

  /** Every frame within the limit is recognised, whatever follows it, and its payload comes out unmasked. */
  lemma ParseEncode(f: ClientFrame, rest: Bytes, maxLen: nat)
    requires Valid(f) && |f.payload| <= maxLen
    ensures var buf := Encode(f) + rest; var v := Parsed(buf, maxLen);
            && v.Frame? && v.opcode == f.opcode && v.fin == f.fin && v.whole == |Encode(f)|
            && Masked(buf[v.maskOff..v.payloadOff], buf[v.payloadOff..v.whole]) == f.payload
  {
    EncodeHeader(f, Encode(f) + rest);
    MaskedTwice(f.mask, f.payload);
  }

  /** The frame a recognised stretch of bytes is. */
  function Decoded(buf: Bytes, v: Verdict): (f: ClientFrame)
    requires v.Frame? && v.maskOff + 4 == v.payloadOff && v.payloadOff + v.len == v.whole <= |buf|
  {
    ClientFrame(v.fin, v.opcode, buf[v.maskOff..v.payloadOff],
                Masked(buf[v.maskOff..v.payloadOff], buf[v.payloadOff..v.whole]),
                if v.maskOff == 2 then Seven else if v.maskOff == 4 then Sixteen else SixtyFour)
  }

  /** And nothing is recognised that is not a frame. */
  lemma ParseIsEncode(buf: Bytes, maxLen: nat)
    requires Parsed(buf, maxLen).Frame?
    ensures var v := Parsed(buf, maxLen); Valid(Decoded(buf, v)) && buf[..v.whole] == Encode(Decoded(buf, v))
  {
    var v := Parsed(buf, maxLen);
    var f := Decoded(buf, v);
    MaskedTwice(f.mask, buf[v.payloadOff..v.whole]);
    hide Xor;
    LengthIsField(buf, maxLen);
    assert buf[..v.whole] == [buf[0]] + buf[1..v.maskOff] + buf[v.maskOff..v.payloadOff] + buf[v.payloadOff..v.whole];
  }

  lemma LengthIsField(buf: Bytes, maxLen: nat)
    requires Parsed(buf, maxLen).Frame?
    ensures var v := Parsed(buf, maxLen); Valid(Decoded(buf, v)) && LengthField(Decoded(buf, v)) == buf[1..v.maskOff]
  {
    var v := Parsed(buf, maxLen);
    Pow256Values();
    hide Xor, Pow256;
    if v.maskOff > 2 {
      BigEndianDigits(buf[2..v.maskOff]);
      assert buf[1..v.maskOff] == [buf[1]] + buf[2..v.maskOff];
    }
  }

  // ----- the frames section 5.2 of RFC 6455 allows

  /** The opcodes that are not reserved: continuation, text, binary, close, ping, pong. */
  predicate Defined(opcode: nat) {
    opcode <= 0x2 || 0x8 <= opcode <= 0xA
  }

  /** The shortest form a length has. */
  function ShortestForm(len: nat): (form: LengthForm) {
    if len < 126 then Seven else if len < 0x1_0000 then Sixteen else SixtyFour
  }

  /** A frame as section 5.2 has it: a defined opcode, the shortest form, a length whose top bit is 0. */
  predicate Strict(f: ClientFrame) {
    Valid(f) && Defined(f.opcode) && f.form == ShortestForm(|f.payload|) && |f.payload| < 0x8000_0000_0000_0000
  }

  ghost predicate IsStrict(buf: Bytes) {
    exists f :: Strict(f) && Encode(f) == buf
  }

  /** A frame is told by its bytes. */
  lemma EncodeTells(f: ClientFrame)
    requires Valid(f)
    ensures var v := Parsed(Encode(f), |f.payload|); v.Frame? && v.whole == |Encode(f)| && Decoded(Encode(f), v) == f
  {
    var e := Encode(f);
    ParseEncode(f, [], |f.payload|);
    EncodeHeader(f, e);
    hide Encode, Masked, BigEndian;
    assert e + [] == e;
  }

  lemma EncodeInjective(f: ClientFrame, g: ClientFrame)
    requires Valid(f) && Valid(g) && Encode(f) == Encode(g)
    ensures f == g
  {
    EncodeTells(f);
    EncodeTells(g);
    EncodeHeader(f, Encode(f));
    EncodeHeader(g, Encode(g));
    hide Encode, Parsed, Decoded, Masked, BigEndian;
  }

  /** What the parser recognises is a frame of section 5.2 if and only if its opcode is defined and its length in the shortest form. */
  lemma RecognisedIsStrict(buf: Bytes, maxLen: nat)
    requires Parsed(buf, maxLen).Frame?
    ensures var v := Parsed(buf, maxLen); var f := Decoded(buf, v);
            IsStrict(buf[..v.whole]) <==>
              Defined(v.opcode) && f.form == ShortestForm(v.len) && v.len < 0x8000_0000_0000_0000
  {
    ParseIsEncode(buf, maxLen);
    var v := Parsed(buf, maxLen);
    var f := Decoded(buf, v);
    hide Encode, Parsed, Masked;
    if IsStrict(buf[..v.whole]) {
      var g :| Strict(g) && Encode(g) == buf[..v.whole];
      EncodeInjective(f, g);
    }
  }

  /** It recognises others too: a length of 1 in the two-byte form, and a reserved opcode. */
  lemma RecognisedBeyond(buf: Bytes)
    requires buf == [0x82, 0xFE, 0, 1, 0, 0, 0, 0, 7] || buf == [0x83, 0x80, 0, 0, 0, 0]
    ensures Parsed(buf, 125).Frame? && Parsed(buf, 125).whole == |buf| && !IsStrict(buf)
  {
    assert buf[1] == 0xFE ==> buf[2..4] == [0, 1] && [0, 1][..1] == [0] && BigEndian([0]) == 0 && BigEndian([0, 1]) == 1 by {
      assert [0 as Byte][..0] == [];
    }
    assert Parsed(buf, 125).Frame?;
    RecognisedIsStrict(buf, 125);
    assert buf[..|buf|] == buf;
  }

  /** A verdict other than "more" stands whatever comes next. */
  lemma ParseStable(buf: Bytes, more: Bytes, maxLen: nat)
    requires !Parsed(buf, maxLen).More?
    ensures Parsed(buf + more, maxLen) == Parsed(buf, maxLen)
  {
    assert |buf| >= 4 ==> (buf + more)[2..4] == buf[2..4];
    assert |buf| >= 10 ==> (buf + more)[2..10] == buf[2..10];
  }

  /** Every strict prefix of a frame asks for more. */
  lemma ParsePrefix(f: ClientFrame, n: nat, maxLen: nat)
    requires Valid(f) && |f.payload| <= maxLen && n < |Encode(f)|
    ensures Parsed(Encode(f)[..n], maxLen).More?
  {
    hide Encode, Parsed;
    var e := Encode(f);
    ParseEncode(f, [], maxLen);
    assert e + [] == e && e[..n] + e[n..] == e;
    if !Parsed(e[..n], maxLen).More? {
      ParseStable(e[..n], e[n..], maxLen);
    }
  }

  // ----- the stream of frames

  /** The largest payload taken: a protocol frame and its header. */
  const MAX_FRAME: nat := FrameBufs.MAX_FRAME_SIZE + 64
  const READ_CHUNK: nat := FrameBufs.READ_CHUNK

  /** What a frame amounts to: payload for the protocol's frame buffer, or a ping to answer. */
  datatype Item = Data(bytes: Bytes) | Ping(bytes: Bytes)

  /** What has come out so far, the bytes of a frame still incomplete, and whether the connection is over. */
  datatype Stream = Stream(items: seq<Item>, rest: Bytes, over: bool)

  /** The payload of a recognised frame. */
  function Payload(buf: Bytes, v: Verdict): (p: Bytes)
    requires v.Frame? && v.maskOff + 4 == v.payloadOff && v.payloadOff + v.len == v.whole <= |buf|
  {
    Masked(buf[v.maskOff..v.payloadOff], buf[v.payloadOff..v.whole])
  }

  /**
    All the frames of `buf`, after `items`. `takes` tells whether the frame
    buffer, having been handed what it has, accepts the last of it.
   */
  function Deframed(items: seq<Item>, buf: Bytes, takes: seq<Item> -> bool): (r: Stream)
    ensures !r.over ==> Parsed(r.rest, MAX_FRAME).More?
    decreases |buf|
  {
    var v := Parsed(buf, MAX_FRAME);
    match v
    case More => Stream(items, buf, false)
    case Refuse => Stream(items, buf, true)
    case Frame(op, _, _, _, _, whole) =>
      if op == 0x2 || op == 0x0 then
        var more := items + [Data(Payload(buf, v))];
        if takes(more) then Deframed(more, buf[whole..], takes) else Stream(more, buf, true)
      else if op == 0x9 then Deframed(items + [Ping(Payload(buf, v))], buf[whole..], takes)
      else if op == 0xA then Deframed(items, buf[whole..], takes)
      else Stream(items, buf, true)
  }

  /** Taking bytes in two goes comes to the same as taking them in one. */
  lemma {:induction false} DeframedTwice(items: seq<Item>, a: Bytes, b: Bytes, takes: seq<Item> -> bool)
    ensures var r := Deframed(items, a, takes);
            Deframed(items, a + b, takes) == if r.over then Stream(r.items, r.rest + b, true) else Deframed(r.items, r.rest + b, takes)
    decreases |a|
  {
    var v := Parsed(a, MAX_FRAME);
    if !v.More? {
      ParseStable(a, b, MAX_FRAME);
    }
    if v.Frame? {
      assert (a + b)[v.maskOff..v.payloadOff] == a[v.maskOff..v.payloadOff];
      assert (a + b)[v.payloadOff..v.whole] == a[v.payloadOff..v.whole];
      assert (a + b)[v.whole..] == a[v.whole..] + b;
      hide Parsed, Masked;
      var op, p := v.opcode, Payload(a, v);
      var next := if op == 0x2 || op == 0x0 then items + [Data(p)] else if op == 0x9 then items + [Ping(p)] else items;
      DeframedTwice(next, a[v.whole..], b, takes);
    }
  }

  /** Items only ever come out after those already out, none longer than a frame may be. */
  lemma {:induction false} DeframedGrows(items: seq<Item>, buf: Bytes, takes: seq<Item> -> bool)
    ensures var r := Deframed(items, buf, takes).items;
            items <= r && forall i :: |items| <= i < |r| ==> |r[i].bytes| <= MAX_FRAME
    decreases |buf|
  {
    var v := Parsed(buf, MAX_FRAME);
    if v.Frame? {
      hide Parsed, Masked;
      var op, p := v.opcode, Payload(buf, v);
      var next := if op == 0x2 || op == 0x0 then items + [Data(p)] else if op == 0x9 then items + [Ping(p)] else items;
      DeframedGrows(next, buf[v.whole..], takes);
    }
  }

  lemma NothingYet(items: seq<Item>, buf: Bytes, takes: seq<Item> -> bool)
    requires Parsed(buf, MAX_FRAME).More?
    ensures Deframed(items, buf, takes) == Stream(items, buf, false)
  {
  }

  function Concat(chunks: seq<Bytes>): (b: Bytes) {
    if chunks == [] then [] else chunks[0] + Concat(chunks[1..])
  }

  /** Bytes as they arrive; a connection that is over is not read any more. */
  function Fed(s: Stream, chunks: seq<Bytes>, takes: seq<Item> -> bool): (r: Stream)
    decreases |chunks|
  {
    if chunks == [] || s.over then s else Fed(Deframed(s.items, s.rest + chunks[0], takes), chunks[1..], takes)
  }

  /** However the bytes are cut into reads, the same items come out, and the connection ends, or not, at the same one. */
  lemma {:induction false} ChunkingDoesNotMatter(s: Stream, chunks: seq<Bytes>, takes: seq<Item> -> bool)
    requires !s.over && Parsed(s.rest, MAX_FRAME).More?
    ensures var r := Fed(s, chunks, takes); var whole := Deframed(s.items, s.rest + Concat(chunks), takes);
            r.items == whole.items && r.over == whole.over && (!r.over ==> r.rest == whole.rest)
    decreases |chunks|
  {
    hide Parsed, Deframed;
    if chunks == [] {
      assert s.rest + [] == s.rest;
      NothingYet(s.items, s.rest, takes);
    } else {
      var t := Deframed(s.items, s.rest + chunks[0], takes);
      DeframedTwice(s.items, s.rest + chunks[0], Concat(chunks[1..]), takes);
      assert s.rest + Concat(chunks) == s.rest + chunks[0] + Concat(chunks[1..]);
      if !t.over {
        ChunkingDoesNotMatter(t, chunks[1..], takes);
      }
    }
  }

  ghost predicate Spoken(f: ClientFrame) {
    Valid(f) && |f.payload| <= MAX_FRAME && (f.opcode == 0x0 || f.opcode == 0x2 || f.opcode == 0x9 || f.opcode == 0xA)
  }

  ghost predicate AllSpoken(fs: seq<ClientFrame>) {
    forall i :: 0 <= i < |fs| ==> Spoken(fs[i])
  }

  ghost function EncodeAll(fs: seq<ClientFrame>): (b: Bytes)
    requires AllSpoken(fs)
  {
    if fs == [] then [] else Encode(fs[0]) + EncodeAll(fs[1..])
  }

  function ItemsOf(fs: seq<ClientFrame>): (r: seq<Item>) {
    if fs == [] then []
    else ItemOf(fs[0]) + ItemsOf(fs[1..])
  }

  function ItemOf(f: ClientFrame): (r: seq<Item>) {
    if f.opcode == 0x9 then [Ping(f.payload)] else if f.opcode == 0xA then [] else [Data(f.payload)]
  }

  /** The frame buffer takes what frame `f` hands it, if it hands it anything. */
  predicate TakesFrame(items: seq<Item>, f: ClientFrame, takes: seq<Item> -> bool) {
    f.opcode == 0x9 || f.opcode == 0xA || takes(items + [Data(f.payload)])
  }

  /** It takes all that these frames hand it, one after another. */
  predicate TakesAll(items: seq<Item>, fs: seq<ClientFrame>, takes: seq<Item> -> bool)
    decreases |fs|
  {
    fs == [] || (TakesFrame(items, fs[0], takes) && TakesAll(items + ItemOf(fs[0]), fs[1..], takes))
  }

  lemma FirstFrame(items: seq<Item>, f: ClientFrame, rest: Bytes, takes: seq<Item> -> bool)
    requires Spoken(f)
    ensures TakesFrame(items, f, takes) ==> Deframed(items, Encode(f) + rest, takes) == Deframed(items + ItemOf(f), rest, takes)
    ensures !TakesFrame(items, f, takes) ==>
              Deframed(items, Encode(f) + rest, takes).over && Deframed(items, Encode(f) + rest, takes).items == items + ItemOf(f)
  {
    var buf := Encode(f) + rest;
    ParseEncode(f, rest, MAX_FRAME);
    hide Parsed, Encode, Masked;
    assert buf[Parsed(buf, MAX_FRAME).whole..] == rest;
    assert items + [] == items;
  }

  /**
    Frames a browser sends come out as it sent them, payload by payload, if and only if the
    frame buffer takes each payload; the first it does not take ends the connection.
   */
  lemma {:induction false} FramesComeOut(items: seq<Item>, fs: seq<ClientFrame>, takes: seq<Item> -> bool)
    requires AllSpoken(fs)
    ensures TakesAll(items, fs, takes) ==> Deframed(items, EncodeAll(fs), takes) == Stream(items + ItemsOf(fs), [], false)
    ensures !TakesAll(items, fs, takes) ==>
              Deframed(items, EncodeAll(fs), takes).over && Deframed(items, EncodeAll(fs), takes).items <= items + ItemsOf(fs)
    decreases |fs|
  {
    hide Deframed, Encode, TakesFrame, Spoken, ItemOf;
    if fs == [] {
      NothingYet(items, [], takes);
      assert items + [] == items;
    } else {
      FirstFrame(items, fs[0], EncodeAll(fs[1..]), takes);
      FramesComeOut(items + ItemOf(fs[0]), fs[1..], takes);
      ItemsRegroup(items, ItemOf(fs[0]), ItemsOf(fs[1..]));
    }
  }

  lemma ItemsRegroup(a: seq<Item>, b: seq<Item>, c: seq<Item>)
    ensures a + b + c == a + (b + c) && a + b <= a + (b + c)
  {
  }

  /** The sizes the gathering buffer grows through. */
  predicate GrownTo(cap: nat) {
    cap == 4096 || cap == 8192 || cap == 16384 || cap == 32768 || cap == 65536 || cap == 131072
  }

  /** A browser's side of a connection: the gathering buffer and what it has yielded. */
  class Receiver {
    var win: Bytes
    var cap: nat
    var over: bool
    var items: seq<Item>

    ghost predicate Ready()
      reads this
    {
      !over && Parsed(win, MAX_FRAME).More? && (cap == 0 || GrownTo(cap))
    }

    constructor ()
      ensures Ready() && win == [] && items == []
    {
      win, cap, over, items := [], 0, false, [];
    }

    /** Room for `n` more bytes; the limit on growth is never reached by what a read can bring. */
    method Grow(n: nat)
      requires Ready() && n <= READ_CHUNK
      modifies this`cap
      ensures GrownTo(cap) && |win| + n <= cap <= 2 * MAX_FRAME
    {
      if |win| + n > cap || cap == 0 {
        var nc := if cap != 0 then cap else 4096;
        while nc < |win| + n
          invariant GrownTo(nc)
          decreases 131072 - nc
        {
          nc := nc * 2;
        }
        cap := nc;
      }
    }

    /** The next frame's payload, unmasked where it lies. */
    method Unmask(v: Verdict) returns (payload: Bytes)
      requires v.Frame? && v.maskOff + 4 == v.payloadOff && v.payloadOff + v.len == v.whole <= |win|
      modifies this`win
      ensures payload == Payload(old(win), v) && |win| == old(|win|) && win[v.whole..] == old(win)[v.whole..]
    {
      ghost var was := win;
      for i := 0 to v.len
        invariant |win| == |was| && win[..v.payloadOff] == was[..v.payloadOff] && win[v.whole..] == was[v.whole..]
        invariant forall j :: 0 <= j < i ==> win[v.payloadOff + j] == Xor(was[v.payloadOff + j], was[v.maskOff + j % 4])
        invariant forall j :: v.payloadOff + i <= j < |win| ==> win[j] == was[j]
      {
        hide Xor;
        assert win[v.maskOff + i % 4] == win[..v.payloadOff][v.maskOff + i % 4];
        win := win[v.payloadOff + i := Xor(win[v.payloadOff + i], win[v.maskOff + i % 4])];
      }
      payload := win[v.payloadOff..v.whole];
    }

    /** One read's worth of bytes. */
    method Receive(chunk: Bytes, takes: seq<Item> -> bool)
      requires Ready() && |chunk| <= READ_CHUNK
      modifies this
      ensures var r := Deframed(old(items), old(win) + chunk, takes);
              items == r.items && over == r.over && (!over ==> win == r.rest && Ready())
    {
      Grow(|chunk|);
      win := win + chunk;
      ghost var whole := Deframed(items, win, takes);
      while true
        invariant !over && GrownTo(cap) && Deframed(items, win, takes) == whole
        decreases |win|
      {
        hide Masked;
        var v := Parse(win, MAX_FRAME);
        if v == More {
          return;
        }
        if v == Refuse {
          over := true;
          return;
        }
        var op := v.opcode;
        var payload := Unmask(v);
        if op == 0x2 || op == 0x0 {
          items := items + [Data(payload)];
          if !takes(items) {
            over := true;
            return;
          }
        } else if op == 0x9 {
          items := items + [Ping(payload)];
        } else if op != 0xA {
          over := true;
          return;
        }
        win := win[v.whole..];
      }
    }
  }
}
