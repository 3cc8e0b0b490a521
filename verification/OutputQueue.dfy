/**
  A connection's output: chunks written in order, as far as the socket takes
  them, some bytes of each the transport's own; and a server's WebSocket frames
  as the peer reads them back.
 */
module OutputQueue {
  import opened Basics

  /** Bytes to write, the first `skip` of them the transport's own. */
  datatype Chunk = Chunk(data: Bytes, skip: nat)

  ghost predicate ChunkOk(c: Chunk) {
    c.skip <= |c.data|
  }

  ghost predicate ChunksOk(cs: seq<Chunk>) {
    forall i :: 0 <= i < |cs| ==> ChunkOk(cs[i])
  }

  /** All the bytes of the chunks, in order. */
  function Cat(cs: seq<Chunk>): (b: Bytes) {
    if cs == [] then [] else Cat(cs[..|cs| - 1]) + cs[|cs| - 1].data
  }

  /** How many of the first `n` bytes of a chunk are not the transport's own. */
  function Own(c: Chunk, n: nat): (r: nat) {
    if n > c.skip then n - c.skip else 0
  }

  function OwnAll(cs: seq<Chunk>): (r: nat) {
    if cs == [] then 0 else OwnAll(cs[..|cs| - 1]) + Own(cs[|cs| - 1], |cs[|cs| - 1].data|)
  }

  /** How many of the first `n` bytes of all the chunks together are not the transport's own. */
  ghost function OwnOf(cs: seq<Chunk>, n: nat): (r: nat) {
    if cs == [] then 0
    else if n >= |cs[0].data| then Own(cs[0], |cs[0].data|) + OwnOf(cs[1..], n - |cs[0].data|)
    else Own(cs[0], n)
  }

  lemma CatPush(cs: seq<Chunk>, c: Chunk)
    ensures Cat(cs + [c]) == Cat(cs) + c.data && OwnAll(cs + [c]) == OwnAll(cs) + Own(c, |c.data|)
  {
    assert (cs + [c])[..|cs|] == cs;
  }

  lemma {:induction false} CatConcat(a: seq<Chunk>, b: seq<Chunk>)
    ensures Cat(a + b) == Cat(a) + Cat(b) && OwnAll(a + b) == OwnAll(a) + OwnAll(b)
    decreases |b|
  {
    hide Cat, OwnAll;
    if b == [] {
      CatNone();
      assert a + b == a && Cat(a) + [] == Cat(a);
    } else {
      var b', c := b[..|b| - 1], b[|b| - 1];
      assert b == b' + [c];
      CatConcat(a, b');
      CatPush(b', c);
      CatPush(a + b', c);
      Regroup(a, b', [c]);
      Regroup(Cat(a), Cat(b'), c.data);
    }
  }

  lemma Regroup<T>(a: seq<T>, b: seq<T>, c: seq<T>)
    ensures (a + b) + c == a + (b + c)
  {
  }

  lemma CatNone()
    ensures Cat([]) == [] && OwnAll([]) == 0
  {
  }

  lemma CatOne(c: Chunk)
    ensures Cat([c]) == c.data && OwnAll([c]) == Own(c, |c.data|)
  {
    assert [c][..0] == [];
    assert Cat([]) + c.data == c.data;
  }

  /** Chunks written whole, then the first `n` bytes of one more. */
  lemma {:induction false} OwnOfPopped(popped: seq<Chunk>, c: Chunk, rest: seq<Chunk>, n: nat)
    requires n < |c.data| || (n == |c.data| && OwnOf(rest, 0) == 0)
    ensures OwnOf(popped + [c] + rest, |Cat(popped)| + n) == OwnAll(popped) + Own(c, n)
    decreases |popped|
  {
    if popped == [] {
      assert popped + [c] + rest == [c] + rest;
      assert ([c] + rest)[1..] == rest;
    } else {
      var p, q := popped[0], popped[1..];
      CatOne(p);
      CatConcat([p], q);
      assert [p] + q == popped;
      assert popped + [c] + rest == [p] + (q + [c] + rest);
      assert ([p] + (q + [c] + rest))[1..] == q + [c] + rest;
      OwnOfPopped(q, c, rest, n);
    }
  }

  lemma {:induction false} OwnOfNone(cs: seq<Chunk>)
    ensures OwnOf(cs, 0) == 0
  {
    if cs != [] {
      OwnOfNone(cs[1..]);
    }
  }

  lemma OwnOfWhole(cs: seq<Chunk>)
    ensures OwnOf(cs, |Cat(cs)|) == OwnAll(cs)
  {
    if cs != [] {
      var init, c := cs[..|cs| - 1], cs[|cs| - 1];
      OwnOfNone([]);
      OwnOfPopped(init, c, [], |c.data|);
      assert init + [c] + [] == cs;
    }
  }

  // ----- a server's frames

  /** An unmasked frame, whole. */
  datatype ServerFrame = ServerFrame(opcode: nat, payload: Bytes)

  /** The header for a payload of `len` bytes: 2, 4 or 10 bytes. */
  function WsHeader(opcode: nat, len: nat): (h: Bytes)
    requires opcode < 16
    ensures |h| == 2 || |h| == 4 || |h| == 10
  {
    [128 + opcode] + if len < 126 then [len] else if len < 65536 then [126] + Digits(len, 2) else [127] + Digits(len, 8)
  }

  function WsFrame(f: ServerFrame): (b: Bytes)
    requires f.opcode < 16
  {
    WsHeader(f.opcode, |f.payload|) + f.payload
  }

  ghost predicate FramesOk(fs: seq<ServerFrame>) {
    forall i :: 0 <= i < |fs| ==> fs[i].opcode < 16 && |fs[i].payload| < 0x1_0000_0000_0000_0000
  }

  ghost function Wire(fs: seq<ServerFrame>): (b: Bytes)
    requires FramesOk(fs)
  {
    if fs == [] then [] else Wire(fs[..|fs| - 1]) + WsFrame(fs[|fs| - 1])
  }

  /** The frame at the front of what a client receives, if it is all there. */
  function FirstServerFrame(buf: Bytes): (r: Option<(ServerFrame, nat)>)
    ensures r.Some? ==> 2 <= r.value.1 <= |buf|
  {
    if |buf| < 2 || buf[1] >= 128 then None
    else
      var hdr := if buf[1] == 126 then 4 else if buf[1] == 127 then 10 else 2;
      if |buf| < hdr then None
      else
        var len := if hdr == 2 then buf[1] as nat else BigEndian(buf[2..hdr]);
        if |buf| < hdr + len then None else Some((ServerFrame(buf[0] % 16, buf[hdr..hdr + len]), hdr + len))
  }

  function ServerFrames(buf: Bytes): (fs: seq<ServerFrame>)
    decreases |buf|
  {
    var r := FirstServerFrame(buf);
    if r.None? then [] else [r.value.0] + ServerFrames(buf[r.value.1..])
  }

  lemma HeaderReads(opcode: nat, len: nat)
    requires opcode < 16 && len < 0x1_0000_0000_0000_0000
    ensures var h := WsHeader(opcode, len);
            && h[0] % 16 == opcode && h[1] < 128
            && |h| == (if h[1] == 126 then 4 else if h[1] == 127 then 10 else 2)
            && len == if |h| == 2 then h[1] as nat else BigEndian(h[2..])
  {
    Pow256Values();
    if 126 <= len < 65536 {
      DigitsBack(len, 2);
      assert WsHeader(opcode, len)[2..] == Digits(len, 2);
    } else if len >= 65536 {
      DigitsBack(len, 8);
      assert WsHeader(opcode, len)[2..] == Digits(len, 8);
    }
  }

  lemma FirstIsFirst(f: ServerFrame, rest: Bytes)
    requires f.opcode < 16 && |f.payload| < 0x1_0000_0000_0000_0000
    ensures FirstServerFrame(WsFrame(f) + rest) == Some((f, |WsFrame(f)|))
  {
    var h := WsHeader(f.opcode, |f.payload|);
    HeaderReads(f.opcode, |f.payload|);
    hide WsHeader, BigEndian;
    var buf := WsFrame(f) + rest;
    assert buf[0] == h[0] && buf[1] == h[1] && buf[2..|h|] == h[2..];
    assert buf[|h|..|h| + |f.payload|] == f.payload;
  }

  /** Part of a frame is no frame. */
  lemma PartIsNone(f: ServerFrame, n: nat)
    requires f.opcode < 16 && |f.payload| < 0x1_0000_0000_0000_0000 && n < |WsFrame(f)|
    ensures FirstServerFrame(WsFrame(f)[..n]).None?
  {
    var h := WsHeader(f.opcode, |f.payload|);
    HeaderReads(f.opcode, |f.payload|);
    hide WsHeader, BigEndian;
    var buf := WsFrame(f)[..n];
    if n >= 2 {
      assert buf[1] == h[1];
      if n >= |h| {
        assert buf[2..|h|] == h[2..];
      }
    }
  }

  lemma {:induction false} WireFront(fs: seq<ServerFrame>)
    requires FramesOk(fs) && fs != []
    ensures FramesOk(fs[1..]) && Wire(fs) == WsFrame(fs[0]) + Wire(fs[1..])
  {
    if |fs| == 1 {
      assert fs[..0] == [] && fs[1..] == [];
      assert Wire([]) + WsFrame(fs[0]) == WsFrame(fs[0]) == WsFrame(fs[0]) + [];
    } else {
      var init := fs[..|fs| - 1];
      WireFront(init);
      assert init[1..] == fs[1..][..|fs| - 2];
      assert WsFrame(fs[0]) + Wire(init[1..]) + WsFrame(fs[|fs| - 1]) == WsFrame(fs[0]) + (Wire(init[1..]) + WsFrame(fs[|fs| - 1]));
    }
  }

  lemma FramesAfter(f: ServerFrame, rest: Bytes)
    requires f.opcode < 16 && |f.payload| < 0x1_0000_0000_0000_0000
    ensures ServerFrames(WsFrame(f) + rest) == [f] + ServerFrames(rest)
  {
    hide WsFrame, FirstServerFrame;
    FirstIsFirst(f, rest);
    assert (WsFrame(f) + rest)[|WsFrame(f)|..] == rest;
  }

  lemma FrontPrefix(s: seq<ServerFrame>, fs: seq<ServerFrame>)
    requires fs != [] && s <= fs[1..]
    ensures [fs[0]] + s <= fs && (s == fs[1..] ==> [fs[0]] + s == fs)
  {
    assert fs == [fs[0]] + fs[1..];
  }

  /** Of whatever part of the frames has been written, the peer reads the frames that are whole, in order, as they were sent. */
  lemma {:induction false} PeerReadsFrames(fs: seq<ServerFrame>, n: nat)
    requires FramesOk(fs) && n <= |Wire(fs)|
    ensures ServerFrames(Wire(fs)[..n]) <= fs
    ensures n == |Wire(fs)| ==> ServerFrames(Wire(fs)[..n]) == fs
    decreases |fs|
  {
    hide WsFrame, Wire, FramesOk, ServerFrames, FirstServerFrame;
    if fs == [] {
      NoFrames(Wire(fs), fs);
    } else {
      WireFront(fs);
      FirstOk(fs);
      var f, rest := fs[0], Wire(fs[1..]);
      var k := |WsFrame(f)|;
      TakeConcat(WsFrame(f), rest, n);
      if n >= k {
        PeerReadsFrames(fs[1..], n - k);
        FramesAfter(f, rest[..n - k]);
        FrontPrefix(ServerFrames(rest[..n - k]), fs);
      } else {
        PartIsNoFrame(f, n);
      }
    }
  }

  lemma TakeConcat(a: Bytes, b: Bytes, n: nat)
    requires n <= |a| + |b|
    ensures (a + b)[..n] == if n >= |a| then a + b[..n - |a|] else a[..n]
  {
  }

  lemma FirstOk(fs: seq<ServerFrame>)
    requires FramesOk(fs) && fs != []
    ensures fs[0].opcode < 16 && |fs[0].payload| < 0x1_0000_0000_0000_0000
  {
  }

  lemma NoFrames(wire: Bytes, fs: seq<ServerFrame>)
    requires FramesOk(fs) && fs == [] && wire == Wire(fs)
    ensures wire == [] && ServerFrames([]) == []
  {
  }

  lemma PartIsNoFrame(f: ServerFrame, n: nat)
    requires f.opcode < 16 && |f.payload| < 0x1_0000_0000_0000_0000 && n < |WsFrame(f)|
    ensures ServerFrames(WsFrame(f)[..n]) == []
  {
    hide WsFrame, FirstServerFrame;
    PartIsNone(f, n);
  }
}
