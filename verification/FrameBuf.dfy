/**
  The reassembler of protocol frames out of a byte stream: four bytes of length, then
  that many more, within the protocol's limits.
 */
module FrameBufs {
  import opened Basics

  const MAX_FRAME_SIZE: nat := 66560
  const READ_CHUNK: nat := 16384
  const HEADER_SIZE: nat := 8
  const LENGTH_MIN: nat := 4
  const CAP: nat := MAX_FRAME_SIZE + READ_CHUNK

  // ----- the format

  /** A whole frame: its length field tells its size, which is within the limits. */
  predicate IsFrame(f: Bytes) {
    HEADER_SIZE <= |f| <= MAX_FRAME_SIZE && BigEndian(f[..4]) + 4 == |f|
  }

  ghost predicate AllFrames(fs: seq<Bytes>) {
    forall i :: 0 <= i < |fs| ==> IsFrame(fs[i])
  }

  function Joined(fs: seq<Bytes>): (b: Bytes) {
    if fs == [] then [] else fs[0] + Joined(fs[1..])
  }

  // ----- the reader

  datatype Next = More | Bad | Frame(size: nat)

  /** What is at the front of the bytes not yet yielded. */
  function NextOf(b: Bytes): (n: Next)
    ensures n.Frame? ==> HEADER_SIZE <= n.size <= |b| && IsFrame(b[..n.size])
    ensures n.More? ==> |b| < MAX_FRAME_SIZE
  {
    if |b| < HEADER_SIZE then More
    else
      var total := BigEndian(b[..4]) + 4;
      if total < LENGTH_MIN + 4 || total > MAX_FRAME_SIZE then Bad
      else if |b| < total then More
      else
        assert b[..total][..4] == b[..4];
        Frame(total)
  }

  /** The frames yielded, the bytes left over, and whether they can be no frame. */
  datatype Yield = Yield(frames: seq<Bytes>, rest: Bytes, bad: bool)

  function Frames(b: Bytes): (y: Yield)
    ensures !y.bad ==> NextOf(y.rest).More?
    decreases |b|
  {
    match NextOf(b)
    case More => Yield([], b, false)
    case Bad => Yield([], b, true)
    case Frame(n) => var y := Frames(b[n..]); y.(frames := [b[..n]] + y.frames)
  }

  /** A yield with more frames ahead of it. */
  function After(fs: seq<Bytes>, y: Yield): (r: Yield) {
    y.(frames := fs + y.frames)
  }

  lemma AfterNone(y: Yield)
    ensures After([], y) == y
  {
  }

  lemma AfterBoth(fs: seq<Bytes>, gs: seq<Bytes>, y: Yield)
    ensures After(fs, After(gs, y)) == After(fs + gs, y)
  {
    assert fs + (gs + y.frames) == fs + gs + y.frames;
  }

  lemma AfterLast(fs: seq<Bytes>, b: Bytes, bad: bool)
    ensures After(fs, Yield([], b, bad)) == Yield(fs, b, bad)
  {
  }

  lemma FramesStep(b: Bytes)
    ensures match NextOf(b)
            case More => Frames(b) == Yield([], b, false)
            case Bad => Frames(b) == Yield([], b, true)
            case Frame(n) => Frames(b) == After([b[..n]], Frames(b[n..]))
  {
    hide NextOf;
  }

  /** Nothing is lost: the frames and what is left are the bytes, and every frame is one. */
  lemma {:induction false} FramesAreBytes(b: Bytes)
    ensures var y := Frames(b); AllFrames(y.frames) && Joined(y.frames) + y.rest == b
    decreases |b|
  {
    hide IsFrame, NextOf, Frames, Joined;
    FramesStep(b);
    JoinedNone(b);
    var n := NextOf(b);
    if n.Frame? {
      var f, more := b[..n.size], b[n.size..];
      var y := Frames(more);
      FramesAreBytes(more);
      JoinedMore(f, y.frames, y.rest);
      assert b == f + more;
    }
  }

  lemma JoinedNone(b: Bytes)
    ensures Joined([]) + b == b
  {
  }

  lemma JoinedMore(f: Bytes, fs: seq<Bytes>, more: Bytes)
    ensures Joined([f] + fs) + more == f + (Joined(fs) + more)
  {
    assert ([f] + fs)[1..] == fs;
    assert f + Joined(fs) + more == f + (Joined(fs) + more);
  }

  lemma NextIsFrame(f: Bytes, more: Bytes)
    requires IsFrame(f)
    ensures NextOf(f + more) == Frame(|f|) && (f + more)[..|f|] == f && (f + more)[|f|..] == more
  {
    assert (f + more)[..4] == f[..4];
  }

  /** Frames sent one after another are yielded as they were sent, and then what follows them. */
  lemma {:induction false} FramesComeBack(fs: seq<Bytes>, more: Bytes)
    requires AllFrames(fs)
    ensures Frames(Joined(fs) + more) == After(fs, Frames(more))
    decreases |fs|
  {
    hide IsFrame, NextOf, Frames, Joined, After;
    if fs == [] {
      JoinedNone(more);
      AfterNone(Frames(more));
    } else {
      var f, gs := fs[0], fs[1..];
      assert fs == [f] + gs;
      JoinedMore(f, gs, more);
      NextIsFrame(f, Joined(gs) + more);
      FramesStep(f + (Joined(gs) + more));
      FramesComeBack(gs, more);
      AfterBoth([f], gs, Frames(more));
    }
  }

  /** What is at the front stays there, whatever follows, unless more was asked for. */
  lemma NextStable(a: Bytes, b: Bytes)
    requires !NextOf(a).More?
    ensures NextOf(a + b) == NextOf(a)
  {
    assert (a + b)[..4] == a[..4];
  }

  /** Bytes that come in two goes yield what they yield in one. */
  lemma {:induction false} FramesTwice(a: Bytes, b: Bytes)
    ensures var y := Frames(a);
            if y.bad then Frames(a + b).bad && Frames(a + b).frames == y.frames
            else Frames(a + b) == After(y.frames, Frames(y.rest + b))
    decreases |a|
  {
    hide NextOf, Frames;
    FramesStep(a);
    var n := NextOf(a);
    if n.More? {
      AfterNone(Frames(a + b));
    } else {
      NextStable(a, b);
      FramesStep(a + b);
      if n.Frame? {
        var f, more := a[..n.size], a[n.size..];
        assert (a + b)[..n.size] == f && (a + b)[n.size..] == more + b;
        FramesTwice(more, b);
        var y := Frames(more);
        AfterBoth([f], y.frames, Frames(y.rest + b));
      }
    }
  }

  /** After its frames are drained the buffer has room for one read, whatever it holds. */
  lemma RoomForARead(b: Bytes)
    requires !Frames(b).bad
    ensures |Frames(b).rest| + READ_CHUNK < CAP
  {
  }

  class FrameBuf {
    const buf: array<Byte>
    var len: nat
    var pos: nat

    ghost predicate Valid()
      reads this
    {
      buf.Length == CAP && pos <= len <= CAP
    }

    /** What is pushed and not yet yielded. */
    ghost function Left(): (b: Bytes)
      requires Valid()
      reads this, buf
    {
      buf[pos..len]
    }

    constructor ()
      ensures Valid() && Left() == [] && fresh(buf)
    {
      buf := new Byte[CAP](_ => 0);
      len, pos := 0, 0;
    }

    /** Drop what was yielded, sliding the rest to the front. */
    method Compact()
      requires Valid()
      modifies this, buf
      ensures Valid() && pos == 0 && Left() == old(Left())
    {
      if pos == 0 {
        return;
      }
      var rem := len - pos;
      for i := 0 to rem
        invariant pos == old(pos) && len == old(len)
        invariant forall j :: 0 <= j < i ==> buf[j] == old(buf[pos + j])
        invariant forall j :: i <= j < CAP ==> buf[j] == old(buf[j])
      {
        buf[i] := buf[pos + i];
      }
      len, pos := rem, 0;
    }

    /** Refused exactly when the bytes do not fit behind what is left, and then nothing changes. */
    method Push(data: Bytes) returns (ok: bool)
      requires Valid()
      modifies this, buf
      ensures Valid() && (ok <==> |old(Left())| + |data| <= CAP)
      ensures Left() == if ok then old(Left()) + data else old(Left())
    {
      Compact();
      if |data| > CAP - len {
        return false;
      }
      CopyIn(len, data);
      len := len + |data|;
      return true;
    }

    method CopyIn(at: nat, data: Bytes)
      requires buf.Length == CAP && at + |data| <= CAP
      modifies buf
      ensures buf[..at + |data|] == old(buf[..at]) + data
    {
      for i := 0 to |data|
        invariant forall j :: 0 <= j < at ==> buf[j] == old(buf[j])
        invariant forall j :: 0 <= j < i ==> buf[at + j] == data[j]
      {
        buf[at + i] := data[i];
      }
    }

    method Take() returns (n: Next, frame: Bytes)
      requires Valid()
      modifies this`pos
      ensures Valid() && n == NextOf(old(Left()))
      ensures if n.Frame? then frame == old(Left())[..n.size] && Left() == old(Left())[n.size..] else Left() == old(Left())
    {
      frame := [];
      var avail := len - pos;
      if avail < HEADER_SIZE {
        return More, [];
      }
      var length := LengthAt(pos);
      var total := length + 4;
      assert buf[pos..len][..4] == buf[pos..pos + 4];
      if total < LENGTH_MIN + 4 || total > MAX_FRAME_SIZE {
        return Bad, [];
      }
      if avail < total {
        return More, [];
      }
      frame := buf[pos..pos + total];
      assert buf[pos..len][..total] == buf[pos..pos + total] && buf[pos..len][total..] == buf[pos + total..len];
      pos := pos + total;
      return Frame(total), frame;
    }

    method LengthAt(p: nat) returns (n: nat)
      requires buf.Length == CAP && p + 4 <= CAP
      ensures n == BigEndian(buf[p..p + 4])
    {
      n := ((buf[p] as nat * 256 + buf[p + 1] as nat) * 256 + buf[p + 2] as nat) * 256 + buf[p + 3] as nat;
      FourBytes(buf[p..p + 4]);
    }

    /** Every whole frame there is, in order. */
    method Drain() returns (frames: seq<Bytes>, bad: bool)
      requires Valid()
      modifies this`pos
      ensures Valid() && Yield(frames, Left(), bad) == Frames(old(Left()))
    {
      hide NextOf, Frames, After;
      frames := [];
      AfterNone(Frames(Left()));
      while true
        invariant Valid() && Frames(old(Left())) == After(frames, Frames(Left()))
        decreases len - pos
      {
        FramesStep(Left());
        ghost var b := Left();
        var n, frame := Take();
        if n == More || n == Bad {
          AfterLast(frames, b, n == Bad);
          return frames, n == Bad;
        }
        AfterBoth(frames, [frame], Frames(Left()));
        frames := frames + [frame];
      }
    }

    /** A caller that drains after each push of one read never overflows, and gets the frames of all the bytes so far. */
    method Feed(data: Bytes, ghost before: Bytes) returns (frames: seq<Bytes>, bad: bool)
      requires Valid() && |data| <= READ_CHUNK && !Frames(before).bad && Left() == Frames(before).rest
      modifies this, buf
      ensures Valid() && bad == Frames(before + data).bad && Frames(before).frames + frames == Frames(before + data).frames
      ensures !bad ==> Left() == Frames(before + data).rest
    {
      RoomForARead(before);
      FramesTwice(before, data);
      hide Frames;
      var ok := Push(data);
      assert ok;
      frames, bad := Drain();
    }
  }

  lemma FourBytes(b: Bytes)
    requires |b| == 4
    ensures BigEndian(b) == ((b[0] as nat * 256 + b[1] as nat) * 256 + b[2] as nat) * 256 + b[3] as nat
  {
    var c, d, e := b[..3], b[..2], b[..1];
    assert c[..2] == d && d[..1] == e && e[..0] == [];
    assert BigEndian(e) == b[0] && BigEndian(d) == b[0] as nat * 256 + b[1] as nat;
    assert BigEndian(c) == BigEndian(d) * 256 + b[2] as nat;
  }
}
