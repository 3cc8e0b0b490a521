/**
  What the loop is told of a WebSocket over a whole run: the protocol frames in the bytes
  read since the upgrade, across turns and whatever is sent in between.
 */
module IoFrames {
  import opened Basics
  import opened WebSockets
  import opened OutputQueue
  import opened IoMachine
  import opened IoRuns
  import FrameBufs

  // ----- the reads an operation makes

  datatype Reading = Idle | ReadsIn(s: State, turn: Turn)

  /** The open state in which a turn reads, if it reads. */
  function TurnReads(s: State, t: Turn): (r: Reading) {
    if s.phase == Open && t.readable then ReadsIn(s, t)
    else if s.phase == Handshake && t.shake.Shaken? then ReadsIn(Shook(s, t.shake.http), t)
    else Idle
  }

  function ReadingOf(s: State, op: Op): (r: Reading) {
    match op
    case Serve(t) => TurnReads(s, t)
    case Do(Proceed(t)) => if s.phase == Hold then TurnReads(s.(phase := Handshake), t.(readable := true)) else Idle
    case _ => Idle
  }

  function Made(s: State, t: Turn): (rs: seq<Read>)
    ensures forall i :: 0 <= i < |rs| ==> rs[i].Got?
  {
    t.arrivals[..ReadsTaken(s, t.arrivals, t.fb, t.budget)]
  }

  /** Of some reads, those a WebSocket takes. */
  function WsReads(m: Mode, rs: seq<Read>, fb: FrameBuffer): (r: seq<Read>)
    requires forall i :: 0 <= i < |rs| ==> rs[i].Got?
    ensures forall i :: 0 <= i < |r| ==> r[i].Got?
    decreases |rs|
  {
    if m.Socket? || rs == [] then rs else WsReads(ReadMeans(m, rs[0], fb).mode, rs[1..], fb)
  }

  function BytesOf(rs: seq<Read>): (b: Bytes)
    requires forall i :: 0 <= i < |rs| ==> rs[i].Got?
  {
    Concat(Chunks(rs))
  }

  /** What an operation reads of a WebSocket's stream. */
  function OpBytes(s: State, op: Op): (b: Bytes) {
    match ReadingOf(s, op)
    case Idle => []
    case ReadsIn(v, t) => BytesOf(WsReads(ModeOf(v), Made(v, t), t.fb))
  }

  /** All the bytes read of a WebSocket's stream since the upgrade. */
  function SinceUpgrade(l: Life, ops: seq<Op>, n: nat): (b: Bytes)
    requires n <= |ops|
  {
    if n == 0 then []
    else
      var t := After(l, ops, n - 1);
      SinceUpgrade(l, ops, n - 1) + (if t.open then OpBytes(t.s, ops[n - 1]) else [])
  }

  // ----- one turn

  /** A connection that becomes a WebSocket tells so, and then what its stream yields. */
  lemma {:induction false} MeansSplit(m: Mode, rs: seq<Read>, fb: FrameBuffer)
    requires forall i :: 0 <= i < |rs| ==> rs[i].Got?
    ensures var r := ReadsMean(m, rs, fb); var w := WsReads(m, rs, fb);
            if m.Socket? then w == rs
            else if r.mode.Socket? then
              var u := ReadsMean(Socket([], []), w, fb); r.mode == u.mode && r.tape.notes == [Opened(false)] + u.tape.notes
            else w == []
    decreases |rs|
  {
    hide ItemsTape, Deframed, FramesIn;
    if rs != [] && !m.Socket? {
      var first := ReadMeans(m, rs[0], fb);
      MeansSplit(first.mode, rs[1..], fb);
      var rest := ReadsMean(first.mode, rs[1..], fb);
      if first.mode.Socket? {
        SocketStays(first.mode, rs[1..], fb);
      } else if rest.mode.Socket? {
        ProtoStays(first.mode, rs[1..], fb);
        assert [] + rest.tape.notes == rest.tape.notes;
      }
    }
  }

  lemma {:induction false} SocketStays(m: Mode, rs: seq<Read>, fb: FrameBuffer)
    requires (forall i :: 0 <= i < |rs| ==> rs[i].Got?) && m.Socket?
    ensures ReadsMean(m, rs, fb).mode.Socket?
    decreases |rs|
  {
    if rs != [] {
      SocketStays(ReadMeans(m, rs[0], fb).mode, rs[1..], fb);
    }
  }

  /** Only a connection still at its one HTTP request becomes a WebSocket. */
  lemma {:induction false} ProtoStays(m: Mode, rs: seq<Read>, fb: FrameBuffer)
    requires forall i :: 0 <= i < |rs| ==> rs[i].Got?
    ensures m == Proto || m == Http(true) ==> ReadsMean(m, rs, fb).mode == m
    decreases |rs|
  {
    if rs != [] && (m == Proto || m == Http(true)) {
      ProtoStays(m, rs[1..], fb);
    }
  }

  lemma NewSocket(m: Mode, r: Read, fb: FrameBuffer)
    requires r.Got? && !m.Socket? && ReadMeans(m, r, fb).mode.Socket?
    ensures ReadMeans(m, r, fb).mode == Socket([], [])
  {
  }

  /** No turn reads past the end of a stream that begins in it, which ends the connection. */
  lemma {:induction false} NewReadsWithin(s: State, arrivals: seq<Read>, fb: FrameBuffer, budget: nat)
    requires Ok(s) && s.phase == Open && !s.rd.ws
    ensures var w := WsReads(ModeOf(s), arrivals[..ReadsTaken(s, arrivals, fb, budget)], fb);
            && UntilOver([], [], w, fb) == |w|
            && (ReadAll(s, arrivals, fb, budget).rd.ws && Fed(Stream([], [], false), Chunks(w), fb.takes).over ==>
                  ReadAll(s, arrivals, fb, budget).phase == Done)
    decreases |arrivals|
  {
    hide Ok, Adds, Taken, ReadMeans, Deframed, Finished;
    var k := ReadsTaken(s, arrivals, fb, budget);
    assert arrivals[..0] == [];
    if k > 0 {
      var r, more, left := arrivals[0], arrivals[1..], Spent(budget, arrivals[0]);
      TakenAdds(s, r, fb);
      var t := Taken(s, r, fb);
      assert arrivals[..k][1..] == more[..k - 1];
      ReadAllDone(t, more, fb, left);
      if t.rd.ws {
        NewSocket(ModeOf(s), r, fb);
      }
      if t.phase == Open {
        if t.rd.ws {
          ReadsWithin(t, more, fb, left);
        } else {
          NewReadsWithin(t, more, fb, left);
        }
      } else {
        assert more[..k - 1] == [];
      }
    }
  }

  lemma ReadAllDone(s: State, arrivals: seq<Read>, fb: FrameBuffer, budget: nat)
    ensures s.phase == Done ==> ReadAll(s, arrivals, fb, budget) == s && ReadsTaken(s, arrivals, fb, budget) == 0
  {
  }

  // ----- what the loop has been told

  /**
    The reports so far are those up to the upgrade, the upgrade's own, and the frames that the
    items of the stream read since then complete; and those items are what its bytes yield.
   */
  ghost predicate Story(s: State, fb: FrameBuffer, bytes: Bytes, p: seq<Event>) {
    if s.rd.ws then
      && Notes(s.events) == p + [Opened(false)] + ItemsTape(s.rd.items, 0, |s.rd.items|, fb).notes
      && StreamAt(s, fb, bytes)
    else bytes == []
  }

  ghost predicate StreamAt(s: State, fb: FrameBuffer, bytes: Bytes) {
    var d := Deframed([], bytes, fb.takes);
    d.items == s.rd.items && (s.phase != Done ==> !d.over && d.rest == s.rd.win)
  }

  lemma StreamGrows(items: seq<Item>, win: Bytes, bytes: Bytes, chunks: seq<Bytes>, takes: seq<Item> -> bool)
    requires Deframed([], bytes, takes) == Stream(items, win, false)
    ensures var d := Deframed([], bytes + Concat(chunks), takes); var f := Fed(Stream(items, win, false), chunks, takes);
            d.items == f.items && d.over == f.over && (!f.over ==> d.rest == f.rest)
  {
    assert Parsed(win, MAX_FRAME).More?;
    hide Deframed, Parsed, Fed;
    DeframedTwice([], bytes, Concat(chunks), takes);
    ChunkingDoesNotMatter(Stream(items, win, false), chunks, takes);
  }

  lemma NotesGrow(p: seq<Event>, items: seq<Item>, more: seq<Item>, fb: FrameBuffer)
    requires items <= more
    ensures p + [Opened(false)] + ItemsTape(items, 0, |items|, fb).notes + ItemsTape(more, |items|, |more|, fb).notes ==
            p + [Opened(false)] + ItemsTape(more, 0, |more|, fb).notes
  {
    hide ItemsTape;
    ItemsTapeSame(items, more, 0, |items|, fb);
    ItemsTapeJoin(more, 0, |items|, |more|, fb);
    Regroup(p + [Opened(false)], ItemsTape(more, 0, |items|, fb).notes, ItemsTape(more, |items|, |more|, fb).notes);
  }

  /** What a turn's reads leave, of a connection that is a WebSocket before or after them. */
  lemma PumpLeaves(v: State, t: Turn)
    requires Ok(v) && v.phase == Open
    ensures var u := Pumped(v, t, true); var a := ReadAll(v, t.arrivals, t.fb, t.budget);
            && Notes(u.events) == Notes(v.events) + ReadsMean(ModeOf(v), Made(v, t), t.fb).tape.notes
            && ModeOf(u) == ReadsMean(ModeOf(v), Made(v, t), t.fb).mode && u.rd == a.rd
            && (a.phase == Done ==> u.phase == Done)
  {
    PumpedAdds(v, t, true);
    ReadAllAdds(v, t.arrivals, t.fb, t.budget);
    hide Ok, ReadsMean, ReadAll, Notes, Drained;
  }

  lemma WsTells(v: State, t: Turn, fb: FrameBuffer, bytes: Bytes, p: seq<Event>)
    requires Ok(v) && v.phase == Open && v.rd.ws && t.fb == fb && Story(v, fb, bytes, p)
    ensures Story(Pumped(v, t, true), fb, bytes + BytesOf(Made(v, t)), p)
  {
    hide Ok, Pumped, ReadsMean, ReadAll, ItemsTape, Deframed, UntilOver, Fed, Chunks, Notes, ReadsTaken;
    var rs, u := Made(v, t), Pumped(v, t, true);
    var items, win := v.rd.items, v.rd.win;
    PumpLeaves(v, t);
    ReadsWithin(v, t.arrivals, fb, t.budget);
    ReadsFeed(items, win, rs, fb);
    assert rs[..|rs|] == rs;
    var f := Fed(Stream(items, win, false), Chunks(rs), fb.takes);
    NotesGrow(p, items, f.items, fb);
    StreamGrows(items, win, bytes, Chunks(rs), fb.takes);
  }

  lemma EmptyStream(takes: seq<Item> -> bool)
    ensures Deframed([], [], takes) == Stream([], [], false)
  {
  }

  lemma NewTells(v: State, t: Turn, fb: FrameBuffer)
    requires Ok(v) && v.phase == Open && !v.rd.ws && t.fb == fb && Pumped(v, t, true).rd.ws
    ensures Story(Pumped(v, t, true), fb, BytesOf(WsReads(ModeOf(v), Made(v, t), fb)), Notes(v.events))
  {
    hide Ok, Pumped, ReadsMean, ReadAll, ItemsTape, UntilOver, Fed, Chunks, Notes, ReadsTaken, WsReads, Deframed;
    var u, w := Pumped(v, t, true), WsReads(ModeOf(v), Made(v, t), fb);
    PumpLeaves(v, t);
    MeansSplit(ModeOf(v), Made(v, t), fb);
    NewReadsWithin(v, t.arrivals, fb, t.budget);
    ReadsFeed([], [], w, fb);
    assert w[..|w|] == w;
    var f := Fed(Stream([], [], false), Chunks(w), fb.takes);
    EmptyStream(fb.takes);
    StreamGrows([], [], [], Chunks(w), fb.takes);
    assert [] + BytesOf(w) == BytesOf(w);
    Regroup(Notes(v.events), [Opened(false)], ItemsTape(f.items, 0, |f.items|, fb).notes);
  }

  lemma NoneTells(v: State, t: Turn, fb: FrameBuffer)
    requires Ok(v) && v.phase == Open && !v.rd.ws && t.fb == fb && !Pumped(v, t, true).rd.ws
    ensures WsReads(ModeOf(v), Made(v, t), fb) == []
  {
    hide Ok, Pumped, ReadsMean, ReadAll, ReadsTaken, WsReads, Notes;
    PumpLeaves(v, t);
    MeansSplit(ModeOf(v), Made(v, t), fb);
  }

  lemma PumpTells(v: State, t: Turn, fb: FrameBuffer, bytes: Bytes, p: seq<Event>) returns (q: seq<Event>)
    requires Ok(v) && v.phase == Open && t.fb == fb && Story(v, fb, bytes, p)
    ensures Story(Pumped(v, t, true), fb, bytes + BytesOf(WsReads(ModeOf(v), Made(v, t), fb)), q)
  {
    hide Ok, Pumped, ReadsMean, ItemsTape, Deframed, Notes, Made;
    q := p;
    if v.rd.ws {
      WsTells(v, t, fb, bytes, p);
    } else if Pumped(v, t, true).rd.ws {
      q := Notes(v.events);
      NewTells(v, t, fb);
      assert bytes + BytesOf(WsReads(ModeOf(v), Made(v, t), fb)) == BytesOf(WsReads(ModeOf(v), Made(v, t), fb));
    } else {
      NoneTells(v, t, fb);
    }
  }

  /** An operation that reads nothing leaves a stream as it was, and what was told of it. */
  lemma {:induction false} SameStory(s: State, t: State, fb: FrameBuffer, bytes: Bytes, p: seq<Event>)
    requires Story(s, fb, bytes, p) && t.rd.ws == s.rd.ws && t.rd.items == s.rd.items && t.rd.win == s.rd.win
    requires s.rd.ws ==> Notes(t.events) == Notes(s.events) && (t.phase == s.phase || t.phase == Done)
    ensures Story(t, fb, bytes, p) && bytes + [] == bytes
  {
    hide Deframed, ItemsTape, Notes;
  }

  lemma ServeTells(s: State, t: Turn, fb: FrameBuffer, bytes: Bytes, p: seq<Event>) returns (q: seq<Event>)
    requires Ok(s) && t.fb == fb && Story(s, fb, bytes, p)
    ensures var r := TurnReads(s, t);
            Story(Served(s, t), fb, bytes + (if r.Idle? then [] else BytesOf(WsReads(ModeOf(r.s), Made(r.s, r.turn), fb))), q)
  {
    hide Ok, Pumped, Deframed, Notes, Made, ItemsTape, Finished, Adds;
    var r := TurnReads(s, t);
    q := p;
    if r.ReadsIn? {
      if s.phase == Handshake {
        ShookAdds(s, t.shake.http);
        OkHandshake(s);
      }
      q := PumpTells(r.s, t, fb, bytes, p);
    } else {
      ServeIdle(s, t);
      SameStory(s, Served(s, t), fb, bytes, p);
    }
  }

  lemma OkHandshake(s: State)
    requires Ok(s) && s.phase != Open && s.phase != Done
    ensures !s.rd.ws
  {
  }

  lemma ServeIdle(s: State, t: Turn)
    requires Ok(s) && TurnReads(s, t).Idle?
    ensures var u := Served(s, t);
            && u.rd == s.rd && (s.rd.ws ==> Notes(u.events) == Notes(s.events) && (u.phase == s.phase || u.phase == Done))
  {
    ServedAdds(s, t);
    FinishedReader(s);
    FlushedMode(s);
    FlushedPhase(s);
    hide Finished, Flushed, Notes, ReadAll, TurnTape;
  }

  lemma OpIdle(s: State, op: Op)
    requires Ok(s) && OpOk(op) && !op.Serve? && !(op.Do? && op.cmd.Proceed?)
    ensures var u := Did(s, op);
            && u.rd.ws == s.rd.ws && u.rd.items == s.rd.items && u.rd.win == s.rd.win
            && (s.rd.ws ==> Notes(u.events) == Notes(s.events) && (u.phase == s.phase || u.phase == Done))
  {
    DidAdds(s, op);
    hide Ok, Flushed, Notes, SentOut, Answered;
    match op {
      case Do(cmd) =>
        FlushedMode(s);
        FlushedPhase(s);
        if cmd.Send? {
          SendStays(s, cmd.data, cmd.close);
          SendPhase(s, cmd.data, cmd.close);
        }
      case TimesOut(head, body) =>
        if Late(s) {
          AnsweredReader(s, head, body);
        }
      case _ =>
    }
  }

  lemma SendPhase(s: State, data: Bytes, close: bool)
    ensures SentOut(s, data, close).phase == s.phase || SentOut(s, data, close).phase == Done
  {
    hide Flushed, FrameChunk;
    if s.phase != Done {
      var t := if data == [] then s else if s.rd.ws then FrameQueued(s, ServerFrame(0x2, data)) else Queued(s, Chunk(data, 0));
      FlushedPhase(t.(closeAfter := s.closeAfter || close));
    }
  }

  lemma AnsweredReader(s: State, head: Bytes, body: Bytes)
    ensures var u := Answered(s, head, body); u.rd.ws == s.rd.ws && u.rd.items == s.rd.items && u.rd.win == s.rd.win
  {
    hide Flushed;
    FlushedMode(Queued(s, Chunk(head + body, 0)).(rd := s.rd.(httpDone := true), closeAfter := true));
  }

  ghost predicate UsesBuffer(op: Op, fb: FrameBuffer) {
    TurnOf(op).Some? ==> TurnOf(op).value.fb == fb
  }

  lemma OpTells(s: State, op: Op, fb: FrameBuffer, bytes: Bytes, p: seq<Event>) returns (q: seq<Event>)
    requires Ok(s) && OpOk(op) && UsesBuffer(op, fb) && Story(s, fb, bytes, p)
    ensures Story(Did(s, op), fb, bytes + OpBytes(s, op), q)
  {
    hide Ok, Served, Made, WsReads, Story, OpOk, TurnReads, Notes, BytesOf;
    OpTurn(s, op);
    q := p;
    match op {
      case Serve(t) => q := ServeTells(s, t, fb, bytes, p);
      case Do(cmd) =>
        if cmd.Proceed? {
          if s.phase == Hold {
            var v := s.(phase := Handshake);
            SetAside(s, true, []);
            OkHandshake(s);
            HeldStory(s, v, fb, bytes, p);
            q := ServeTells(v, cmd.turn.(readable := true), fb, bytes, p);
          } else {
            assert bytes + [] == bytes;
          }
        } else {
          OpIdle(s, op);
          SameStory(s, Did(s, op), fb, bytes, p);
        }
      case _ =>
        OpIdle(s, op);
        SameStory(s, Did(s, op), fb, bytes, p);
    }
  }

  lemma OpTurn(s: State, op: Op)
    ensures ReadingOf(s, op).ReadsIn? ==>
              TurnOf(op).Some? && ReadingOf(s, op).turn.fb == TurnOf(op).value.fb
  {
  }

  lemma HeldStory(s: State, v: State, fb: FrameBuffer, bytes: Bytes, p: seq<Event>)
    requires Story(s, fb, bytes, p) && !s.rd.ws && v.rd == s.rd
    ensures Story(v, fb, bytes, p)
  {
  }

  /**
    Over every run of a connection that becomes a WebSocket: the loop has been told, after the
    upgrade, exactly the frames completed by the items of the bytes read since, in order,
    however those bytes fell into reads and turns and whatever was sent in between.
   */
  lemma {:induction false} WebSocketReports(l: Life, ops: seq<Op>, n: nat, fb: FrameBuffer) returns (p: seq<Event>)
    requires Ok(l.s) && !l.s.rd.ws && OpsOk(ops) && n <= |ops| && forall i :: 0 <= i < |ops| ==> UsesBuffer(ops[i], fb)
    ensures Story(After(l, ops, n).s, fb, SinceUpgrade(l, ops, n), p)
  {
    hide Ok, Story, Did, OpBytes, UsesBuffer, OpOk, Adds;
    if n == 0 {
      p := [];
      NoStory(l.s, fb);
    } else {
      var t := After(l, ops, n - 1);
      p := WebSocketReports(l, ops, n - 1, fb);
      RunAdds(l, ops, n - 1);
      if t.open {
        p := OpTells(t.s, ops[n - 1], fb, SinceUpgrade(l, ops, n - 1), p);
      } else {
        assert SinceUpgrade(l, ops, n - 1) + [] == SinceUpgrade(l, ops, n - 1);
      }
    }
  }

  lemma NoStory(s: State, fb: FrameBuffer)
    requires !s.rd.ws
    ensures Story(s, fb, [], [])
  {
  }

  // ----- the daemon's frame buffer

  /** What the frame buffer holds after some items, the frames the last of them completed, and whether it took them all. */
  datatype Absorbed = Absorbed(left: Bytes, frames: seq<Bytes>, ok: bool, full: bool)

  function Absorb(items: seq<Item>): (a: Absorbed) {
    if items == [] then Absorbed([], [], true, false)
    else
      var was := Absorb(items[..|items| - 1]);
      var last := items[|items| - 1];
      if !was.ok || last.Ping? then was.(frames := [])
      else if |was.left| + |last.bytes| > FrameBufs.CAP then was.(frames := [], ok := false, full := true)
      else
        var y := FrameBufs.Frames(was.left + last.bytes);
        Absorbed(y.rest, y.frames, !y.bad, false)
  }

  /** The frame buffer as a WebSocket's items see it. */
  function TheBuffer(): (fb: FrameBuffer) {
    FrameBuffer((items: seq<Item>) => Absorb(items).ok, (items: seq<Item>) => Absorb(items).frames)
  }

  /** A payload is refused exactly when it does not fit behind what is left, or the bytes can be no frame. */
  lemma TakesExactly(items: seq<Item>, d: Bytes)
    requires Absorb(items).ok
    ensures TheBuffer().takes(items + [Data(d)]) <==>
            |Absorb(items).left| + |d| <= FrameBufs.CAP && !FrameBufs.Frames(Absorb(items).left + d).bad
  {
    assert (items + [Data(d)])[..|items|] == items;
  }

  /** The payload bytes of some items, one after another. */
  function DataOf(items: seq<Item>): (b: Bytes) {
    if items == [] then []
    else
      var last := items[|items| - 1];
      DataOf(items[..|items| - 1]) + (if last.Data? then last.bytes else [])
  }

  /** The frames some items complete, one item after another. */
  function Completed(items: seq<Item>): (fs: seq<Bytes>) {
    if items == [] then []
    else Completed(items[..|items| - 1]) + (if items[|items| - 1].Data? then Absorb(items).frames else [])
  }

  /** However payloads cut the protocol's stream, the frames are those of all its bytes. */
  lemma {:induction false} CompletedAreFrames(items: seq<Item>)
    requires items == [] || Absorb(items[..|items| - 1]).ok
    ensures var a := Absorb(items); var y := FrameBufs.Frames(DataOf(items));
            && (a.ok ==> y == FrameBufs.Yield(Completed(items), a.left, false))
            && (!a.ok && !a.full ==> y.bad && y.frames == Completed(items))
            && (a.full ==> Completed(items) == Completed(items[..|items| - 1]) && Completed(items) <= y.frames)
  {
    hide FrameBufs.Frames;
    if items == [] {
      NoFramesYet();
    } else {
      var init, last := items[..|items| - 1], items[|items| - 1];
      OkBefore(init);
      CompletedAreFrames(init);
      var was, before := Absorb(init), DataOf(init);
      if last.Data? {
        FrameBufs.FramesTwice(before, last.bytes);
      } else {
        assert before + [] == before && Completed(init) + [] == Completed(init);
      }
    }
  }

  lemma NoFramesYet()
    ensures FrameBufs.Frames([]) == FrameBufs.Yield([], [], false)
  {
  }

  lemma OkBefore(items: seq<Item>)
    requires Absorb(items).ok
    ensures items == [] || Absorb(items[..|items| - 1]).ok
  {
  }

  lemma {:induction false} FramesInConcat(a: seq<Bytes>, b: seq<Bytes>)
    ensures FramesIn(a + b) == FramesIn(a) + FramesIn(b)
    decreases |b|
  {
    if b == [] {
      assert a + b == a;
    } else {
      FramesInConcat(a, b[..|b| - 1]);
      assert (a + b)[..|a + b| - 1] == a + b[..|b| - 1];
    }
  }

  lemma {:induction false} NotesAreCompleted(items: seq<Item>, m: nat)
    requires m <= |items|
    ensures ItemsTape(items, 0, m, TheBuffer()).notes == FramesIn(Completed(items[..m]))
  {
    hide Absorb, FrameTape;
    if m > 0 {
      NotesAreCompleted(items, m - 1);
      assert items[..m][..m - 1] == items[..m - 1];
      var fs := if items[m - 1].Data? then Absorb(items[..m]).frames else [];
      FramesInConcat(Completed(items[..m - 1]), fs);
      hide FramesIn;
      NotesStep(items, m, fs);
    }
  }

  lemma NotesStep(items: seq<Item>, m: nat, fs: seq<Bytes>)
    requires 0 < m <= |items| && fs == if items[m - 1].Data? then Absorb(items[..m]).frames else []
    ensures ItemsTape(items, 0, m, TheBuffer()).notes == ItemsTape(items, 0, m - 1, TheBuffer()).notes + FramesIn(fs)
  {
    hide Absorb;
  }

  /** While a stream goes on, every payload of it was taken. */
  lemma {:induction false} DeframedTakes(items: seq<Item>, buf: Bytes, takes: seq<Item> -> bool)
    ensures var r := Deframed(items, buf, takes);
            && items <= r.items
            && forall i :: |items| <= i < |r.items| && r.items[i].Data? && (i + 1 < |r.items| || !r.over) ==> takes(r.items[..i + 1])
    decreases |buf|
  {
    DeframedGrows(items, buf, takes);
    var v := Parsed(buf, MAX_FRAME);
    if v.Frame? {
      hide Parsed, Masked;
      var op, p := v.opcode, Payload(buf, v);
      var next := if op == 0x2 || op == 0x0 then items + [Data(p)] else if op == 0x9 then items + [Ping(p)] else items;
      var r := Deframed(items, buf, takes);
      DeframedGrows(next, buf[v.whole..], takes);
      DeframedTakes(next, buf[v.whole..], takes);
      assert |next| > |items| && next <= r.items ==> r.items[..|items| + 1] == next;
    }
  }

  lemma {:induction false} AllAbsorbed(items: seq<Item>, m: nat)
    requires m <= |items| && forall i :: 0 <= i < m && items[i].Data? ==> Absorb(items[..i + 1]).ok
    ensures Absorb(items[..m]).ok
  {
    if m > 0 {
      AllAbsorbed(items, m - 1);
      assert items[..m][..m - 1] == items[..m - 1];
    }
  }

  /** The items the frame buffer had room for: all of them, but for a last payload that did not fit. */
  function Kept(items: seq<Item>): (r: seq<Item>) {
    if items != [] && Absorb(items).full then items[..|items| - 1] else items
  }

  lemma CompletedAreKept(items: seq<Item>)
    requires items == [] || Absorb(items[..|items| - 1]).ok
    ensures Completed(items) == FrameBufs.Frames(DataOf(Kept(items))).frames
    ensures Absorb(items).ok ==> Kept(items) == items && !FrameBufs.Frames(DataOf(items)).bad
  {
    hide FrameBufs.Frames, DataOf, Completed;
    CompletedAreFrames(items);
    if items != [] {
      OkBefore(items[..|items| - 1]);
      CompletedAreFrames(items[..|items| - 1]);
    }
  }

  /**
    With the daemon's frame buffer, over every run: after the upgrade the loop has been told
    exactly the protocol frames in the payloads, strung together, of all the bytes read since,
    but for a last payload the buffer had no room for. While the stream goes on there is none
    such, and nothing in it that can be no frame.
   */
  lemma WebSocketFrames(l: Life, ops: seq<Op>, n: nat) returns (p: seq<Event>)
    requires Ok(l.s) && !l.s.rd.ws && OpsOk(ops) && n <= |ops| && forall i :: 0 <= i < |ops| ==> UsesBuffer(ops[i], TheBuffer())
    requires After(l, ops, n).s.rd.ws
    ensures var t := After(l, ops, n).s; var d := Deframed([], SinceUpgrade(l, ops, n), TheBuffer().takes);
            && Notes(t.events) == p + [Opened(false)] + FramesIn(FrameBufs.Frames(DataOf(Kept(d.items))).frames)
            && (!d.over ==> Kept(d.items) == d.items && !FrameBufs.Frames(DataOf(d.items)).bad)
  {
    var fb, bytes := TheBuffer(), SinceUpgrade(l, ops, n);
    p := WebSocketReports(l, ops, n, fb);
    DeframedTakes([], bytes, fb.takes);
    hide Deframed, After, SinceUpgrade, Notes, FramesIn, ItemsTape, UsesBuffer, Ok, FrameBufs.Frames, Absorb, Kept, Completed, DataOf;
    var d := Deframed([], bytes, fb.takes);
    var items := d.items;
    assert items[..|items|] == items;
    if !d.over {
      AllAbsorbed(items, |items|);
    }
    if items != [] {
      AllAbsorbed(items, |items| - 1);
    }
    NotesAreCompleted(items, |items|);
    CompletedAreKept(items);
  }
}
