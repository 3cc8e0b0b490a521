/**
  What a connection keeps over every run: the books of its output, the order of its
  reports, and that nothing queued or reported is ever taken back.
 */
module IoRuns {
  import opened Basics
  import opened WebSockets
  import opened OutputQueue
  import opened IoMachine

  // ----- what every state keeps

  ghost predicate Known(frames: seq<ServerFrame>) {
    forall i :: 0 <= i < |frames| ==> frames[i].opcode == 0x2 || frames[i].opcode == 0xA
  }

  ghost predicate Ok(s: State) {
    && Account(s.out)
    && LogOk(s.events, s.closedEv) && (s.closedEv <==> s.phase != Done)
    && if s.rd.ws then
         WsBooks(All(s.out), s.books.preamble, s.books.before, s.books.frames) && Known(s.books.frames) && (s.phase == Open || s.phase == Done)
       else s.books.frames == [] && s.rd.items == [] && s.rd.win == []
  }

  // ----- what an operation adds

  /** Chunks queued, reports made other than WRITTEN and CLOSED, and WebSocket frames among the chunks. */
  datatype Tape = Tape(chunks: seq<Chunk>, notes: seq<Event>, frames: seq<ServerFrame>)

  const NOTHING: Tape := Tape([], [], [])

  function Join(a: Tape, b: Tape): (r: Tape) {
    Tape(a.chunks + b.chunks, a.notes + b.notes, a.frames + b.frames)
  }

  predicate Noted(e: Event) {
    !e.Written? && !e.Closed?
  }

  function Notes(events: seq<Event>): (r: seq<Event>) {
    if events == [] then []
    else
      var e := events[|events| - 1];
      Notes(events[..|events| - 1]) + (if Noted(e) then [e] else [])
  }

  lemma NotesPush(events: seq<Event>, e: Event)
    ensures Notes(events + [e]) == Notes(events) + (if Noted(e) then [e] else [])
  {
    assert (events + [e])[..|events|] == events;
  }

  /** From `s` to `t` exactly this was added, behind what was there; a connection that was over reported nothing. */
  ghost predicate Adds(s: State, t: State, tape: Tape) {
    && All(t.out) == All(s.out) + tape.chunks
    && Notes(t.events) == Notes(s.events) + tape.notes
    && t.books.frames == s.books.frames + tape.frames
    && s.out.wire <= t.out.wire && s.events <= t.events
    && (s.rd.ws ==> t.rd.ws && t.books.preamble == s.books.preamble && t.books.before == s.books.before)
    && (s.phase == Done ==> t.phase == Done && t.events == s.events)
  }

  lemma AddsNothing(s: State)
    ensures Adds(s, s, NOTHING)
  {
  }

  lemma AddsBoth(s: State, t: State, u: State, a: Tape, b: Tape)
    requires Adds(s, t, a) && Adds(t, u, b)
    ensures Adds(s, u, Join(a, b))
  {
    Regroup(All(s.out), a.chunks, b.chunks);
    Regroup(Notes(s.events), a.notes, b.notes);
    Regroup(s.books.frames, a.frames, b.frames);
  }

  lemma JoinNothing(a: Tape)
    ensures Join(a, NOTHING) == a && Join(NOTHING, a) == a
  {
  }

  // ----- output

  lemma FinishedAdds(s: State)
    requires Ok(s)
    ensures Ok(Finished(s)) && Adds(s, Finished(s), NOTHING)
  {
    hide Account, WsBooks, LogOk, Notes;
    if s.phase != Done {
      LogClose(s.events);
      NotesPush(s.events, Closed);
    }
  }

  lemma PostedAdds(s: State, e: Event)
    requires Ok(s) && s.phase != Done && Noted(e)
    ensures Ok(Posted(s, e)) && Adds(s, Posted(s, e), Tape([], [e], []))
  {
    hide Account, WsBooks, LogOk, Notes;
    LogPost(s.events, e);
    NotesPush(s.events, e);
  }

  lemma WrittenAdds(s: State, e: Event)
    requires Ok(s) && s.phase != Done && e.Written?
    ensures Ok(Posted(s, e)) && Adds(s, Posted(s, e), NOTHING)
  {
    hide Account, WsBooks, LogOk, Notes;
    LogPost(s.events, e);
    NotesPush(s.events, e);
  }

  lemma QueuedAdds(s: State, c: Chunk)
    requires Ok(s) && !s.rd.ws && ChunkOk(c)
    ensures Ok(Queued(s, c)) && Adds(s, Queued(s, c), Tape([c], [], []))
  {
    AccountPush(s.out, c);
    hide Account, WsBooks, LogOk, Notes;
  }

  ghost predicate FrameOk(f: ServerFrame) {
    (f.opcode == 0x2 || f.opcode == 0xA) && |f.payload| < 0x1_0000_0000_0000_0000
  }

  lemma FrameQueuedAdds(s: State, f: ServerFrame)
    requires Ok(s) && s.rd.ws && FrameOk(f)
    ensures Ok(FrameQueued(s, f)) && Adds(s, FrameQueued(s, f), Tape([FrameChunk(f)], [], [f]))
  {
    hide Account, WsBooks, LogOk, Notes, WsHeader;
    AccountPush(s.out, FrameChunk(f));
    WsBooksPush(All(s.out), s.books.preamble, s.books.before, s.books.frames, f);
  }

  /** However the socket takes them, bytes go out in order, none lost or repeated. */
  lemma {:induction false} DrainedKeeps(o: Out, socket: seq<Write>)
    requires Account(o)
    ensures var d := Drained(o, socket).out; Account(d) && All(d) == All(o) && o.wire <= d.wire
    decreases |socket|
  {
    hide Account, Wrote, All;
    if o.chunks != [] && socket != [] && socket[0].Took? {
      AccountWrite(o, socket[0].n);
      DrainedKeeps(Wrote(o, socket[0].n), socket[1..]);
    }
  }

  lemma WroteIs(o: Out, n: nat)
    requires o.chunks != [] && o.off <= |o.chunks[0].data| && o.queued >= |o.chunks[0].data| - o.off
    ensures var c := o.chunks[0];
            var k := if n < |c.data| - o.off then n else |c.data| - o.off;
            var whole, b := o.off + k == |c.data|, c.data[o.off..o.off + k];
            Wrote(o, n) == Out(if whole then o.chunks[1..] else o.chunks, if whole then 0 else o.off + k, o.queued - k,
                               o.written + OwnPart(c, o.off, k), if whole then o.popped + [c] else o.popped, o.wire + b)
  {
    hide OwnPart;
  }

  lemma ReportedAdds(s: State, was: nat)
    requires Ok(s) && s.phase != Done
    ensures Ok(Reported(s, was)) && Adds(s, Reported(s, was), NOTHING) && Reported(s, was).phase == s.phase
  {
    hide Account, WsBooks, LogOk, Notes;
    WrittenAdds(s, Written(s.out.written));
  }

  lemma FlushedAdds(s: State)
    requires Ok(s)
    ensures Ok(Flushed(s)) && Adds(s, Flushed(s), NOTHING)
    ensures Flushed(s).phase == s.phase || Flushed(s).phase == Done
  {
    hide Account, WsBooks, LogOk, Notes, Drained, Reported, Finished;
    AddsNothing(s);
    if s.phase == Open {
      DrainedKeeps(s.out, s.socket);
      var d := Drained(s.out, s.socket);
      var t := s.(out := d.out, socket := d.socket);
      assert Ok(t) && Adds(s, t, NOTHING);
      FinishedAdds(t);
      ReportedAdds(t, s.out.queued);
      var u := Reported(t, s.out.queued);
      FinishedAdds(u);
      hide Ok, Adds;
      JoinNothing(NOTHING);
      AddsBoth(s, t, Finished(t), NOTHING, NOTHING);
      AddsBoth(s, t, u, NOTHING, NOTHING);
      AddsBoth(s, u, Finished(u), NOTHING, NOTHING);
      FinishedDone(t);
      FinishedDone(u);
    }
  }

  /**
    A flush reports exactly when it has emptied the queue or brought it down to the soft limit;
    what it says is what was written; and it ends the connection on an error or after a last
    answer only.
   */
  lemma FlushTells(s: State)
    requires s.phase == Open
    ensures var d := Drained(s.out, s.socket); var t := Flushed(s);
            && t.out == d.out && s.events <= t.events
            && ((exists n :: Written(n) in t.events[|s.events|..]) <==>
                  !d.broken && t.out.queued != s.out.queued && (t.out.queued == 0 || (s.aboveSoft && t.out.queued <= SOFT)))
            && (forall n :: Written(n) in t.events[|s.events|..] ==> n == t.out.written)
            && (t.phase == Done <==> d.broken || (t.out.queued == 0 && s.closeAfter))
  {
    hide Drained, Flushed, FlushWords;
    var d, t := Drained(s.out, s.socket), Flushed(s);
    FlushSays(s);
    var said := !d.broken && d.out.queued != s.out.queued && ((s.aboveSoft && d.out.queued <= SOFT) || d.out.queued == 0);
    var close := d.broken || (d.out.queued == 0 && s.closeAfter);
    WordsMean(said, d.out.written, close);
    assert t.events[|s.events|..] == FlushWords(said, d.out.written, close);
  }

  function FlushWords(said: bool, written: nat, close: bool): (r: seq<Event>) {
    (if said then [Written(written)] else []) + (if close then [Closed] else [])
  }

  lemma WordsMean(said: bool, written: nat, close: bool)
    ensures (exists n :: Written(n) in FlushWords(said, written, close)) <==> said
    ensures forall n :: Written(n) in FlushWords(said, written, close) ==> n == written
  {
    if said {
      assert FlushWords(said, written, close)[0] == Written(written);
    }
  }

  lemma FlushSays(s: State)
    requires s.phase == Open
    ensures var d := Drained(s.out, s.socket); var t := Flushed(s);
            var said := !d.broken && d.out.queued != s.out.queued && ((s.aboveSoft && d.out.queued <= SOFT) || d.out.queued == 0);
            var close := d.broken || (d.out.queued == 0 && s.closeAfter);
            t.out == d.out && t.events == s.events + FlushWords(said, d.out.written, close) && (t.phase == Done <==> close)
  {
    hide Drained;
    var d := Drained(s.out, s.socket);
    Regroup(s.events, [Written(d.out.written)], [Closed]);
  }

  lemma FlushedPhase(s: State)
    ensures Flushed(s).phase == s.phase || Flushed(s).phase == Done
  {
    hide Drained;
  }

  lemma FinishedDone(s: State)
    ensures Finished(s).phase == Done
  {
  }

  // ----- input

  function FramesIn(fs: seq<Bytes>): (r: seq<Event>) {
    if fs == [] then [] else FramesIn(fs[..|fs| - 1]) + [FrameIn(fs[|fs| - 1])]
  }

  lemma {:induction false} FramesPostedAdds(s: State, fs: seq<Bytes>)
    requires Ok(s) && s.phase != Done
    ensures var t := FramesPosted(s, fs);
            Ok(t) && Adds(s, t, Tape([], FramesIn(fs), [])) && t.phase == s.phase && t.rd == s.rd
  {
    hide Ok, Adds;
    if fs == [] {
      AddsNothing(s);
    } else {
      var init, e := fs[..|fs| - 1], FrameIn(fs[|fs| - 1]);
      FramesPostedAdds(s, init);
      PostedAdds(FramesPosted(s, init), e);
      AddsBoth(s, FramesPosted(s, init), FramesPosted(s, fs), Tape([], FramesIn(init), []), Tape([], [e], []));
    }
  }

  function FrameTape(f: ServerFrame): (r: Tape)
    requires f.opcode < 16
  {
    Tape([FrameChunk(f)], [], [f])
  }

  /** What items `n` to `m` of a stream add: the frames each completes, and a pong with its payload for each ping. */
  function ItemsTape(items: seq<Item>, n: nat, m: nat, fb: FrameBuffer): (r: Tape)
    requires n <= m <= |items|
  {
    if n == m then NOTHING
    else
      Join(ItemsTape(items, n, m - 1, fb),
           if items[m - 1].Data? then Tape([], FramesIn(fb.completes(items[..m])), [])
           else FrameTape(ServerFrame(0xA, items[m - 1].bytes)))
  }

  ghost predicate ItemsFit(items: seq<Item>, n: nat) {
    forall i :: n <= i < |items| ==> |items[i].bytes| < 0x1_0000_0000_0000_0000
  }

  lemma {:induction false} DeliveredAdds(s: State, items: seq<Item>, n: nat, m: nat, fb: FrameBuffer)
    requires Ok(s) && s.rd.ws && s.phase == Open && n <= m <= |items| && ItemsFit(items, n)
    ensures var t := Delivered(s, items, n, m, fb);
            Ok(t) && Adds(s, t, ItemsTape(items, n, m, fb)) && t.phase == Open && t.rd == s.rd
    decreases m
  {
    hide Ok, Adds, FramesPosted, FrameQueued, FrameChunk, FramesIn;
    if n == m {
      AddsNothing(s);
    } else {
      DeliveredAdds(s, items, n, m - 1, fb);
      var t := Delivered(s, items, n, m - 1, fb);
      match items[m - 1] {
        case Data(_) =>
          var fs := fb.completes(items[..m]);
          FramesPostedAdds(t, fs);
          AddsBoth(s, t, FramesPosted(t, fs), ItemsTape(items, n, m - 1, fb), Tape([], FramesIn(fs), []));
        case Ping(p) =>
          var f := ServerFrame(0xA, p);
          FrameQueuedAdds(t, f);
          FrameQueuedReader(t, f);
          AddsBoth(s, t, FrameQueued(t, f), ItemsTape(items, n, m - 1, fb), FrameTape(f));
      }
    }
  }

  /** Delivering does not look at how the connection reads. */
  lemma {:induction false} DeliveredRest(s: State, rd: Reader, items: seq<Item>, n: nat, m: nat, fb: FrameBuffer)
    requires n <= m <= |items|
    ensures Delivered(s.(rd := rd), items, n, m, fb) == Delivered(s, items, n, m, fb).(rd := rd)
    decreases m
  {
    if n < m {
      hide FrameChunk;
      DeliveredRest(s, rd, items, n, m - 1, fb);
      if items[m - 1].Data? {
        FramesPostedRest(Delivered(s, items, n, m - 1, fb), rd, fb.completes(items[..m]));
      }
    }
  }

  lemma {:induction false} FramesPostedRest(s: State, rd: Reader, fs: seq<Bytes>)
    ensures FramesPosted(s.(rd := rd), fs) == FramesPosted(s, fs).(rd := rd)
  {
    if fs != [] {
      FramesPostedRest(s, rd, fs[..|fs| - 1]);
    }
  }

  lemma QueuedOut(s: State, c: Chunk)
    ensures Queued(s, c).out == Pushed(s.out, c)
  {
  }

  lemma OkAccount(s: State)
    requires Ok(s)
    ensures Account(s.out)
  {
  }

  lemma FrameQueuedReader(s: State, f: ServerFrame)
    requires f.opcode < 16
    ensures FrameQueued(s, f).phase == s.phase && FrameQueued(s, f).rd == s.rd
  {
  }

  /** How a connection takes what it reads: as the protocol, as HTTP, or as a WebSocket's stream. */
  datatype Mode = Proto | Http(done: bool) | Socket(items: seq<Item>, win: Bytes)

  function ModeOf(s: State): (m: Mode) {
    if s.rd.ws then Socket(s.rd.items, s.rd.win) else if s.rd.http then Http(s.rd.httpDone) else Proto
  }

  datatype Meant = Meant(mode: Mode, tape: Tape)

  /** What one read means to a connection, whatever its queue and its socket. */
  function ReadMeans(m: Mode, r: Read, fb: FrameBuffer): (t: Meant)
    requires r.Got?
  {
    match m
    case Proto => Meant(Proto, Tape([], FramesIn(r.frames), []))
    case Http(done) =>
      if done then Meant(m, NOTHING)
      else
        (match r.act
         case Incomplete => Meant(m, NOTHING)
         case Fails => Meant(m, NOTHING)
         case Answer(head, body) => Meant(Http(true), Tape([Chunk(head + body, 0)], [], []))
         case ForLoop => Meant(Http(true), Tape([], [HttpReq], []))
         case Upgrade(head) => Meant(Socket([], []), UpgradeTape(head)))
    case Socket(items, win) =>
      var st := Deframed(items, win + r.chunk, fb.takes);
      DeframedGrows(items, win + r.chunk, fb.takes);
      Meant(Socket(st.items, if st.over then [] else st.rest), ItemsTape(st.items, |items|, |st.items|, fb))
  }

  lemma FinishedReader(s: State)
    ensures Finished(s).rd == s.rd && Finished(s).books == s.books
  {
  }

  lemma ReportedReader(s: State, was: nat)
    ensures Reported(s, was).rd == s.rd && Reported(s, was).books == s.books
  {
  }

  lemma FlushedMode(s: State)
    ensures Flushed(s).rd == s.rd && Flushed(s).books == s.books && ModeOf(Flushed(s)) == ModeOf(s)
  {
    hide Drained, Finished, Reported;
    if s.phase == Open {
      var d := Drained(s.out, s.socket);
      var t := s.(out := d.out, socket := d.socket);
      var u := Reported(t, s.out.queued);
      FinishedReader(t);
      ReportedReader(t, s.out.queued);
      FinishedReader(u);
    }
  }

  lemma WsTakenAdds(s: State, r: Read, fb: FrameBuffer)
    requires Ok(s) && s.rd.ws && s.phase == Open && r.Got?
    ensures var t := WsTaken(s, r.chunk, fb); var m := ReadMeans(ModeOf(s), r, fb);
            && Ok(t) && Adds(s, t, m.tape) && ModeOf(t) == m.mode && (t.phase == Open || t.phase == Done)
            && (t.phase == Done <==> Deframed(s.rd.items, s.rd.win + r.chunk, fb.takes).over)
  {
    var st := Deframed(s.rd.items, s.rd.win + r.chunk, fb.takes);
    DeframedGrows(s.rd.items, s.rd.win + r.chunk, fb.takes);
    hide Deframed, Delivered, ItemsTape, Account, WsBooks, LogOk, Notes;
    DeliveredAdds(s, st.items, |s.rd.items|, |st.items|, fb);
    var t := Delivered(s, st.items, |s.rd.items|, |st.items|, fb).(rd := s.rd.(items := st.items, win := if st.over then [] else st.rest));
    assert Ok(t) && Adds(s, t, ReadMeans(ModeOf(s), r, fb).tape);
    FinishedAdds(t);
    var tape := ReadMeans(ModeOf(s), r, fb).tape;
    JoinNothing(tape);
    AddsBoth(s, t, Finished(t), tape, NOTHING);
  }

  function UpgradeTape(head: Bytes): (r: Tape) {
    Tape([Chunk(head, |head|)], [Opened(false)], [])
  }

  lemma SwitchedAdds(s: State)
    requires Ok(s) && !s.rd.ws && s.phase == Open
    ensures Ok(Switched(s)) && Adds(s, Switched(s), Tape([], [Opened(false)], []))
  {
    hide Account, WsBooks, LogOk, Notes, Cat, OwnAll;
    WsBooksStart(All(s.out));
    LogPost(s.events, Opened(false));
    NotesPush(s.events, Opened(false));
  }

  /** At the upgrade the books begin: what was queued before it and its answer, and no frame yet. */
  lemma UpgradedAdds(s: State, head: Bytes)
    requires Ok(s) && !s.rd.ws && s.phase == Open
    ensures var t := Upgraded(s, head);
            && Ok(t) && Adds(s, t, UpgradeTape(head)) && ModeOf(t) == Socket([], [])
            && t.rd.ws && (t.phase == Open || t.phase == Done)
            && t.books == Books(Cat(All(s.out)) + head, OwnAll(All(s.out)), [])
  {
    var c := Chunk(head, |head|);
    var q := Queued(s, c);
    CatPush(All(s.out), c);
    hide Cat, OwnAll, Flushed, Ok, Adds;
    Regroup(s.out.popped, s.out.chunks, [c]);
    QueuedAdds(s, c);
    SwitchedAdds(q);
    FlushedAdds(Switched(q));
    FlushedMode(Switched(q));
    AddsBoth(s, q, Switched(q), Tape([c], [], []), Tape([], [Opened(false)], []));
    JoinNothing(UpgradeTape(head));
    AddsBoth(s, Switched(q), Upgraded(s, head), UpgradeTape(head), NOTHING);
  }

  lemma AnsweredAdds(s: State, head: Bytes, body: Bytes)
    requires Ok(s) && !s.rd.ws && s.phase == Open && s.rd.http
    ensures var t := Answered(s, head, body);
            && Ok(t) && Adds(s, t, Tape([Chunk(head + body, 0)], [], [])) && ModeOf(t) == Http(true)
            && (t.phase == Open || t.phase == Done)
  {
    hide Account, WsBooks, LogOk, Notes, Cat, OwnAll;
    var c, tape := Chunk(head + body, 0), Tape([Chunk(head + body, 0)], [], []);
    QueuedAdds(s, c);
    var t := Queued(s, c).(rd := s.rd.(httpDone := true), closeAfter := true);
    assert Ok(t) && Adds(s, t, tape);
    FlushedAdds(t);
    FlushedMode(t);
    JoinNothing(tape);
    AddsBoth(s, t, Flushed(t), tape, NOTHING);
  }

  /** Read `r` asked for the upgrade: the books begin with what was queued before it and its answer. */
  ghost predicate BooksBegin(s: State, r: Read, t: State) {
    && r.Got? && r.act.Upgrade? && ModeOf(s) == Http(false)
    && t.books.preamble == Cat(All(s.out)) + r.act.head && t.books.before == OwnAll(All(s.out))
  }

  lemma HttpTakenAdds(s: State, r: Read, fb: FrameBuffer)
    requires Ok(s) && !s.rd.ws && s.rd.http && s.phase == Open && r.Got?
    ensures var t := HttpTaken(s, r.act); var m := ReadMeans(ModeOf(s), r, fb);
            && Ok(t) && Adds(s, t, m.tape) && ModeOf(t) == m.mode && (t.phase == Open || t.phase == Done)
            && (t.rd.ws ==> BooksBegin(s, r, t))
  {
    hide Ok, Adds, Upgraded, Answered, Cat, OwnAll;
    AddsNothing(s);
    if !s.rd.httpDone {
      match r.act {
        case Incomplete =>
        case Fails =>
          FinishedAdds(s);
          FinishedReader(s);
        case Answer(head, body) =>
          AnsweredAdds(s, head, body);
        case ForLoop =>
          var t := s.(rd := s.rd.(httpDone := true));
          DoneReading(s);
          PostedAdds(t, HttpReq);
          JoinNothing(Tape([], [HttpReq], []));
          AddsBoth(s, t, Posted(t, HttpReq), NOTHING, Tape([], [HttpReq], []));
        case Upgrade(head) =>
          UpgradedAdds(s, head);
      }
    }
  }

  lemma DoneReading(s: State)
    requires Ok(s) && !s.rd.ws
    ensures var t := s.(rd := s.rd.(httpDone := true)); Ok(t) && Adds(s, t, NOTHING)
  {
    hide Account, WsBooks, LogOk, Notes;
  }

  /** A read adds what it means to a connection of its kind, and nothing else; the upgrade begins the books. */
  lemma TakenAdds(s: State, r: Read, fb: FrameBuffer)
    requires Ok(s) && s.phase == Open && r.Got?
    ensures var t := Taken(s, r, fb); var m := ReadMeans(ModeOf(s), r, fb);
            && Ok(t) && Adds(s, t, m.tape) && ModeOf(t) == m.mode && (t.phase == Open || t.phase == Done)
            && (!s.rd.ws && t.rd.ws ==> BooksBegin(s, r, t))
  {
    hide Ok, Adds, Upgraded, Answered, Cat, OwnAll, WsTaken, FramesPosted, Finished;
    if s.rd.ws {
      WsTakenAdds(s, r, fb);
    } else if s.rd.http {
      HttpTakenAdds(s, r, fb);
    } else {
      var t, tape := FramesPosted(s, r.frames), Tape([], FramesIn(r.frames), []);
      FramesPostedAdds(s, r.frames);
      FinishedAdds(t);
      FinishedReader(t);
      FinishedDone(t);
      JoinNothing(tape);
      AddsBoth(s, t, Finished(t), tape, NOTHING);
    }
  }

  /** How many reads a turn makes. */
  function ReadsTaken(s: State, arrivals: seq<Read>, fb: FrameBuffer, budget: nat): (k: nat)
    ensures k <= |arrivals| && forall i :: 0 <= i < k ==> arrivals[i].Got?
    decreases |arrivals|
  {
    if !Reads(s, arrivals, budget) || arrivals[0] == Ended then 0
    else 1 + ReadsTaken(Taken(s, arrivals[0], fb), arrivals[1..], fb, Spent(budget, arrivals[0]))
  }

  /** What some reads mean one after another. */
  function ReadsMean(m: Mode, rs: seq<Read>, fb: FrameBuffer): (r: Meant)
    requires forall i :: 0 <= i < |rs| ==> rs[i].Got?
    decreases |rs|
  {
    if rs == [] then Meant(m, NOTHING)
    else
      var first := ReadMeans(m, rs[0], fb);
      var rest := ReadsMean(first.mode, rs[1..], fb);
      Meant(rest.mode, Join(first.tape, rest.tape))
  }

  /** A turn's reads add what they mean, in order. */
  lemma {:induction false} ReadAllAdds(s: State, arrivals: seq<Read>, fb: FrameBuffer, budget: nat)
    requires Ok(s) && s.phase == Open
    ensures var t := ReadAll(s, arrivals, fb, budget);
            var m := ReadsMean(ModeOf(s), arrivals[..ReadsTaken(s, arrivals, fb, budget)], fb);
            Ok(t) && Adds(s, t, m.tape) && ModeOf(t) == m.mode && (t.phase == Open || t.phase == Done)
    decreases |arrivals|
  {
    hide Ok, Adds, Taken, ReadMeans, Finished;
    var k := ReadsTaken(s, arrivals, fb, budget);
    if k == 0 {
      AddsNothing(s);
      FinishedAdds(s);
      FinishedReader(s);
      FinishedDone(s);
    } else {
      var r := arrivals[0];
      TakenAdds(s, r, fb);
      var t, m := Taken(s, r, fb), ReadMeans(ModeOf(s), r, fb);
      var more, left := arrivals[1..], Spent(budget, r);
      var k', u := ReadsTaken(t, more, fb, left), ReadAll(t, more, fb, left);
      assert k == 1 + k' && ReadAll(s, arrivals, fb, budget) == u;
      assert arrivals[..k][1..] == more[..k'];
      if t.phase == Open {
        ReadAllAdds(t, more, fb, left);
      } else {
        assert more[..k'] == [];
        AddsNothing(t);
      }
      AddsBoth(s, t, u, m.tape, ReadsMean(m.mode, more[..k'], fb).tape);
    }
  }

  /** A turn reads until nothing is there, the loop has paused it, its budget is spent, or the connection is over. */
  lemma {:induction false} ReadsUntil(s: State, arrivals: seq<Read>, fb: FrameBuffer, budget: nat)
    ensures var k := ReadsTaken(s, arrivals, fb, budget); var t := ReadAll(s, arrivals, fb, budget);
            && (k == |arrivals| || t.phase != Open || t.rd.paused || arrivals[k] == Dry || ReadBytes(arrivals[..k]) >= budget)
            && (k > 0 ==> ReadBytes(arrivals[..k - 1]) < budget)
    decreases |arrivals|
  {
    hide Taken, Finished;
    var k := ReadsTaken(s, arrivals, fb, budget);
    assert arrivals[..0] == [];
    if k == 0 {
      FinishedDone(s);
    } else {
      var r := arrivals[0];
      ReadsUntil(Taken(s, r, fb), arrivals[1..], fb, Spent(budget, r));
      assert arrivals[..k][1..] == arrivals[1..][..k - 1];
      assert k > 1 ==> arrivals[..k - 1][1..] == arrivals[1..][..k - 2];
    }
  }

  function ReadBytes(rs: seq<Read>): (n: nat) {
    if rs == [] then 0 else (if rs[0].Got? then |rs[0].chunk| else 0) + ReadBytes(rs[1..])
  }

  /** When a turn's reads make a WebSocket of a connection, one of them asked for it and the books begin there. */
  lemma {:induction false} ReadAllBegins(s: State, arrivals: seq<Read>, fb: FrameBuffer, budget: nat) returns (i: nat)
    requires Ok(s) && s.phase == Open && !s.rd.ws && ReadAll(s, arrivals, fb, budget).rd.ws
    ensures i < ReadsTaken(s, arrivals, fb, budget) && BooksBegin(s, arrivals[i], ReadAll(s, arrivals, fb, budget))
    decreases |arrivals|
  {
    hide Ok, Taken, ReadMeans, Finished, Cat, OwnAll;
    FinishedReader(s);
    var r := arrivals[0];
    TakenAdds(s, r, fb);
    var t := Taken(s, r, fb);
    var more, left := arrivals[1..], Spent(budget, r);
    var u := ReadAll(t, more, fb, left);
    assert ReadAll(s, arrivals, fb, budget) == u;
    if t.phase != Open {
      AddsNothing(t);
    } else {
      ReadAllAdds(t, more, fb, left);
    }
    if t.rd.ws {
      i := 0;
    } else {
      var j := ReadAllBegins(t, more, fb, left);
      StillHttp(s, r, fb);
      i := j + 1;
    }
  }

  lemma StillHttp(s: State, r: Read, fb: FrameBuffer)
    requires Ok(s) && s.phase == Open && r.Got? && ModeOf(Taken(s, r, fb)) == Http(false)
    ensures ModeOf(s) == Http(false) && All(Taken(s, r, fb).out) == All(s.out)
  {
    TakenAdds(s, r, fb);
    hide Ok, Taken;
  }

  // ----- how bytes are cut into reads

  function Chunks(rs: seq<Read>): (r: seq<Bytes>)
    requires forall i :: 0 <= i < |rs| ==> rs[i].Got?
  {
    if rs == [] then [] else [rs[0].chunk] + Chunks(rs[1..])
  }

  lemma {:induction false} ItemsTapeSame(a: seq<Item>, b: seq<Item>, n: nat, m: nat, fb: FrameBuffer)
    requires n <= m <= |a| && a <= b
    ensures ItemsTape(a, n, m, fb) == ItemsTape(b, n, m, fb)
    decreases m
  {
    hide FrameTape, FramesIn;
    if n < m {
      ItemsTapeSame(a, b, n, m - 1, fb);
      assert a[..m] == b[..m];
    }
  }

  lemma {:induction false} ItemsTapeJoin(items: seq<Item>, n: nat, k: nat, m: nat, fb: FrameBuffer)
    requires n <= k <= m <= |items|
    ensures Join(ItemsTape(items, n, k, fb), ItemsTape(items, k, m, fb)) == ItemsTape(items, n, m, fb)
    decreases m
  {
    hide FrameTape, FramesIn;
    if k == m {
      JoinNothing(ItemsTape(items, n, k, fb));
    } else {
      ItemsTapeJoin(items, n, k, m - 1, fb);
      var last := if items[m - 1].Data? then Tape([], FramesIn(fb.completes(items[..m])), [])
                  else FrameTape(ServerFrame(0xA, items[m - 1].bytes));
      JoinAgain(ItemsTape(items, n, k, fb), ItemsTape(items, k, m - 1, fb), last);
    }
  }

  lemma JoinAgain(a: Tape, b: Tape, c: Tape)
    ensures Join(Join(a, b), c) == Join(a, Join(b, c))
  {
    Regroup(a.chunks, b.chunks, c.chunks);
    Regroup(a.notes, b.notes, c.notes);
    Regroup(a.frames, b.frames, c.frames);
  }

  lemma {:induction false} FedGrows(s: Stream, chunks: seq<Bytes>, takes: seq<Item> -> bool)
    ensures s.items <= Fed(s, chunks, takes).items
    decreases |chunks|
  {
    hide Deframed;
    if chunks != [] && !s.over {
      DeframedGrows(s.items, s.rest + chunks[0], takes);
      FedGrows(Deframed(s.items, s.rest + chunks[0], takes), chunks[1..], takes);
    }
  }

  /** The reads up to and including the one that ends the stream. */
  function UntilOver(items: seq<Item>, win: Bytes, rs: seq<Read>, fb: FrameBuffer): (k: nat)
    requires forall i :: 0 <= i < |rs| ==> rs[i].Got?
    ensures k <= |rs|
    decreases |rs|
  {
    if rs == [] then 0
    else
      var st := Deframed(items, win + rs[0].chunk, fb.takes);
      if st.over then 1 else 1 + UntilOver(st.items, st.rest, rs[1..], fb)
  }

  /** A WebSocket's reads, as far as it reads, mean what its stream yields. */
  lemma {:induction false} ReadsFeed(items: seq<Item>, win: Bytes, rs: seq<Read>, fb: FrameBuffer)
    requires forall i :: 0 <= i < |rs| ==> rs[i].Got?
    ensures var f := Fed(Stream(items, win, false), Chunks(rs), fb.takes);
            && items <= f.items
            && ReadsMean(Socket(items, win), rs[..UntilOver(items, win, rs, fb)], fb) ==
               Meant(Socket(f.items, if f.over then [] else f.rest), ItemsTape(f.items, |items|, |f.items|, fb))
    decreases |rs|
  {
    hide Deframed, ItemsTape;
    FedGrows(Stream(items, win, false), Chunks(rs), fb.takes);
    if rs == [] {
      NoItemsTape(items, fb);
    } else {
      var r, more := rs[0], rs[1..];
      var st := Deframed(items, win + r.chunk, fb.takes);
      DeframedGrows(items, win + r.chunk, fb.takes);
      assert Chunks(rs)[1..] == Chunks(more);
      if st.over {
        FedOver(st, Chunks(more), fb.takes);
        OneRead(Socket(items, win), rs, fb);
      } else {
        var k := UntilOver(st.items, st.rest, more, fb);
        assert rs[..1 + k][1..] == more[..k];
        ReadsFeed(st.items, st.rest, more, fb);
        var f := Fed(st, Chunks(more), fb.takes);
        ItemsTapeSame(st.items, f.items, |items|, |st.items|, fb);
        ItemsTapeJoin(f.items, |items|, |st.items|, |f.items|, fb);
      }
    }
  }

  lemma FedOver(s: Stream, chunks: seq<Bytes>, takes: seq<Item> -> bool)
    requires s.over
    ensures Fed(s, chunks, takes) == s
  {
  }

  lemma OneRead(m: Mode, rs: seq<Read>, fb: FrameBuffer)
    requires rs != [] && rs[0].Got?
    ensures ReadsMean(m, rs[..1], fb) == ReadMeans(m, rs[0], fb)
  {
    hide ReadMeans;
    assert rs[..1][1..] == [];
    JoinNothing(ReadMeans(m, rs[0], fb).tape);
  }

  lemma NoItemsTape(items: seq<Item>, fb: FrameBuffer)
    ensures ItemsTape(items, |items|, |items|, fb) == NOTHING
  {
  }

  /**
    However a WebSocket's bytes are cut into reads, and whether or not they end it, the loop
    is told the same and the peer is answered the same.
   */
  lemma ReportsDoNotDependOnCuts(items: seq<Item>, win: Bytes, rs: seq<Read>, rs': seq<Read>, fb: FrameBuffer)
    requires Parsed(win, MAX_FRAME).More?
    requires (forall i :: 0 <= i < |rs| ==> rs[i].Got?) && (forall i :: 0 <= i < |rs'| ==> rs'[i].Got?)
    requires Concat(Chunks(rs)) == Concat(Chunks(rs'))
    ensures ReadsMean(Socket(items, win), rs[..UntilOver(items, win, rs, fb)], fb) ==
            ReadsMean(Socket(items, win), rs'[..UntilOver(items, win, rs', fb)], fb)
  {
    hide Parsed, Deframed, ReadsMean, Fed, ItemsTape, UntilOver;
    var s := Stream(items, win, false);
    ChunkingDoesNotMatter(s, Chunks(rs), fb.takes);
    ChunkingDoesNotMatter(s, Chunks(rs'), fb.takes);
    ReadsFeed(items, win, rs, fb);
    ReadsFeed(items, win, rs', fb);
  }

  /** And no turn reads past the end of the stream, which ends the connection. */
  lemma {:induction false} ReadsWithin(s: State, arrivals: seq<Read>, fb: FrameBuffer, budget: nat)
    requires Ok(s) && s.phase == Open && s.rd.ws
    ensures var rs := arrivals[..ReadsTaken(s, arrivals, fb, budget)];
            && UntilOver(s.rd.items, s.rd.win, rs, fb) == |rs|
            && (Fed(Stream(s.rd.items, s.rd.win, false), Chunks(rs), fb.takes).over ==>
                  ReadAll(s, arrivals, fb, budget).phase == Done)
    decreases |arrivals|
  {
    hide Ok, Adds, WsTaken, ReadMeans, Deframed, Finished;
    var k := ReadsTaken(s, arrivals, fb, budget);
    if k > 0 {
      var r, more, left := arrivals[0], arrivals[1..], Spent(budget, arrivals[0]);
      WsTakenAdds(s, r, fb);
      var t := WsTaken(s, r.chunk, fb);
      WsTakenReader(s, r.chunk, fb);
      assert arrivals[..k][1..] == more[..k - 1];
      assert Chunks(arrivals[..k])[1..] == Chunks(more[..k - 1]);
      if t.phase == Open {
        ReadsWithin(t, more, fb, left);
      }
    }
  }

  lemma WsTakenReader(s: State, chunk: Bytes, fb: FrameBuffer)
    requires Ok(s) && s.rd.ws && s.phase == Open
    ensures var t := WsTaken(s, chunk, fb); var st := Deframed(s.rd.items, s.rd.win + chunk, fb.takes);
            t.rd.ws && t.rd.items == st.items && (!st.over ==> t.rd.win == st.rest)
  {
    hide Deframed, Delivered, Ok;
  }

  // ----- turns and commands

  function TurnTape(s: State, t: Turn): (r: Tape) {
    ReadsMean(ModeOf(s), t.arrivals[..ReadsTaken(s, t.arrivals, t.fb, t.budget)], t.fb).tape
  }

  lemma PumpedAdds(s: State, t: Turn, readable: bool)
    requires Ok(s) && s.phase == Open
    ensures var u := Pumped(s, t, readable);
            && Ok(u) && Adds(s, u, if readable then TurnTape(s, t) else NOTHING) && (u.phase == Open || u.phase == Done)
            && u.rd == (if readable then ReadAll(s, t.arrivals, t.fb, t.budget) else s).rd
  {
    hide Ok, Adds, Flushed, ReadAll, ReadsMean;
    var v, tape := if readable then ReadAll(s, t.arrivals, t.fb, t.budget) else s, if readable then TurnTape(s, t) else NOTHING;
    if readable {
      ReadAllAdds(s, t.arrivals, t.fb, t.budget);
    } else {
      AddsNothing(s);
    }
    FlushedAdds(v);
    FlushedMode(v);
    JoinNothing(tape);
    AddsBoth(s, v, Flushed(v), tape, NOTHING);
  }

  lemma ShookAdds(s: State, http: bool)
    requires Ok(s) && s.phase == Handshake
    ensures Ok(Shook(s, http)) && Adds(s, Shook(s, http), Tape([], [Opened(http)], []))
  {
    hide Account, WsBooks, LogOk, Notes;
    LogPost(s.events, Opened(http));
    NotesPush(s.events, Opened(http));
  }

  lemma HeldAdds(s: State)
    requires Ok(s) && s.phase == Proxy
    ensures var t := Greeted(s, Header); Ok(t) && Adds(s, t, Tape([], [Source], []))
  {
    hide Account, WsBooks, LogOk, Notes;
    LogPost(s.events, Source);
    NotesPush(s.events, Source);
  }

  /** What a turn adds: the forwarder's header, or the opening and what is then read, or what an open connection reads. */
  function ServeTape(s: State, t: Turn): (r: Tape) {
    if s.phase == Proxy && t.proxy == Header then Tape([], [Source], [])
    else if s.phase == Handshake && t.shake.Shaken? then
      Join(Tape([], [Opened(t.shake.http)], []), TurnTape(Shook(s, t.shake.http), t))
    else if s.phase == Open && t.readable then TurnTape(s, t)
    else NOTHING
  }

  lemma HandshakenAdds(s: State, t: Turn)
    requires Ok(s) && s.phase == Handshake
    ensures Ok(Handshaken(s, t)) && Adds(s, Handshaken(s, t), ServeTape(s, t))
  {
    hide Ok, Adds, Pumped, TurnTape, Finished, Notes;
    AddsNothing(s);
    FinishedAdds(s);
    if t.shake.Shaken? {
      var u := Shook(s, t.shake.http);
      ShookAdds(s, t.shake.http);
      PumpedAdds(u, t, true);
      AddsBoth(s, u, Pumped(u, t, true), Tape([], [Opened(t.shake.http)], []), TurnTape(u, t));
    }
  }

  lemma ServedAdds(s: State, t: Turn)
    requires Ok(s)
    ensures Ok(Served(s, t)) && Adds(s, Served(s, t), ServeTape(s, t))
  {
    hide Ok, Adds, Pumped, TurnTape, Finished, Notes, Handshaken;
    AddsNothing(s);
    FinishedAdds(s);
    match s.phase {
      case Proxy => HeldAdds(s);
      case Handshake => HandshakenAdds(s, t);
      case Open => PumpedAdds(s, t, t.readable);
      case _ =>
    }
  }

  lemma ShookPhase(s: State, http: bool)
    ensures Shook(s, http).phase == Open
  {
  }

  lemma GreetedPhase(s: State, act: ProxyAct)
    requires s.phase == Proxy
    ensures var p := Greeted(s, act).phase; p == Proxy || p == Hold || p == Done
  {
  }

  /** What a send adds: one binary frame on a WebSocket, its bytes elsewhere, nothing once the connection is over. */
  function SendTape(s: State, data: Bytes): (r: Tape) {
    if s.phase == Done || data == [] then NOTHING
    else if s.rd.ws then FrameTape(ServerFrame(0x2, data))
    else Tape([Chunk(data, 0)], [], [])
  }

  lemma SentOutAdds(s: State, data: Bytes, close: bool)
    requires Ok(s) && |data| < 0x1_0000_0000_0000_0000
    ensures Ok(SentOut(s, data, close)) && Adds(s, SentOut(s, data, close), SendTape(s, data))
  {
    hide Account, WsBooks, LogOk, Notes, Flushed, FrameChunk, WsHeader;
    AddsNothing(s);
    if s.phase != Done {
      if data != [] && s.rd.ws {
        FrameQueuedAdds(s, ServerFrame(0x2, data));
      } else if data != [] {
        QueuedAdds(s, Chunk(data, 0));
      }
      var t := if data == [] then s else if s.rd.ws then FrameQueued(s, ServerFrame(0x2, data)) else Queued(s, Chunk(data, 0));
      var u := t.(closeAfter := s.closeAfter || close);
      assert Ok(u) && Adds(s, u, SendTape(s, data));
      FlushedAdds(u);
      JoinNothing(SendTape(s, data));
      hide Ok, Adds;
      AddsBoth(s, u, Flushed(u), SendTape(s, data), NOTHING);
    }
  }

  /** What an operation adds to an open connection. */
  function OpTape(s: State, op: Op): (r: Tape) {
    match op
    case Serve(t) => ServeTape(s, t)
    case Do(cmd) =>
      (match cmd
       case Send(data, _) => SendTape(s, data)
       case Proceed(t) =>
         if s.phase == Hold then ServeTape(s.(phase := Handshake), t.(readable := true)) else NOTHING
       case _ => NOTHING)
    case TimesOut(head, body) => if Late(s) then Tape([Chunk(head + body, 0)], [], []) else NOTHING
    case Answers(_) => NOTHING
  }

  lemma SetAside(s: State, on: bool, socket: seq<Write>)
    requires Ok(s)
    ensures var t := s.(rd := s.rd.(paused := on)); Ok(t) && Adds(s, t, NOTHING)
    ensures var t := s.(socket := socket); Ok(t) && Adds(s, t, NOTHING)
    ensures s.phase == Hold ==> var t := s.(phase := Handshake); Ok(t) && Adds(s, t, NOTHING)
  {
    hide Account, WsBooks, LogOk, Notes;
  }

  /** Every operation adds exactly its tape, behind all that is queued and reported already. */
  lemma DidAdds(s: State, op: Op)
    requires Ok(s) && OpOk(op)
    ensures Ok(Did(s, op)) && Adds(s, Did(s, op), OpTape(s, op))
  {
    hide Ok, Adds, Served, ServeTape, SentOut, SendTape, Answered, Flushed, Notes;
    AddsNothing(s);
    match op {
      case Serve(t) => ServedAdds(s, t);
      case Do(cmd) => AppliedAdds(s, cmd);
      case TimesOut(head, body) =>
        if Late(s) {
          AnsweredAdds(s, head, body);
        }
      case Answers(socket) => SetAside(s, true, socket);
    }
  }

  lemma AppliedAdds(s: State, cmd: Command)
    requires Ok(s) && OpOk(Do(cmd))
    ensures Ok(Applied(s, cmd)) && Adds(s, Applied(s, cmd), OpTape(s, Do(cmd)))
  {
    hide Ok, Adds, Served, ServeTape, SentOut, SendTape, Answered, Flushed, Notes;
    AddsNothing(s);
    match cmd {
      case Send(data, close) => SentOutAdds(s, data, close);
      case Pause(on) => SetAside(s, on, []);
      case Proceed(turn) =>
        if s.phase == Hold {
          var t, turn' := s.(phase := Handshake), turn.(readable := true);
          SetAside(s, true, []);
          ServedAdds(t, turn');
          JoinNothing(ServeTape(t, turn'));
          AddsBoth(s, t, Served(t, turn'), NOTHING, ServeTape(t, turn'));
        }
      case Close =>
        FlushedAdds(s);
    }
  }

  // ----- runs

  ghost predicate OpsOk(ops: seq<Op>) {
    forall i :: 0 <= i < |ops| ==> OpOk(ops[i])
  }

  /** What the first `n` operations of a run add. */
  function RunTape(l: Life, ops: seq<Op>, n: nat): (r: Tape)
    requires n <= |ops|
  {
    if n == 0 then NOTHING
    else
      var t := After(l, ops, n - 1);
      Join(RunTape(l, ops, n - 1), if t.open then OpTape(t.s, ops[n - 1]) else NOTHING)
  }

  /** Over every run what is queued and what is reported is what the operations add, one after another, and nothing is taken back. */
  lemma {:induction false} RunAdds(l: Life, ops: seq<Op>, n: nat)
    requires Ok(l.s) && OpsOk(ops) && n <= |ops|
    ensures Ok(After(l, ops, n).s) && Adds(l.s, After(l, ops, n).s, RunTape(l, ops, n))
  {
    hide Ok, Adds, Did, OpTape;
    if n == 0 {
      AddsNothing(l.s);
    } else {
      RunAdds(l, ops, n - 1);
      var t := After(l, ops, n - 1);
      if t.open {
        DidAdds(t.s, ops[n - 1]);
        AddsBoth(l.s, t.s, After(l, ops, n).s, RunTape(l, ops, n - 1), OpTape(t.s, ops[n - 1]));
      } else {
        JoinNothing(RunTape(l, ops, n - 1));
      }
    }
  }

  /** The descriptor is closed by the loop's CLOSE or not at all. */
  lemma {:induction false} RunOpen(l: Life, ops: seq<Op>, n: nat)
    requires n <= |ops|
    ensures After(l, ops, n).open <==> l.open && forall i :: 0 <= i < n ==> ops[i] != Do(Close)
  {
    hide Did;
    if n > 0 {
      RunOpen(l, ops, n - 1);
    }
  }

  lemma AdoptedOk(plain: bool, viaProxy: bool, initFails: bool)
    ensures Ok(Adopted(plain, viaProxy, initFails))
  {
    hide Account, WsBooks, LogOk;
    NothingOut(Out([], 0, 0, 0, [], []));
    AdoptedLog(plain, initFails);
  }

  lemma NothingOut(o: Out)
    requires o.chunks == [] && o.popped == [] && o.wire == [] && o.off == 0 && o.queued == 0 && o.written == 0
    ensures Account(o)
  {
    hide Cat, OwnAll;
    CatNone();
  }

  lemma AdoptedLog(plain: bool, initFails: bool)
    ensures LogOk(if initFails then [Closed] else if plain then [Opened(true)] else [], !initFails)
  {
  }

  lemma LogMeans(events: seq<Event>, closedEv: bool)
    requires LogOk(events, closedEv)
    ensures forall i :: 0 <= i < |events| - 1 ==> events[i] != Closed
  {
    forall i | 0 <= i < |events| - 1 ensures events[i] != Closed {
      if !closedEv {
        assert events[i] == events[..|events| - 1][i];
      }
    }
  }

  /**
    Over every run of an adopted connection: CLOSED is reported at most once and nothing after
    it; what the socket was given is a prefix of what was queued, `queued` the rest of it, and
    `written` what of it is not the transport's own.
   */
  lemma RunMeans(l: Life, ops: seq<Op>, n: nat)
    requires Ok(l.s) && OpsOk(ops) && n <= |ops|
    ensures var t := After(l, ops, n).s;
            && (forall i :: 0 <= i < |t.events| - 1 ==> t.events[i] != Closed)
            && t.out.wire <= Cat(All(l.s.out) + RunTape(l, ops, n).chunks)
            && t.out.queued == |Cat(All(l.s.out) + RunTape(l, ops, n).chunks)| - |t.out.wire|
            && t.out.written == OwnOf(All(l.s.out) + RunTape(l, ops, n).chunks, |t.out.wire|)
  {
    RunAdds(l, ops, n);
    var t := After(l, ops, n).s;
    hide After, RunTape, Cat, OwnOf, Account, LogOk, WsBooks, Notes;
    AccountMeans(t.out);
    LogMeans(t.events, t.closedEv);
  }

  // ----- the loop's sends on a WebSocket

  ghost predicate IsSend(s: State, op: Op) {
    op.Do? && op.cmd.Send? && op.cmd.data != [] && s.phase != Done && s.rd.ws
  }

  /** The data of the loop's sends since the upgrade, but for empty ones and those after the end. */
  ghost function SendsOf(l: Life, ops: seq<Op>, n: nat): (r: seq<Bytes>)
    requires n <= |ops|
  {
    if n == 0 then []
    else
      var t := After(l, ops, n - 1);
      SendsOf(l, ops, n - 1) + (if t.open && IsSend(t.s, ops[n - 1]) then [ops[n - 1].cmd.data] else [])
  }

  lemma {:induction false} SendsConcat(a: seq<ServerFrame>, b: seq<ServerFrame>)
    ensures Sends(a + b) == Sends(a) + Sends(b)
    decreases |b|
  {
    if b == [] {
      assert a + b == a && Sends(a) + [] == Sends(a);
    } else {
      SendsConcat(a, b[..|b| - 1]);
      assert (a + b)[..|a + b| - 1] == a + b[..|b| - 1];
    }
  }

  lemma {:induction false} PongsAreNoSends(items: seq<Item>, n: nat, m: nat, fb: FrameBuffer)
    requires n <= m <= |items|
    ensures Sends(ItemsTape(items, n, m, fb).frames) == []
  {
    hide FrameChunk, FramesIn;
    if n < m {
      PongsAreNoSends(items, n, m - 1, fb);
      var last := if items[m - 1].Data? then [] else [ServerFrame(0xA, items[m - 1].bytes)];
      SendsConcat(ItemsTape(items, n, m - 1, fb).frames, last);
      assert last != [] ==> last[..0] == [];
    }
  }

  lemma {:induction false} ReadsAreNoSends(m: Mode, rs: seq<Read>, fb: FrameBuffer)
    requires forall i :: 0 <= i < |rs| ==> rs[i].Got?
    ensures Sends(ReadsMean(m, rs, fb).tape.frames) == []
    decreases |rs|
  {
    if rs != [] {
      var first := ReadMeans(m, rs[0], fb);
      assert Sends(first.tape.frames) == [] by {
        if m.Socket? {
          var st := Deframed(m.items, m.win + rs[0].chunk, fb.takes);
          DeframedGrows(m.items, m.win + rs[0].chunk, fb.takes);
          PongsAreNoSends(st.items, |m.items|, |st.items|, fb);
        }
      }
      hide ReadMeans;
      ReadsAreNoSends(first.mode, rs[1..], fb);
      SendsConcat(first.tape.frames, ReadsMean(first.mode, rs[1..], fb).tape.frames);
    }
  }

  /** Reading sends nothing of the loop's. */
  lemma ServeSends(s: State, t: Turn)
    ensures Sends(ServeTape(s, t).frames) == []
  {
    hide TurnTape, Sends;
    NoSends();
    if s.phase == Handshake && t.shake.Shaken? {
      TurnSends(Shook(s, t.shake.http), t);
    } else {
      TurnSends(s, t);
    }
  }

  lemma NoSends()
    ensures Sends([]) == [] && forall d :: Sends([ServerFrame(0x2, d)]) == [d]
  {
    forall d ensures Sends([ServerFrame(0x2, d)]) == [d] {
      assert [ServerFrame(0x2, d)][..0] == [];
    }
  }

  lemma TurnSends(s: State, t: Turn)
    ensures Sends(TurnTape(s, t).frames) == [] && [] + TurnTape(s, t).frames == TurnTape(s, t).frames
  {
    ReadsAreNoSends(ModeOf(s), t.arrivals[..ReadsTaken(s, t.arrivals, t.fb, t.budget)], t.fb);
    hide ReadsMean;
  }

  lemma OpSends(s: State, op: Op)
    ensures Sends(OpTape(s, op).frames) == if IsSend(s, op) then [op.cmd.data] else []
  {
    hide ServeTape, FrameChunk, Sends;
    NoSends();
    if op.Serve? {
      ServeSends(s, op.turn);
    } else if op.Do? && op.cmd.Proceed? {
      ServeSends(s.(phase := Handshake), op.cmd.turn.(readable := true));
    }
  }

  /** The binary frames queued on a WebSocket are the loop's sends since the upgrade, in order. */
  lemma {:induction false} FramesCarrySends(l: Life, ops: seq<Op>, n: nat)
    requires Ok(l.s) && l.s.books.frames == [] && OpsOk(ops) && n <= |ops|
    ensures Sends(After(l, ops, n).s.books.frames) == SendsOf(l, ops, n)
  {
    hide Sends, Ok, Did, OpTape, IsSend, OpOk, Notes;
    NoSends();
    if n > 0 {
      var t, op := After(l, ops, n - 1), ops[n - 1];
      FramesCarrySends(l, ops, n - 1);
      RunAdds(l, ops, n - 1);
      if t.open {
        DidAdds(t.s, op);
        OpSends(t.s, op);
        SendsConcat(t.s.books.frames, OpTape(t.s, op).frames);
      }
    }
  }

  // ----- the upgrade

  /** The turn an operation gives the connection, if it gives one. */
  function TurnOf(op: Op): (t: Option<Turn>) {
    match op
    case Serve(t) => Some(t)
    case Do(Proceed(t)) => Some(t)
    case _ => None
  }

  lemma ServedBegins(s: State, t: Turn) returns (r: Read)
    requires Ok(s) && !s.rd.ws && Served(s, t).rd.ws
    ensures r in t.arrivals && r.Got? && r.act.Upgrade?
    ensures Served(s, t).books.preamble == Cat(All(s.out)) + r.act.head && Served(s, t).books.before == OwnAll(All(s.out))
  {
    hide Ok, Flushed, ReadAll, Finished, Cat, OwnAll;
    FinishedReader(s);
    var u := if s.phase == Handshake then Shook(s, t.shake.http) else s;
    if s.phase == Handshake {
      ShookAdds(s, t.shake.http);
    }
    var v := ReadAll(u, t.arrivals, t.fb, t.budget);
    FlushedMode(u);
    FlushedMode(v);
    var i := ReadAllBegins(u, t.arrivals, t.fb, t.budget);
    r := t.arrivals[i];
  }

  /** Only a read that asks for it makes a WebSocket, and the books then begin with what was queued and its answer. */
  lemma DidBegins(s: State, op: Op) returns (r: Read)
    requires Ok(s) && OpOk(op) && !s.rd.ws && Did(s, op).rd.ws
    ensures TurnOf(op).Some? && r in TurnOf(op).value.arrivals && r.Got? && r.act.Upgrade?
    ensures Did(s, op).books.preamble == Cat(All(s.out)) + r.act.head
    ensures Did(s, op).books.before == OwnAll(All(s.out))
  {
    hide Ok, Served, Flushed, Cat, OwnAll;
    match op {
      case Serve(t) => r := ServedBegins(s, t);
      case Do(cmd) =>
        match cmd {
          case Send(data, close) => assert false by { SendStays(s, data, close); }
          case Close => assert false by { FlushedMode(s); }
          case Pause(_) => assert false;
          case Proceed(t) =>
            SetAside(s, true, []);
            r := ServedBegins(s.(phase := Handshake), t.(readable := true));
        }
      case TimesOut(head, body) => assert false by { if Late(s) { AnsweredAdds(s, head, body); } }
      case Answers(_) => assert false;
    }
  }

  lemma SendStays(s: State, data: Bytes, close: bool)
    ensures SentOut(s, data, close).rd == s.rd
  {
    hide Flushed, FrameChunk;
    if s.phase != Done {
      var t := if data == [] then s else if s.rd.ws then FrameQueued(s, ServerFrame(0x2, data)) else Queued(s, Chunk(data, 0));
      FlushedMode(t.(closeAfter := s.closeAfter || close));
    }
  }

  /** A WebSocket's books stand as they began at the operation that made it one. */
  lemma {:induction false} RunBegins(l: Life, ops: seq<Op>, n: nat) returns (i: nat, r: Read)
    requires Ok(l.s) && OpsOk(ops) && n <= |ops| && !l.s.rd.ws && After(l, ops, n).s.rd.ws
    ensures i < n && !After(l, ops, i).s.rd.ws && After(l, ops, i + 1).s.rd.ws
    ensures TurnOf(ops[i]).Some? && r in TurnOf(ops[i]).value.arrivals && r.Got? && r.act.Upgrade?
    ensures After(l, ops, n).s.books.preamble == Cat(All(l.s.out) + RunTape(l, ops, i).chunks) + r.act.head
    ensures After(l, ops, n).s.books.before == OwnAll(All(l.s.out) + RunTape(l, ops, i).chunks)
  {
    hide Ok, Did, OpTape, OpOk, Cat, OwnAll, Notes;
    var t, op := After(l, ops, n - 1), ops[n - 1];
    RunAdds(l, ops, n - 1);
    if t.s.rd.ws {
      i, r := RunBegins(l, ops, n - 1);
      DidAdds(t.s, op);
    } else {
      i := n - 1;
      r := DidBegins(t.s, op);
    }
  }

  // ----- what the peer reads

  /** Payload bytes of the answers to pings. */
  ghost function PongBytes(frames: seq<ServerFrame>): (n: nat) {
    if frames == [] then 0
    else
      var f := frames[|frames| - 1];
      PongBytes(frames[..|frames| - 1]) + if f.opcode == 0x2 then 0 else |f.payload|
  }

  ghost function TotalLength(sends: seq<Bytes>): (n: nat) {
    if sends == [] then 0 else TotalLength(sends[..|sends| - 1]) + |sends[|sends| - 1]|
  }

  lemma {:induction false} PayloadsSplit(frames: seq<ServerFrame>)
    ensures PayloadBytes(frames) == TotalLength(Sends(frames)) + PongBytes(frames)
  {
    if frames != [] {
      var init, f := frames[..|frames| - 1], frames[|frames| - 1];
      PayloadsSplit(init);
      if f.opcode == 0x2 {
        assert Sends(frames)[..|Sends(init)|] == Sends(init);
      } else {
        assert Sends(init) + [] == Sends(init);
      }
    }
  }

  lemma {:induction false} NoPongBytes(frames: seq<ServerFrame>)
    ensures PongBytes(frames) == 0 <==> forall i :: 0 <= i < |frames| && frames[i].opcode != 0x2 ==> frames[i].payload == []
  {
    if frames != [] {
      var init := frames[..|frames| - 1];
      NoPongBytes(init);
      assert forall i :: 0 <= i < |init| ==> init[i] == frames[i];
    }
  }

  lemma {:induction false} SendsPrefix(a: seq<ServerFrame>, b: seq<ServerFrame>)
    requires a <= b
    ensures Sends(a) <= Sends(b)
  {
    SendsConcat(a, b[|a|..]);
    assert b == a + b[|a|..];
  }

  /** Of whatever part of the output is written, the peer reads the first of the frames queued, whole. */
  lemma OutputPrefix(s: State)
    requires Ok(s) && s.rd.ws && |s.out.wire| >= |s.books.preamble|
    ensures s.books.preamble <= s.out.wire && ServerFrames(s.out.wire[|s.books.preamble|..]) <= s.books.frames
    ensures s.out.chunks == [] ==> ServerFrames(s.out.wire[|s.books.preamble|..]) == s.books.frames
  {
    AccountMeans(s.out);
    var wire, preamble, frames := s.out.wire, s.books.preamble, s.books.frames;
    assert s.out.chunks == [] ==> |wire| == |preamble| + |Wire(frames)| by {
      if s.out.chunks == [] {
        WrittenOut(s);
      }
    }
    hide Account, Cat, Wire, ServerFrames, OwnOf;
    var n := |wire| - |preamble|;
    assert wire == (preamble + Wire(frames))[..|wire|];
    assert wire[|preamble|..] == Wire(frames)[..n];
    PeerReadsFrames(frames, n);
  }

  lemma WrittenOut(s: State)
    requires Ok(s) && s.out.chunks == []
    ensures s.out.wire == Cat(All(s.out)) && s.out.written == OwnAll(All(s.out))
  {
    assert All(s.out) == s.out.popped;
  }

  /**
    On a WebSocket, over every run: the peer reads back, whole and in order, the first of the
    loop's sends since the upgrade, and all of them once everything is written. `written` then
    counts what was queued before, those sends and the payloads of pongs: so just the loop's
    bytes if and only if no ping that was answered carried a payload.
   */
  lemma WebSocketOutput(l: Life, ops: seq<Op>, n: nat)
    requires Ok(l.s) && !l.s.rd.ws && OpsOk(ops) && n <= |ops| && After(l, ops, n).s.rd.ws
    requires |After(l, ops, n).s.out.wire| >= |After(l, ops, n).s.books.preamble|
    ensures var t := After(l, ops, n).s; var sends := SendsOf(l, ops, n);
            var heard := ServerFrames(t.out.wire[|t.books.preamble|..]);
            && t.books.preamble <= t.out.wire && Sends(heard) <= sends
            && (t.out.chunks == [] ==>
                  && Sends(heard) == sends
                  && t.out.written == t.books.before + TotalLength(sends) + PongBytes(heard)
                  && (t.out.written == t.books.before + TotalLength(sends) <==>
                        forall i :: 0 <= i < |heard| && heard[i].opcode == 0xA ==> heard[i].payload == []))
  {
    var t := After(l, ops, n).s;
    RunAdds(l, ops, n);
    FramesCarrySends(l, ops, n);
    OutputPrefix(t);
    var heard := ServerFrames(t.out.wire[|t.books.preamble|..]);
    SendsPrefix(heard, t.books.frames);
    if t.out.chunks == [] {
      WrittenOut(t);
      PayloadsSplit(heard);
      NoPongBytes(heard);
    }
    hide After, SendsOf, Cat, OwnAll, Wire, ServerFrames, Sends, Account, LogOk, RunTape, PayloadBytes, PongBytes, TotalLength, Notes;
  }
}
