/**
  One connection on an I/O thread, as a machine over values: its life cycle, its
  output queue with partial writes, and what it reports to the event loop. What the
  socket, TLS, the HTTP parser and the frame buffer answer is given with each
  operation, any answers at all; allocation succeeds.
 */
module IoMachine {
  import opened Basics
  import opened WebSockets
  import opened OutputQueue

  datatype Event = Source | Opened(http: bool) | FrameIn(data: Bytes) | HttpReq | Written(total: nat) | Closed

  datatype Phase = Proxy | Hold | Handshake | Open | Done

  /** What a write answers: some bytes taken, none for now, or an error. */
  datatype Write = Took(n: nat) | Blocked | Broken

  /** What an HTTP connection's bytes come to: not all here yet, answered here, a request for the loop, an upgrade, or no memory. */
  datatype HttpAct = Incomplete | Answer(head: Bytes, body: Bytes) | ForLoop | Upgrade(head: Bytes) | Fails

  /** What a read answers, and what the bytes mean to the HTTP parser or, on a protocol connection, to the frame buffer. */
  datatype Read = Got(chunk: Bytes, act: HttpAct, frames: seq<Bytes>, bad: bool) | Dry | Ended

  /** The frame buffer behind a WebSocket: whether it takes what it is handed, and the frames that completes. */
  datatype FrameBuffer = FrameBuffer(takes: seq<Item> -> bool, completes: seq<Item> -> seq<Bytes>)

  /** A turn of the thread: what is there of the PROXY header, how the handshake goes, and what can be read. */
  datatype ProxyAct = NotYet | BadHeader | Header
  datatype ShakeAct = Wants | ShakeFails | Acme | Shaken(http: bool)
  datatype Turn = Turn(readable: bool, proxy: ProxyAct, shake: ShakeAct, arrivals: seq<Read>, fb: FrameBuffer, budget: nat)

  /** What the loop commands; a send may close the connection once it is written. */
  datatype Command = Send(data: Bytes, close: bool) | Pause(on: bool) | Proceed(turn: Turn) | Close

  /** All that can happen to a connection; `Answers` is the socket's next answers becoming known. */
  datatype Op = Serve(turn: Turn) | Do(cmd: Command) | TimesOut(head: Bytes, body: Bytes) | Answers(socket: seq<Write>)

  ghost predicate ReadsOk(arrivals: seq<Read>) {
    forall i :: 0 <= i < |arrivals| && arrivals[i].Got? ==> 0 < |arrivals[i].chunk| <= READ_CHUNK
  }

  ghost predicate TurnOk(t: Turn) {
    ReadsOk(t.arrivals)
  }

  ghost predicate OpOk(op: Op) {
    && (op.Serve? ==> TurnOk(op.turn))
    && (op.Do? && op.cmd.Proceed? ==> TurnOk(op.cmd.turn))
    && (op.Do? && op.cmd.Send? ==> |op.cmd.data| < 0x1_0000_0000_0000_0000)
  }

  const SOFT: nat := 256 * 1024

  /** Output, oldest first, `off` bytes of the oldest written; then the chunks written whole, and every byte written. */
  datatype Out = Out(chunks: seq<Chunk>, off: nat, queued: nat, written: nat, popped: seq<Chunk>, wire: Bytes)

  /** How a connection takes what it reads, and what a WebSocket's bytes have yielded. */
  datatype Reader = Reader(ws: bool, http: bool, httpDone: bool, paused: bool, items: seq<Item>, win: Bytes)

  /** Of a WebSocket: all that was queued up to the upgrade, and the frames queued since. */
  datatype Books = Books(preamble: Bytes, before: nat, frames: seq<ServerFrame>)

  /**
    All there is of a connection: where it is in its life; its output, and what the socket
    answers to the writes to come; what the loop has been told, and whether the event made
    at adoption is still here; how it reads; and a WebSocket's books.
   */
  datatype State = State(
    phase: Phase, closeAfter: bool, aboveSoft: bool, out: Out, socket: seq<Write>,
    events: seq<Event>, closedEv: bool, rd: Reader, books: Books)

  // ----- the books

  /** Everything ever queued, in order. */
  function All(o: Out): (r: seq<Chunk>) {
    o.popped + o.chunks
  }

  /** What has been written is a prefix of what was queued; the counters are exact. */
  ghost predicate Account(o: Out) {
    && ChunksOk(o.chunks)
    && (if o.chunks == [] then o.off == 0 && o.wire == Cat(o.popped) && o.written == OwnAll(o.popped)
        else
          && o.off <= |o.chunks[0].data|
          && o.wire == Cat(o.popped) + o.chunks[0].data[..o.off]
          && o.written == OwnAll(o.popped) + Own(o.chunks[0], o.off))
    && o.queued + o.off == |Cat(o.chunks)|
  }

  function Pushed(o: Out, c: Chunk): (r: Out) {
    o.(chunks := o.chunks + [c], queued := o.queued + |c.data|)
  }

  lemma AccountPush(o: Out, c: Chunk)
    requires Account(o) && ChunkOk(c)
    ensures Account(Pushed(o, c)) && All(Pushed(o, c)) == All(o) + [c]
  {
    CatPush(o.chunks, c);
    if o.chunks == [] {
      assert Cat(o.popped) + c.data[..0] == Cat(o.popped);
    }
  }

  lemma AccountHead(o: Out)
    requires Account(o) && o.chunks != []
    ensures o.off <= |o.chunks[0].data| && ChunksOk(o.chunks) && o.queued + o.off == |Cat(o.chunks)|
    ensures o.wire == Cat(o.popped) + o.chunks[0].data[..o.off] && o.written == OwnAll(o.popped) + Own(o.chunks[0], o.off)
    ensures o.queued >= |o.chunks[0].data| - o.off
  {
    CatHead(o.chunks);
  }

  /** What a write of up to `n` bytes takes of a chunk whose first `off` are written. */
  function Portion(c: Chunk, off: nat, n: nat): (b: Bytes)
    ensures |b| <= n && (off <= |c.data| ==> off + |b| <= |c.data|)
  {
    if off > |c.data| then [] else if off + n < |c.data| then c.data[off..off + n] else c.data[off..]
  }

  /** How many bytes of that are not the transport's own. */
  function OwnPart(c: Chunk, off: nat, k: nat): (n: nat) {
    Own(c, off + k) - Own(c, off)
  }

  function Less(a: nat, b: nat): (c: nat) {
    if a >= b then a - b else 0
  }

  /** The socket takes up to `n` bytes of the oldest chunk, which is done with once it is all written. */
  function Wrote(o: Out, n: nat): (r: Out)
    requires o.chunks != []
  {
    var c := o.chunks[0];
    var b := Portion(c, o.off, n);
    if o.off + |b| == |c.data| then
      Out(o.chunks[1..], 0, Less(o.queued, |b|), o.written + OwnPart(c, o.off, |b|), o.popped + [c], o.wire + b)
    else
      Out(o.chunks, o.off + |b|, Less(o.queued, |b|), o.written + OwnPart(c, o.off, |b|), o.popped, o.wire + b)
  }

  /** A partial write moves bytes from the queue to the wire, and nothing else. */
  lemma AccountWrite(o: Out, n: nat)
    requires Account(o) && o.chunks != []
    ensures Account(Wrote(o, n)) && All(Wrote(o, n)) == All(o) && o.wire <= Wrote(o, n).wire
  {
    AccountHead(o);
    hide Account, Cat, OwnAll, ChunksOk, Own;
    var c, b := o.chunks[0], Portion(o.chunks[0], o.off, n);
    var k := o.off + |b|;
    assert c.data[..o.off] + b == c.data[..k];
    Regroup(Cat(o.popped), c.data[..o.off], b);
    var t := Out(o.chunks, k, o.queued - |b|, o.written + OwnPart(c, o.off, |b|), o.popped, o.wire + b);
    AccountMiddle(t);
    if k == |c.data| {
      AccountPop(t);
    }
  }

  lemma AccountMiddle(o: Out)
    requires o.chunks != [] && o.off <= |o.chunks[0].data| && ChunksOk(o.chunks) && o.queued + o.off == |Cat(o.chunks)|
    requires o.wire == Cat(o.popped) + o.chunks[0].data[..o.off] && o.written == OwnAll(o.popped) + Own(o.chunks[0], o.off)
    ensures Account(o)
  {
  }

  lemma AccountPop(o: Out)
    requires Account(o) && o.chunks != [] && o.off == |o.chunks[0].data|
    ensures Account(Out(o.chunks[1..], 0, o.queued, o.written, o.popped + [o.chunks[0]], o.wire))
    ensures o.popped + [o.chunks[0]] + o.chunks[1..] == All(o)
  {
    var c, rest := o.chunks[0], o.chunks[1..];
    AccountHead(o);
    hide Cat, OwnAll, ChunksOk, Own, Account;
    TailOk(o.chunks);
    CatPush(o.popped, c);
    CatHead(o.chunks);
    assert c.data[..o.off] == c.data;
    assert [c] + rest == o.chunks;
    Regroup(o.popped, [c], rest);
    AccountBegins(Out(rest, 0, o.queued, o.written, o.popped + [c], o.wire));
  }

  lemma AccountBegins(o: Out)
    requires ChunksOk(o.chunks) && o.off == 0
    requires o.wire == Cat(o.popped) && o.written == OwnAll(o.popped) && o.queued == |Cat(o.chunks)|
    ensures Account(o)
  {
    hide Cat, OwnAll, ChunksOk;
    if o.chunks != [] {
      assert o.wire + o.chunks[0].data[..0] == o.wire;
    }
  }

  lemma TailOk(cs: seq<Chunk>)
    requires ChunksOk(cs) && cs != []
    ensures ChunksOk(cs[1..])
  {
  }

  lemma CatHead(cs: seq<Chunk>)
    requires cs != []
    ensures Cat(cs) == cs[0].data + Cat(cs[1..])
  {
    CatConcat([cs[0]], cs[1..]);
    CatOne(cs[0]);
    assert [cs[0]] + cs[1..] == cs;
  }

  /** What is left of `d` once `n` of its bytes are gone, between what came before and what comes after. */
  lemma Split(a: Bytes, d: Bytes, n: nat, b: Bytes)
    requires n <= |d|
    ensures a + (d + b) == (a + d[..n]) + (d[n..] + b)
  {
    assert d == d[..n] + d[n..];
  }

  /** Written is a prefix of queued, unwritten is the rest, and `written` counts the bytes of it that are not the transport's. */
  lemma AccountMeans(o: Out)
    requires Account(o)
    ensures o.wire <= Cat(All(o)) && o.queued == |Cat(All(o))| - |o.wire|
    ensures o.written == OwnOf(All(o), |o.wire|)
  {
    hide Cat, OwnAll, OwnOf, ChunksOk, Own;
    CatConcat(o.popped, o.chunks);
    if o.chunks == [] {
      assert All(o) == o.popped;
      OwnOfWhole(o.popped);
    } else {
      var c := o.chunks[0];
      CatHead(o.chunks);
      OwnOfNone(o.chunks[1..]);
      OwnOfPopped(o.popped, c, o.chunks[1..], o.off);
      Split(Cat(o.popped), c.data, o.off, Cat(o.chunks[1..]));
      assert o.popped + [c] + o.chunks[1..] == All(o);
    }
  }

  /** Payload bytes of a WebSocket's frames. */
  ghost function PayloadBytes(fs: seq<ServerFrame>): (n: nat) {
    if fs == [] then 0 else PayloadBytes(fs[..|fs| - 1]) + |fs[|fs| - 1].payload|
  }

  /** Everything queued since the upgrade is whole frames, each header the transport's own. */
  ghost predicate WsBooks(all: seq<Chunk>, preamble: Bytes, before: nat, frames: seq<ServerFrame>) {
    && FramesOk(frames) && Cat(all) == preamble + Wire(frames) && OwnAll(all) == before + PayloadBytes(frames)
  }

  lemma WirePush(fs: seq<ServerFrame>, f: ServerFrame)
    requires FramesOk(fs) && f.opcode < 16 && |f.payload| < 0x1_0000_0000_0000_0000
    ensures FramesOk(fs + [f]) && Wire(fs + [f]) == Wire(fs) + WsFrame(f)
    ensures PayloadBytes(fs + [f]) == PayloadBytes(fs) + |f.payload|
  {
    hide WsFrame;
    assert (fs + [f])[..|fs|] == fs;
  }

  lemma WsBooksPush(all: seq<Chunk>, preamble: Bytes, before: nat, frames: seq<ServerFrame>, f: ServerFrame)
    requires WsBooks(all, preamble, before, frames) && f.opcode < 16 && |f.payload| < 0x1_0000_0000_0000_0000
    ensures WsBooks(all + [Chunk(WsFrame(f), |WsHeader(f.opcode, |f.payload|)|)], preamble, before, frames + [f])
  {
    hide WsHeader, Wire, PayloadBytes, Cat, OwnAll;
    CatPush(all, Chunk(WsFrame(f), |WsHeader(f.opcode, |f.payload|)|));
    WirePush(frames, f);
    assert preamble + Wire(frames) + WsFrame(f) == preamble + (Wire(frames) + WsFrame(f));
  }

  lemma WsBooksStart(all: seq<Chunk>)
    ensures WsBooks(all, Cat(all), OwnAll(all), [])
  {
    assert Cat(all) + [] == Cat(all);
  }

  ghost function Sends(frames: seq<ServerFrame>): (r: seq<Bytes>) {
    if frames == [] then []
    else
      var f := frames[|frames| - 1];
      Sends(frames[..|frames| - 1]) + if f.opcode == 0x2 then [f.payload] else []
  }

  // ----- the log

  /** CLOSED at most once, and last; `closedEv`: still to be reported. */
  ghost predicate LogOk(events: seq<Event>, closedEv: bool) {
    if closedEv then Closed !in events
    else events != [] && events[|events| - 1] == Closed && Closed !in events[..|events| - 1]
  }

  lemma LogPost(events: seq<Event>, e: Event)
    requires LogOk(events, true) && e != Closed
    ensures LogOk(events + [e], true)
  {
  }

  lemma LogClose(events: seq<Event>)
    requires LogOk(events, true)
    ensures LogOk(events + [Closed], false)
  {
    assert (events + [Closed])[..|events|] == events;
  }

  // ----- output

  /** Over from this side: say so once. The socket stays open until the loop's CLOSE. */
  function Finished(s: State): (r: State) {
    if s.phase == Done then s else s.(phase := Done, events := s.events + [Closed], closedEv := false)
  }

  function Posted(s: State, e: Event): (r: State) {
    s.(events := s.events + [e])
  }

  function Queued(s: State, c: Chunk): (r: State) {
    s.(out := Pushed(s.out, c), aboveSoft := s.aboveSoft || s.out.queued + |c.data| > SOFT)
  }

  /** A frame as it is queued, its header the transport's own. */
  function FrameChunk(f: ServerFrame): (c: Chunk)
    requires f.opcode < 16
  {
    Chunk(WsFrame(f), |WsHeader(f.opcode, |f.payload|)|)
  }

  /** One WebSocket frame. */
  function FrameQueued(s: State, f: ServerFrame): (r: State)
    requires f.opcode < 16
  {
    Queued(s, FrameChunk(f)).(books := s.books.(frames := s.books.frames + [f]))
  }

  datatype Drain = Drain(out: Out, socket: seq<Write>, broken: bool)

  /** Writes until the queue is empty, the socket is full or it fails. */
  function Drained(o: Out, socket: seq<Write>): (r: Drain)
    decreases |socket|
  {
    if o.chunks == [] || socket == [] then Drain(o, socket, false)
    else
      match socket[0]
      case Blocked => Drain(o, socket[1..], false)
      case Broken => Drain(o, socket[1..], true)
      case Took(n) => Drained(Wrote(o, n), socket[1..])
  }

  /** Once the writes are done: report it when all is out or the queue has fallen to the soft limit. */
  function Reported(s: State, was: nat): (r: State) {
    if s.out.queued == was then s
    else
      var crossed := s.aboveSoft && s.out.queued <= SOFT;
      s.(events := if crossed || s.out.queued == 0 then s.events + [Written(s.out.written)] else s.events,
         aboveSoft := s.out.queued > SOFT)
  }

  /** What is queued is written, as far as the socket takes it. */
  function Flushed(s: State): (r: State) {
    if s.phase != Open then s
    else
      var d := Drained(s.out, s.socket);
      var t := s.(out := d.out, socket := d.socket);
      if d.broken then Finished(t)
      else
        var u := Reported(t, s.out.queued);
        if u.out.queued == 0 && u.closeAfter then Finished(u) else u
  }

  // ----- input

  function FramesPosted(s: State, fs: seq<Bytes>): (r: State) {
    if fs == [] then s else Posted(FramesPosted(s, fs[..|fs| - 1]), FrameIn(fs[|fs| - 1]))
  }

  /** Items `n` to `m` of a stream: frames for the loop, and answers to pings. */
  function Delivered(s: State, items: seq<Item>, n: nat, m: nat, fb: FrameBuffer): (r: State)
    requires n <= m <= |items|
  {
    if n == m then s
    else
      var t := Delivered(s, items, n, m - 1, fb);
      match items[m - 1]
      case Data(_) => FramesPosted(t, fb.completes(items[..m]))
      case Ping(p) => FrameQueued(t, ServerFrame(0xA, p))
  }

  /** A WebSocket connection's bytes. */
  function WsTaken(s: State, chunk: Bytes, fb: FrameBuffer): (r: State) {
    var st := Deframed(s.rd.items, s.rd.win + chunk, fb.takes);
    DeframedGrows(s.rd.items, s.rd.win + chunk, fb.takes);
    var t := Delivered(s, st.items, |s.rd.items|, |st.items|, fb).(rd := s.rd.(items := st.items, win := if st.over then [] else st.rest));
    if st.over then Finished(t) else t
  }

  /** From here on everything queued is frames. */
  function Switched(s: State): (r: State) {
    s.(rd := s.rd.(httpDone := true, http := false, ws := true),
       books := Books(Cat(All(s.out)), OwnAll(All(s.out)), []), events := s.events + [Opened(false)])
  }

  /** The upgrade is answered, and the connection is the binary protocol in frames. */
  function Upgraded(s: State, head: Bytes): (r: State) {
    Flushed(Switched(Queued(s, Chunk(head, |head|))))
  }

  /** An HTTP connection is answered here and finished once the answer is written. */
  function Answered(s: State, head: Bytes, body: Bytes): (r: State) {
    Flushed(Queued(s, Chunk(head + body, 0)).(rd := s.rd.(httpDone := true), closeAfter := true))
  }

  /** An HTTP connection's bytes, once the parser has said what they come to; one request, then no more is read. */
  function HttpTaken(s: State, act: HttpAct): (r: State) {
    if s.rd.httpDone then s
    else
      match act
      case Incomplete => s
      case Answer(head, body) => Answered(s, head, body)
      case ForLoop => Posted(s.(rd := s.rd.(httpDone := true)), HttpReq)
      case Upgrade(head) => Upgraded(s, head)
      case Fails => Finished(s)
  }

  /** One read's bytes, for whichever kind of connection this is. */
  function Taken(s: State, r: Read, fb: FrameBuffer): (t: State)
    requires r.Got?
  {
    if s.rd.ws then WsTaken(s, r.chunk, fb)
    else if s.rd.http then HttpTaken(s, r.act)
    else if r.bad then Finished(FramesPosted(s, r.frames))
    else FramesPosted(s, r.frames)
  }

  predicate Reads(s: State, arrivals: seq<Read>, budget: nat) {
    arrivals != [] && s.phase == Open && !s.rd.paused && budget > 0 && arrivals[0] != Dry
  }

  function Spent(budget: nat, r: Read): (left: nat)
    requires r.Got?
  {
    if |r.chunk| < budget then budget - |r.chunk| else 0
  }

  /** What is there is read, within the turn's budget. */
  function ReadAll(s: State, arrivals: seq<Read>, fb: FrameBuffer, budget: nat): (r: State)
    decreases |arrivals|
  {
    if !Reads(s, arrivals, budget) then s
    else if arrivals[0] == Ended then Finished(s)
    else ReadAll(Taken(s, arrivals[0], fb), arrivals[1..], fb, Spent(budget, arrivals[0]))
  }

  // ----- turns and commands

  function Pumped(s: State, t: Turn, readable: bool): (r: State) {
    Flushed(if readable then ReadAll(s, t.arrivals, t.fb, t.budget) else s)
  }

  function Greeted(s: State, act: ProxyAct): (r: State) {
    match act
    case NotYet => s
    case BadHeader => Finished(s)
    case Header => s.(phase := Hold, events := s.events + [Source])
  }

  /** Opened after the handshake, before anything is read. */
  function Shook(s: State, http: bool): (r: State) {
    s.(phase := Open, rd := s.rd.(http := http), events := s.events + [Opened(http)])
  }

  function Handshaken(s: State, t: Turn): (r: State) {
    match t.shake
    case Wants => s
    case ShakeFails => Finished(s)
    case Acme => Finished(s)
    case Shaken(h) => Pumped(Shook(s, h), t, true)
  }

  /** A turn of the thread: the forwarder's header, the handshake, or reading and writing. */
  function Served(s: State, t: Turn): (r: State) {
    match s.phase
    case Done => s
    case Hold => s
    case Proxy => Greeted(s, t.proxy)
    case Handshake => Handshaken(s, t)
    case Open => Pumped(s, t, t.readable)
  }

  /** A send, unless the connection is over: one binary frame on a WebSocket, the bytes themselves elsewhere. */
  function SentOut(s: State, data: Bytes, close: bool): (r: State) {
    if s.phase == Done then s
    else
      var t := if data == [] then s else if s.rd.ws then FrameQueued(s, ServerFrame(0x2, data)) else Queued(s, Chunk(data, 0));
      Flushed(t.(closeAfter := s.closeAfter || close))
  }

  function Applied(s: State, cmd: Command): (r: State) {
    match cmd
    case Send(data, close) => SentOut(s, data, close)
    case Pause(on) => s.(rd := s.rd.(paused := on))
    case Proceed(turn) => if s.phase != Hold then s else Served(s.(phase := Handshake), turn.(readable := true))
    case Close => Flushed(s)
  }

  /** An HTTP connection whose request is not whole yet. */
  predicate Late(s: State) {
    s.rd.http && !s.rd.httpDone && s.phase == Open && !s.rd.ws
  }

  /** One operation on an open connection. */
  function Did(s: State, op: Op): (r: State) {
    match op
    case Serve(turn) => Served(s, turn)
    case Do(cmd) => Applied(s, cmd)
    case TimesOut(head, body) => if Late(s) then Answered(s, head, body) else s
    case Answers(socket) => s.(socket := socket)
  }

  /** A connection and whether its descriptor is open. */
  datatype Life = Life(s: State, open: bool)

  /** The loop's CLOSE closes the descriptor; after that no operation has any effect. */
  function Performed(l: Life, op: Op): (r: Life) {
    if !l.open then l else Life(Did(l.s, op), op != Do(Close))
  }

  function After(l: Life, ops: seq<Op>, n: nat): (r: Life)
    requires n <= |ops|
  {
    if n == 0 then l else Performed(After(l, ops, n - 1), ops[n - 1])
  }

  /** Adopted: plain HTTP is open at once, a forwarder's connection begins with its header, any other with the handshake. */
  function Adopted(plain: bool, viaProxy: bool, initFails: bool): (s: State) {
    State(if initFails then Done else if plain then Open else if viaProxy then Proxy else Handshake,
          false, false, Out([], 0, 0, 0, [], []), [],
          if initFails then [Closed] else if plain then [Opened(true)] else [], !initFails,
          Reader(false, plain, false, false, [], []), Books([], 0, []))
  }
}
