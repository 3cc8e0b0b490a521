/**
  A connection as the I/O thread keeps it, changed in place. Each method does what the
  machine of `IoMachine` does to the state it holds.
 */
module IoLoop {
  import opened Basics
  import opened WebSockets
  import opened OutputQueue
  import opened IoMachine
  import opened IoRuns

  class Conn {
    var phase: Phase
    var ws: bool
    var http: bool
    var httpDone: bool
    var paused: bool
    var closeAfter: bool
    var aboveSoft: bool
    var open: bool
    /** Output, oldest first; `off` bytes of the oldest are written. */
    var chunks: seq<Chunk>
    var off: nat
    var queued: nat
    var written: nat
    /** What the loop has been told, and whether the event made at adoption is still here. */
    var events: seq<Event>
    var closedEv: bool
    /** What the socket answers to the writes to come. */
    var socket: seq<Write>
    const rcv: Receiver
    /** Chunks written whole, every byte written, and a WebSocket's books. */
    ghost var popped: seq<Chunk>
    ghost var wire: Bytes
    ghost var books: Books

    ghost function Output(): (o: Out)
      reads this`chunks, this`off, this`queued, this`written, this`popped, this`wire
    {
      Out(chunks, off, queued, written, popped, wire)
    }

    ghost function Reading(): (r: Reader)
      reads this`ws, this`http, this`httpDone, this`paused, rcv
    {
      Reader(ws, http, httpDone, paused, rcv.items, if rcv.over then [] else rcv.win)
    }

    ghost function View(): (s: State)
      reads this, rcv
    {
      State(phase, closeAfter, aboveSoft, Output(), socket, events, closedEv, Reading(), books)
    }

    ghost predicate Valid()
      reads this, rcv
    {
      Ok(View()) && (phase != Done ==> rcv.Ready())
    }

    constructor (plain: bool, viaProxy: bool, initFails: bool)
      ensures Valid() && open && View() == Adopted(plain, viaProxy, initFails) && fresh(rcv)
    {
      hide Adds, Ok;
      rcv := new Receiver();
      phase := if initFails then Done else if plain then Open else if viaProxy then Proxy else Handshake;
      ws, http, httpDone, paused, closeAfter, aboveSoft, open := false, plain, false, false, false, false, true;
      chunks, off, queued, written := [], 0, 0, 0;
      events := if initFails then [Closed] else if plain then [Opened(true)] else [];
      closedEv := !initFails;
      socket := [];
      popped, wire, books := [], [], Books([], 0, []);
      new;
      AdoptedOk(plain, viaProxy, initFails);
    }

    /** Over from this side: say so once. */
    method Finish()
      modifies this`phase, this`events, this`closedEv
      ensures View() == Finished(old(View()))
    {
      if phase == Done {
        return;
      }
      phase := Done;
      events := events + [Closed];
      closedEv := false;
    }

    method Post(e: Event)
      modifies this`events
      ensures View() == Posted(old(View()), e)
    {
      events := events + [e];
    }

    method QueueRaw(c: Chunk)
      modifies this`chunks, this`queued, this`aboveSoft
      ensures View() == Queued(old(View()), c)
    {
      chunks := chunks + [c];
      queued := queued + |c.data|;
      if queued > SOFT {
        aboveSoft := true;
      }
    }

    /** Queue one WebSocket frame. */
    method WsQueue(opcode: nat, data: Bytes)
      requires opcode < 16
      modifies this`chunks, this`queued, this`aboveSoft, this`books
      ensures View() == FrameQueued(old(View()), ServerFrame(opcode, data))
    {
      hide WsHeader, Queued;
      var h := WsHeader(opcode, |data|);
      QueueRaw(Chunk(h + data, |h|));
      books := books.(frames := books.frames + [ServerFrame(opcode, data)]);
    }

    /** The socket takes up to `n` bytes of the oldest chunk. */
    method WriteSome(n: nat)
      requires Account(Output()) && chunks != []
      modifies this`chunks, this`off, this`queued, this`written, this`wire, this`popped
      ensures Account(Output()) && Output() == Wrote(old(Output()), n)
    {
      hide Adds, Account, Own, OwnPart, Wrote, Cat, OwnAll, ChunksOk, All, Portion;
      AccountWrite(Output(), n);
      AccountHead(Output());
      WroteIs(Output(), n);
      var c := chunks[0];
      var k := if n < |c.data| - off then n else |c.data| - off;
      written := written + OwnPart(c, off, k);
      queued := queued - k;
      wire := wire + c.data[off..off + k];
      if off + k == |c.data| {
        chunks, off, popped := chunks[1..], 0, popped + [c];
      } else {
        off := off + k;
      }
    }

    method DrainQueue() returns (broken: bool)
      requires Account(Output())
      modifies this`chunks, this`off, this`queued, this`written, this`wire, this`popped, this`socket
      ensures Account(Output()) && Drain(Output(), socket, broken) == Drained(old(Output()), old(socket))
    {
      hide Account, Wrote;
      while chunks != [] && socket != []
        invariant Account(Output()) && Drained(Output(), socket) == Drained(old(Output()), old(socket))
        decreases |socket|
      {
        var w := socket[0];
        socket := socket[1..];
        if w == Blocked {
          return false;
        }
        if w == Broken {
          return true;
        }
        WriteSome(w.n);
      }
      return false;
    }

    method Report(was: nat)
      modifies this`events, this`aboveSoft
      ensures View() == Reported(old(View()), was)
    {
      if queued != was {
        var crossed := aboveSoft && queued <= SOFT;
        if crossed || queued == 0 {
          events := events + [Written(written)];
        }
        aboveSoft := queued > SOFT;
      }
    }

    /** Write what is queued, as far as the socket takes it. */
    method Flush()
      requires Account(Output())
      modifies this`chunks, this`off, this`queued, this`written, this`wire, this`popped, this`socket,
               this`phase, this`events, this`closedEv, this`aboveSoft
      ensures View() == Flushed(old(View()))
    {
      hide Account, Drained, Finished, Reported, Conn.Reading;
      if phase != Open {
        return;
      }
      var was := queued;
      var broken := DrainQueue();
      if broken {
        Finish();
        return;
      }
      Report(was);
      Settle();
    }

    /** A connection that was to close once its output is written. */
    method Settle()
      modifies this`phase, this`events, this`closedEv
      ensures View() == if queued == 0 && closeAfter then Finished(old(View())) else old(View())
    {
      if queued == 0 && closeAfter {
        Finish();
      }
    }

    // ----- input

    method PostFrames(fs: seq<Bytes>)
      modifies this`events
      ensures View() == FramesPosted(old(View()), fs)
    {
      for i := 0 to |fs|
        invariant View() == FramesPosted(old(View()), fs[..i])
      {
        hide Posted;
        Post(FrameIn(fs[i]));
        assert fs[..i + 1][..i] == fs[..i];
      }
      assert fs[..|fs|] == fs;
    }

    /** What items `n` on of a stream mean: frames for the loop, and answers to pings. */
    method Deliver(items: seq<Item>, n: nat, fb: FrameBuffer)
      requires n <= |items|
      modifies this`events, this`chunks, this`queued, this`aboveSoft, this`books
      ensures View() == Delivered(old(View()), items, n, |items|, fb)
    {
      for i := n to |items|
        invariant View() == Delivered(old(View()), items, n, i, fb)
      {
        hide FramesPosted, FrameQueued;
        match items[i] {
          case Data(_) => PostFrames(fb.completes(items[..i + 1]));
          case Ping(p) => WsQueue(0xA, p);
        }
      }
    }

    /** A WebSocket connection's bytes. */
    method WsBytes(chunk: Bytes, fb: FrameBuffer)
      requires rcv.Ready() && |chunk| <= READ_CHUNK
      modifies this, rcv
      ensures View() == WsTaken(old(View()), chunk, fb) && open == old(open)
      ensures phase != Done ==> rcv.Ready()
    {
      hide Deframed, Delivered, Parsed;
      DeframedGrows(rcv.items, rcv.win + chunk, fb.takes);
      var n := |rcv.items|;
      ghost var s := View();
      rcv.Receive(chunk, fb.takes);
      DeliveredRest(s, Reading(), rcv.items, n, |rcv.items|, fb);
      Deliver(rcv.items, n, fb);
      if rcv.over {
        Finish();
      }
    }

    /** The upgrade is answered, and from then on everything queued is frames. */
    method OpenWs(head: Bytes)
      requires Account(Output())
      modifies this
      ensures View() == Upgraded(old(View()), head) && open == old(open)
    {
      hide Account, Flushed, Cat, OwnAll, Queued;
      AccountPush(Output(), Chunk(head, |head|));
      QueueRaw(Chunk(head, |head|));
      QueuedOut(old(View()), Chunk(head, |head|));
      Switch();
      Flush();
    }

    method Switch()
      modifies this`httpDone, this`http, this`ws, this`books, this`events
      ensures View() == Switched(old(View()))
    {
      hide Cat, OwnAll, All, Conn.Output, Conn.Reading;
      books := Books(Cat(All(Output())), OwnAll(All(Output())), []);
      ReadAsWs();
      Post(Opened(false));
    }

    method ReadAsWs()
      modifies this`httpDone, this`http, this`ws
      ensures Reading() == old(Reading()).(httpDone := true, http := false, ws := true)
    {
      httpDone, http, ws := true, false, true;
    }

    /** Answer an HTTP connection here and finish it once the answer is written. */
    method AnswerHttp(head: Bytes, body: Bytes)
      requires Account(Output())
      modifies this
      ensures View() == Answered(old(View()), head, body) && open == old(open)
    {
      hide Account, Flushed, Queued;
      AccountPush(Output(), Chunk(head + body, 0));
      QueuedOut(View(), Chunk(head + body, 0));
      QueueLast(Chunk(head + body, 0));
      Flush();
    }

    /** Queue an HTTP connection's answer, after which it closes. */
    method QueueLast(c: Chunk)
      modifies this`chunks, this`queued, this`aboveSoft, this`httpDone, this`closeAfter
      ensures View() == Queued(old(View()), c).(rd := old(Reading()).(httpDone := true), closeAfter := true)
    {
      hide Queued;
      QueueRaw(c);
      httpDone, closeAfter := true, true;
    }

    /** An HTTP connection's bytes, once the parser has said what they come to. */
    method HttpBytes(act: HttpAct)
      requires Account(Output())
      modifies this
      ensures View() == HttpTaken(old(View()), act) && open == old(open)
    {
      hide Account, Upgraded, Answered, Finished;
      if httpDone {
        return;
      }
      match act {
        case Incomplete =>
        case Answer(head, body) => AnswerHttp(head, body);
        case ForLoop =>
          httpDone := true;
          Post(HttpReq);
        case Upgrade(head) => OpenWs(head);
        case Fails => Finish();
      }
    }

    /** One read's bytes, for whichever kind of connection this is. */
    method TakeIn(r: Read, fb: FrameBuffer)
      requires Valid() && phase == Open && r.Got? && |r.chunk| <= READ_CHUNK
      modifies this, rcv
      ensures Valid() && View() == Taken(old(View()), r, fb) && open == old(open)
    {
      hide Adds, Ok, Account, WsTaken, HttpTaken, FramesPosted, Finished;
      TakenAdds(View(), r, fb);
      OkAccount(View());
      if ws {
        WsBytes(r.chunk, fb);
      } else if http {
        HttpBytes(r.act);
      } else {
        PostFrames(r.frames);
        if r.bad {
          Finish();
        }
      }
    }

    /** Read what is there, within the turn's budget. */
    method ReadSome(arrivals: seq<Read>, fb: FrameBuffer, budget: nat)
      requires Valid() && phase == Open && ReadsOk(arrivals)
      modifies this, rcv
      ensures Valid() && View() == ReadAll(old(View()), arrivals, fb, budget) && open == old(open)
    {
      hide Adds, Ok, Taken, Finished;
      var left: nat := budget;
      var i := 0;
      while i < |arrivals| && phase == Open && !paused && left > 0
        invariant 0 <= i <= |arrivals| && Valid() && open == old(open)
        invariant ReadAll(View(), arrivals[i..], fb, left) == ReadAll(old(View()), arrivals, fb, budget)
      {
        var r := arrivals[i];
        assert arrivals[i..][0] == r && arrivals[i..][1..] == arrivals[i + 1..];
        if r == Dry {
          return;
        }
        if r == Ended {
          FinishedAdds(View());
          Finish();
          return;
        }
        TakeIn(r, fb);
        left := if |r.chunk| < left then left - |r.chunk| else 0;
        i := i + 1;
      }
    }

    // ----- turns and commands

    /** An open connection's turn: read, then write. */
    method Pump(t: Turn, readable: bool)
      requires Valid() && phase == Open && TurnOk(t)
      modifies this, rcv
      ensures Valid() && View() == Pumped(old(View()), t, readable) && open == old(open)
    {
      hide Adds, Ok, Account, ReadAll, Flushed;
      PumpedAdds(View(), t, readable);
      if readable {
        ReadSome(t.arrivals, t.fb, t.budget);
      }
      OkAccount(View());
      FlushedPhase(View());
      Flush();
    }

    /** What is there of the forwarder's header. */
    method TakeHeader(act: ProxyAct)
      requires phase == Proxy
      modifies this`phase, this`events, this`closedEv
      ensures View() == Greeted(old(View()), act)
    {
      match act {
        case NotYet =>
        case BadHeader => Finish();
        case Header =>
          // the loop may refuse the client the header names: wait for its word
          phase := Hold;
          events := events + [Source];
      }
    }

    /** How the handshake goes. */
    method Shake(t: Turn)
      requires Valid() && phase == Handshake && TurnOk(t)
      modifies this, rcv
      ensures Valid() && View() == Handshaken(old(View()), t) && open == old(open)
    {
      hide Adds, Ok, Pumped, Finished, TurnOk, Shook;
      ShookPhase(View(), true);
      ShookPhase(View(), false);
      HandshakenAdds(View(), t);
      match t.shake {
        case Wants =>
        case ShakeFails => Finish();
        case Acme => Finish();
        case Shaken(h) =>
          ShookAdds(View(), h);
          OpenUp(h);
          Pump(t, true);
      }
    }

    method OpenUp(h: bool)
      modifies this`phase, this`http, this`events
      ensures View() == Shook(old(View()), h)
    {
      phase, http, events := Open, h, events + [Opened(h)];
    }

    method Service(t: Turn)
      requires Valid() && TurnOk(t)
      modifies this, rcv
      ensures Valid() && View() == Served(old(View()), t) && open == old(open)
      ensures Adds(old(View()), View(), ServeTape(old(View()), t))
    {
      hide Adds, Ok, Pumped, Finished, TurnOk, Greeted, Handshaken;
      ServedAdds(View(), t);
      match phase {
        case Done =>
        case Hold =>
        case Proxy =>
          GreetedPhase(View(), t.proxy);
          TakeHeader(t.proxy);
        case Handshake => Shake(t);
        case Open => Pump(t, t.readable);
      }
    }

    /** Queue a send, unless the connection is over, and write what can be written. */
    method SendOut(data: Bytes, close: bool)
      requires Valid() && |data| < 0x1_0000_0000_0000_0000
      modifies this
      ensures Valid() && View() == SentOut(old(View()), data, close) && open == old(open)
    {
      hide Adds, Ok, Account, Flushed, Queued, FrameQueued, FrameChunk;
      SentOutAdds(View(), data, close);
      OkAccount(View());
      if phase == Done {
        return;
      }
      if data != [] {
        QueueSend(data);
      }
      closeAfter := closeAfter || close;
      FlushedPhase(View());
      Flush();
    }

    /** On a WebSocket each send is one binary frame. */
    method QueueSend(data: Bytes)
      requires Account(Output())
      modifies this`chunks, this`queued, this`aboveSoft, this`books
      ensures Account(Output())
      ensures View() == if ws then FrameQueued(old(View()), ServerFrame(0x2, data)) else Queued(old(View()), Chunk(data, 0))
    {
      hide Account, Queued, WsHeader;
      if ws {
        ghost var f := ServerFrame(0x2, data);
        AccountPush(Output(), FrameChunk(f));
        QueuedOut(View(), FrameChunk(f));
        WsQueue(0x2, data);
      } else {
        AccountPush(Output(), Chunk(data, 0));
        QueuedOut(View(), Chunk(data, 0));
        QueueRaw(Chunk(data, 0));
      }
    }

    /** The loop's word to go on with a connection it was told of. */
    method Resume(turn: Turn)
      requires Valid() && phase == Hold && TurnOk(turn)
      modifies this, rcv
      ensures Valid() && View() == Served(old(View()).(phase := Handshake), turn.(readable := true)) && open == old(open)
    {
      hide Adds, Ok, Account, Served, SentOut, Flushed, OpTape;
      SetAside(View(), true, []);
      phase := Handshake;
      Service(turn.(readable := true));
    }

    /** A command from the loop. */
    method Apply(cmd: Command)
      requires Valid() && OpOk(Do(cmd))
      modifies this, rcv
      ensures Valid() && View() == Applied(old(View()), cmd) && open == (old(open) && cmd != Close)
      ensures Adds(old(View()), View(), OpTape(old(View()), Do(cmd)))
    {
      hide Adds, Ok, Account, Served, SentOut, Flushed, OpTape;
      AppliedAdds(View(), cmd);
      OkAccount(View());
      match cmd {
        case Send(data, close) => SendOut(data, close);
        case Pause(on) => paused := on;
        case Proceed(turn) =>
          if phase == Hold {
            Resume(turn);
          }
        case Close =>
          FlushedPhase(View());
          Flush();
          open := false;
      }
    }

    /** One operation; a connection that is closed answers none. */
    method Perform(op: Op)
      requires Valid() && OpOk(op)
      modifies this, rcv
      ensures Valid() && Life(View(), open) == Performed(old(Life(View(), open)), op)
      ensures Adds(old(View()), View(), if old(open) then OpTape(old(View()), op) else NOTHING)
    {
      hide Adds, Ok, Account, Served, Applied, Answered, OpTape;
      DidAdds(View(), op);
      OkAccount(View());
      AddsNothing(View());
      if !open {
        return;
      }
      match op {
        case Serve(turn) => Service(turn);
        case Do(cmd) => Apply(cmd);
        case TimesOut(head, body) =>
          if http && !httpDone && phase == Open && !ws {
            AnswerHttp(head, body);
          }
        case Answers(answers) => socket := answers;
      }
    }
  }

  /**
    Any run of a connection. Its history is what the operations add one after another; what
    was written is a prefix of that, and the counters are exact; CLOSED is reported at most
    once and last; and the descriptor is closed by the loop's CLOSE or not at all.
   */
  method Run(c: Conn, ops: seq<Op>)
    requires c.Valid() && OpsOk(ops)
    modifies c, c.rcv
    ensures c.Valid() && Life(c.View(), c.open) == After(old(Life(c.View(), c.open)), ops, |ops|)
    ensures var tape := RunTape(old(Life(c.View(), c.open)), ops, |ops|);
            c.popped + c.chunks == old(c.popped + c.chunks) + tape.chunks && Notes(c.events) == Notes(old(c.events)) + tape.notes
    ensures old(c.events) <= c.events && forall i :: 0 <= i < |c.events| - 1 ==> c.events[i] != Closed
    ensures c.wire <= Cat(c.popped + c.chunks) && c.queued == |Cat(c.popped + c.chunks)| - |c.wire|
    ensures c.written == OwnOf(c.popped + c.chunks, |c.wire|)
    ensures c.open <==> old(c.open) && forall i :: 0 <= i < |ops| ==> ops[i] != Do(Close)
  {
    hide Ok, Did, RunTape, Cat, OwnOf, Notes, OpTape;
    ghost var l := Life(c.View(), c.open);
    RunAdds(l, ops, |ops|);
    RunMeans(l, ops, |ops|);
    RunOpen(l, ops, |ops|);
    var n := 0;
    while n < |ops|
      invariant n <= |ops| && c.Valid() && Life(c.View(), c.open) == After(l, ops, n)
    {
      c.Perform(ops[n]);
      n := n + 1;
    }
  }
}
