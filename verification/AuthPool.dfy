/**
  The auth pool: password checks handed to a few threads through a linked
  queue, as a machine whose steps are what each thread does under the mutex and
  its calls of `done`. Submitters, workers, holding and stopping interleave
  freely.
 */
module AuthPool {
  import opened Basics

  type Check = nat
  type Ptr = Option<Check>

  /** A worker: waiting on the condition, busy with a check, or gone. */
  datatype Worker = Waiting | Busy(check: Check) | Gone

  /** Where a submitted check is: queued, with a worker, with the thread stopping the pool, with its own submitter, or back. */
  datatype Place = Queued | With(worker: nat) | Leftover | Bounced | Back

  /** 1 matched, 0 did not, -1 never checked. */
  datatype Answer = Matched | Mismatched | NeverChecked

  /** The history of one check: where it is, whether a worker ever took it, and how often and with what it came back. */
  datatype Card = Card(place: Place, taken: bool, times: nat, answer: Option<Answer>)

  datatype State = State(
    head: Ptr, tail: Ptr, next: map<Check, Ptr>, waiting: nat, stop: bool, hold: bool, workers: map<nat, Worker>,
    // the stopping thread's own list, and whether it has freed the pool
    rest: Ptr, freed: bool,
    // history: the queue and the leftovers as sequences, all ever queued and all ever started, in order,
    // and every check ever submitted
    queue: seq<Check>, leftovers: seq<Check>, enqueued: seq<Check>, started: seq<Check>, cards: map<Check, Card>)

  datatype Step =
    | Submit(c: Check)
    | Bounce(c: Check)
    | Hold(on: bool)
    | Start(w: nat)
    | Finish(w: nat, ok: bool)
    | Leave(w: nat)
    | Stop
    | GiveBack
    | Free

  /** `done` is called with a check. */
  function Returned(k: Card, a: Answer): (r: Card) {
    k.(place := Back, times := k.times + 1, answer := Some(a))
  }

  ghost predicate Next(s: State, step: Step, t: State) {
    match step
    case Submit(c) =>
      // the pool is not used once freed, and a check handed over is the pool's until it is back
      && !s.freed && c !in s.cards
      && t == if s.stop then s.(next := s.next[c := None], cards := s.cards[c := Card(Bounced, false, 0, None)])
              else s.(next := if s.tail.Some? then s.next[c := None][s.tail.value := Some(c)] else s.next[c := None],
                      head := if s.tail.Some? then s.head else Some(c), tail := Some(c), waiting := s.waiting + 1,
                      queue := s.queue + [c], enqueued := s.enqueued + [c],
                      cards := s.cards[c := Card(Queued, false, 0, None)])
    case Bounce(c) => c in s.cards && s.cards[c].place == Bounced && t == s.(cards := s.cards[c := Returned(s.cards[c], NeverChecked)])
    case Hold(on) => !s.freed && t == s.(hold := on)
    case Start(w) =>
      && w in s.workers && s.workers[w] == Waiting && !s.stop && s.head.Some? && !s.hold
      && var c := s.head.value;
      && c in s.next && c in s.cards && s.waiting > 0 && s.queue != []
      && t == s.(head := s.next[c], tail := if s.next[c].None? then None else s.tail, waiting := s.waiting - 1,
                 workers := s.workers[w := Busy(c)], queue := s.queue[1..], started := s.started + [c],
                 cards := s.cards[c := s.cards[c].(place := With(w), taken := true)])
    case Finish(w, ok) =>
      && w in s.workers && s.workers[w].Busy?
      && var c := s.workers[w].check;
      && c in s.cards
      && t == s.(workers := s.workers[w := Waiting],
                 cards := s.cards[c := Returned(s.cards[c], if ok then Matched else Mismatched)])
    case Leave(w) => w in s.workers && s.workers[w] == Waiting && s.stop && t == s.(workers := s.workers[w := Gone])
    case Stop =>
      && !s.stop && !s.freed
      && t == s.(stop := true, rest := s.head, head := None, tail := None, waiting := 0, queue := [], leftovers := s.queue,
                 cards := map c | c in s.cards :: if s.cards[c].place == Queued then s.cards[c].(place := Leftover) else s.cards[c])
    case GiveBack =>
      && s.rest.Some?
      && var c := s.rest.value;
      && c in s.next && c in s.cards && s.leftovers != []
      && t == s.(rest := s.next[c], leftovers := s.leftovers[1..], cards := s.cards[c := Returned(s.cards[c], NeverChecked)])
    case Free => s.stop && !s.freed && s.rest.None? && (forall w :: w in s.workers ==> s.workers[w] == Gone) && t == s.(freed := true)
  }

  ghost predicate Init(s: State) {
    && s.head.None? && s.tail.None? && s.next == map[] && s.waiting == 0 && !s.stop && !s.hold && s.rest.None? && !s.freed
    && s.workers != map[] && (forall w :: w in s.workers ==> s.workers[w] == Waiting)
    && s.queue == [] && s.leftovers == [] && s.enqueued == [] && s.started == [] && s.cards == map[]
  }

  ghost predicate Goes(run: seq<State>, steps: seq<Step>, i: nat)
    requires i < |steps| && |run| == |steps| + 1
  {
    Next(run[i], steps[i], run[i + 1])
  }

  /** A run: from a first state, each state the next one's by the step between them. */
  ghost predicate IsRun(run: seq<State>, steps: seq<Step>) {
    && |run| == |steps| + 1 && Init(run[0])
    && forall i :: 0 <= i < |steps| ==> Goes(run, steps, i)
  }

  // ----- what every reachable state keeps

  function Successor(l: seq<Check>, i: nat): (p: Ptr)
    requires i < |l|
  {
    if i + 1 == |l| then None else Some(l[i + 1])
  }

  /** `l` is the list linked from `p`. */
  ghost predicate Linked(p: Ptr, l: seq<Check>, next: map<Check, Ptr>) {
    && p == (if l == [] then None else Some(l[0]))
    && (forall i :: 0 <= i < |l| ==> l[i] in next && next[l[i]] == Successor(l, i))
    && (forall i, j :: 0 <= i < j < |l| ==> l[i] != l[j])
  }

  ghost predicate QueueOk(s: State) {
    && Linked(s.head, s.queue, s.next) && Linked(s.rest, s.leftovers, s.next)
    && s.tail == (if s.queue == [] then None else Some(s.queue[|s.queue| - 1]))
    && s.waiting == |s.queue|
    && (s.stop ==> s.queue == []) && (!s.stop ==> s.leftovers == [])
    && s.started <= s.enqueued && (!s.stop ==> s.enqueued == s.started + s.queue)
  }

  /** A check is back when, and only when, `done` was called with it, which was once. */
  ghost predicate CardOk(k: Card, stop: bool) {
    && k.times == (if k.place == Back then 1 else 0)
    && (k.answer.Some? <==> k.place == Back)
    && (k.taken <==> k.place.With? || (k.place == Back && k.answer != Some(NeverChecked)))
    && (k.place == Bounced ==> stop)
  }

  ghost predicate Listed(l: seq<Check>, p: Place, cards: map<Check, Card>) {
    forall c :: c in l <==> c in cards && cards[c].place == p
  }

  ghost predicate WorkersOk(workers: map<nat, Worker>, cards: map<Check, Card>) {
    && (forall w :: w in workers && workers[w].Busy? ==> workers[w].check in cards && cards[workers[w].check].place == With(w))
    && (forall c :: c in cards && cards[c].place.With? ==> cards[c].place.worker in workers && workers[cards[c].place.worker] == Busy(c))
  }

  ghost predicate Inv(s: State) {
    && QueueOk(s)
    && (forall c :: c in s.cards ==> CardOk(s.cards[c], s.stop))
    && Listed(s.queue, Queued, s.cards) && Listed(s.leftovers, Leftover, s.cards) && WorkersOk(s.workers, s.cards)
    && (s.freed ==> s.stop && s.leftovers == [] && forall w :: w in s.workers ==> s.workers[w] == Gone)
  }

  lemma LinkedPush(p: Ptr, l: seq<Check>, next: map<Check, Ptr>, c: Check)
    requires Linked(p, l, next) && c !in l
    ensures Linked(if l == [] then Some(c) else p, l + [c],
                   if l == [] then next[c := None] else next[c := None][l[|l| - 1] := Some(c)])
  {
  }

  lemma LinkedPop(p: Ptr, l: seq<Check>, next: map<Check, Ptr>)
    requires Linked(p, l, next) && l != []
    ensures p == Some(l[0]) && l[0] in next && Linked(next[l[0]], l[1..], next)
    ensures forall c :: c in l[1..] <==> c in l && c != l[0]
    ensures next[l[0]].None? <==> |l| == 1
  {
    var m := l[1..];
    forall i | 0 <= i < |m| ensures m[i] in next && next[m[i]] == Successor(m, i) {
      assert next[l[i + 1]] == Successor(l, i + 1);
    }
    assert next[l[0]] == Successor(l, 0);
  }

  lemma LinkedElsewhere(p: Ptr, l: seq<Check>, next: map<Check, Ptr>, c: Check, q: Ptr)
    requires Linked(p, l, next) && c !in l
    ensures Linked(p, l, next[c := q])
  {
  }

  lemma EmptyLinked(next: map<Check, Ptr>)
    ensures Linked(None, [], next)
  {
  }

  /** What is at `p` once check `c`'s card becomes `k`. */
  lemma ListedAfter(l: seq<Check>, m: seq<Check>, p: Place, cards: map<Check, Card>, c: Check, k: Card)
    requires Listed(l, p, cards)
    requires forall d :: d in m <==> (d in l && d != c) || (d == c && k.place == p)
    ensures Listed(m, p, cards[c := k])
  {
  }

  lemma ListedPlace(l: seq<Check>, p: Place, cards: map<Check, Card>, c: Check)
    requires Listed(l, p, cards)
    ensures c in l <==> c in cards && cards[c].place == p
  {
  }

  lemma WorkersElsewhere(workers: map<nat, Worker>, cards: map<Check, Card>, c: Check, k: Card)
    requires WorkersOk(workers, cards) && !k.place.With? && (c in cards ==> !cards[c].place.With?)
    ensures WorkersOk(workers, cards[c := k])
  {
  }

  lemma WorkerStarts(workers: map<nat, Worker>, cards: map<Check, Card>, w: nat, c: Check, k: Card)
    requires WorkersOk(workers, cards) && w in workers && !workers[w].Busy? && c in cards && !cards[c].place.With?
    requires k.place == With(w)
    ensures WorkersOk(workers[w := Busy(c)], cards[c := k])
  {
  }

  lemma WorkerFinishes(workers: map<nat, Worker>, cards: map<Check, Card>, w: nat, k: Card)
    requires WorkersOk(workers, cards) && w in workers && workers[w].Busy? && !k.place.With?
    ensures workers[w].check in cards && cards[workers[w].check].place == With(w)
    ensures WorkersOk(workers[w := Waiting], cards[workers[w].check := k])
  {
  }

  lemma WorkerLeaves(workers: map<nat, Worker>, cards: map<Check, Card>, w: nat)
    requires WorkersOk(workers, cards) && w in workers && !workers[w].Busy?
    ensures WorkersOk(workers[w := Gone], cards)
  {
  }

  lemma SubmitOk(s: State, c: Check, t: State)
    requires Inv(s) && Next(s, Submit(c), t)
    ensures Inv(t)
  {
    hide Linked, Listed, WorkersOk;
    ListedPlace(s.queue, Queued, s.cards, c);
    ListedPlace(s.leftovers, Leftover, s.cards, c);
    ListedAfter(s.queue, t.queue, Queued, s.cards, c, t.cards[c]);
    ListedAfter(s.leftovers, t.leftovers, Leftover, s.cards, c, t.cards[c]);
    WorkersElsewhere(s.workers, s.cards, c, t.cards[c]);
    EmptyLinked(t.next);
    NoneIsEmpty(s);
    if s.stop {
      LinkedElsewhere(s.rest, s.leftovers, s.next, c, None);
    } else {
      LinkedPush(s.head, s.queue, s.next, c);
      assert s.enqueued + [c] == s.started + (s.queue + [c]);
    }
  }

  lemma NoneIsEmpty(s: State)
    requires QueueOk(s)
    ensures (s.head.None? <==> s.queue == []) && (s.rest.None? <==> s.leftovers == [])
  {
  }

  lemma StartOk(s: State, w: nat, t: State)
    requires Inv(s) && Next(s, Start(w), t)
    ensures Inv(t)
  {
    hide Linked, Listed, WorkersOk;
    LinkedPop(s.head, s.queue, s.next);
    var c := s.queue[0];
    FirstMoves(s.started, s.queue);
    ListedPlace(s.queue, Queued, s.cards, c);
    ListedPlace(s.leftovers, Leftover, s.cards, c);
    assert c in s.queue;
    ListedAfter(s.queue, t.queue, Queued, s.cards, c, t.cards[c]);
    ListedAfter(s.leftovers, t.leftovers, Leftover, s.cards, c, t.cards[c]);
    WorkerStarts(s.workers, s.cards, w, c, t.cards[c]);
  }

  lemma FirstMoves(a: seq<Check>, b: seq<Check>)
    requires b != []
    ensures a + b == (a + [b[0]]) + b[1..] && a + [b[0]] <= a + b
  {
  }

  lemma GiveBackOk(s: State, t: State)
    requires Inv(s) && Next(s, GiveBack, t)
    ensures Inv(t)
  {
    hide Linked, Listed, WorkersOk;
    LinkedPop(s.rest, s.leftovers, s.next);
    var c := s.leftovers[0];
    assert c in s.leftovers;
    ListedPlace(s.queue, Queued, s.cards, c);
    ListedPlace(s.leftovers, Leftover, s.cards, c);
    ListedAfter(s.queue, t.queue, Queued, s.cards, c, t.cards[c]);
    ListedAfter(s.leftovers, t.leftovers, Leftover, s.cards, c, t.cards[c]);
    WorkersElsewhere(s.workers, s.cards, c, t.cards[c]);
  }

  lemma StopOk(s: State, t: State)
    requires Inv(s) && Next(s, Stop, t)
    ensures Inv(t)
  {
    hide Linked;
    EmptyLinked(s.next);
    assert Listed(t.queue, Queued, t.cards) && Listed(t.leftovers, Leftover, t.cards) && WorkersOk(t.workers, t.cards);
    hide Listed, WorkersOk;
  }

  lemma BounceOk(s: State, c: Check, t: State)
    requires Inv(s) && Next(s, Bounce(c), t)
    ensures Inv(t)
  {
    hide Linked, Listed, WorkersOk;
    ListedPlace(s.queue, Queued, s.cards, c);
    ListedPlace(s.leftovers, Leftover, s.cards, c);
    ListedAfter(s.queue, t.queue, Queued, s.cards, c, t.cards[c]);
    ListedAfter(s.leftovers, t.leftovers, Leftover, s.cards, c, t.cards[c]);
    WorkersElsewhere(s.workers, s.cards, c, t.cards[c]);
  }

  lemma FinishOk(s: State, w: nat, ok: bool, t: State)
    requires Inv(s) && Next(s, Finish(w, ok), t)
    ensures Inv(t)
  {
    hide Linked, Listed, WorkersOk;
    var c := s.workers[w].check;
    WorkerFinishes(s.workers, s.cards, w, t.cards[c]);
    ListedPlace(s.queue, Queued, s.cards, c);
    ListedPlace(s.leftovers, Leftover, s.cards, c);
    ListedAfter(s.queue, t.queue, Queued, s.cards, c, t.cards[c]);
    ListedAfter(s.leftovers, t.leftovers, Leftover, s.cards, c, t.cards[c]);
  }

  lemma OtherOk(s: State, step: Step, t: State)
    requires Inv(s) && Next(s, step, t) && (step.Hold? || step.Leave? || step.Free?)
    ensures Inv(t)
  {
    hide Linked, Listed, WorkersOk;
    NoneIsEmpty(s);
    if step.Leave? {
      WorkerLeaves(s.workers, s.cards, step.w);
    }
  }

  lemma {:induction false} RunOk(run: seq<State>, steps: seq<Step>, i: nat)
    requires IsRun(run, steps) && i < |run|
    ensures Inv(run[i])
  {
    if i > 0 {
      RunOk(run, steps, i - 1);
      var s, t := run[i - 1], run[i];
      assert Goes(run, steps, i - 1);
      hide Inv, Next;
      match steps[i - 1] {
        case Submit(c) => SubmitOk(s, c, t);
        case Bounce(c) => BounceOk(s, c, t);
        case Start(w) => StartOk(s, w, t);
        case Finish(w, ok) => FinishOk(s, w, ok, t);
        case Stop => StopOk(s, t);
        case GiveBack => GiveBackOk(s, t);
        case _ => OtherOk(s, steps[i - 1], t);
      }
    }
  }

  /**
    A submitted check is called back at most once, and exactly once if it is
    back. When the pool has been freed every check is back but those whose own
    submit found the pool stopping and has not itself returned.
   */
  lemma ExactlyOnce(run: seq<State>, steps: seq<Step>, i: nat, c: Check)
    requires IsRun(run, steps) && i < |run| && c in run[i].cards
    ensures run[i].cards[c].times == if run[i].cards[c].place == Back then 1 else 0
    ensures run[i].freed ==> run[i].cards[c].place == Back || run[i].cards[c].place == Bounced
    ensures run[i].cards[c].answer == Some(NeverChecked) <==> run[i].cards[c].place == Back && !run[i].cards[c].taken
  {
    RunOk(run, steps, i);
    var s := run[i];
    ListedPlace(s.queue, Queued, s.cards, c);
    ListedPlace(s.leftovers, Leftover, s.cards, c);
    assert CardOk(s.cards[c], s.stop);
  }

  /** Checks start in the order they were queued, and the count of those waiting is the length of the linked queue. */
  lemma FirstInFirstOut(run: seq<State>, steps: seq<Step>, i: nat)
    requires IsRun(run, steps) && i < |run|
    ensures run[i].started <= run[i].enqueued
    ensures !run[i].stop ==> run[i].enqueued == run[i].started + run[i].queue
    ensures run[i].waiting == |run[i].queue| && Linked(run[i].head, run[i].queue, run[i].next)
  {
    RunOk(run, steps, i);
  }

  /** A check stays once submitted, and once back it stays back with the answer it got. */
  ghost predicate Stays(s: State, t: State, c: Check) {
    c in s.cards ==> c in t.cards && (s.cards[c].place == Back ==> t.cards[c] == s.cards[c])
  }

  lemma {:induction false} BackStaysBack(run: seq<State>, steps: seq<Step>, i: nat, j: nat, c: Check)
    requires IsRun(run, steps) && i <= j < |run|
    ensures Stays(run[i], run[j], c)
    decreases j - i
  {
    hide Inv, Next, Init, Stays;
    if i == j {
      StaysSame(run[i], c);
    } else {
      BackStaysBack(run, steps, i, j - 1, c);
      RunOk(run, steps, j - 1);
      assert Goes(run, steps, j - 1);
      StillBack(run[j - 1], steps[j - 1], run[j], c);
      StaysOn(run[i], run[j - 1], run[j], c);
    }
  }

  lemma StaysSame(s: State, c: Check)
    ensures Stays(s, s, c)
  {
  }

  lemma StaysOn(s: State, t: State, u: State, c: Check)
    requires Stays(s, t, c) && Stays(t, u, c)
    ensures Stays(s, u, c)
  {
  }

  lemma StillBack(s: State, step: Step, t: State, c: Check)
    requires Inv(s) && Next(s, step, t)
    ensures Stays(s, t, c)
  {
    hide QueueOk;
    ListedPlace(s.queue, Queued, s.cards, c);
    ListedPlace(s.leftovers, Leftover, s.cards, c);
    match step {
      case Start(w) => HeadIsFirst(s);
      case GiveBack => HeadIsFirst(s);
      case _ =>
    }
  }

  lemma HeadIsFirst(s: State)
    requires QueueOk(s)
    ensures s.queue != [] ==> s.head == Some(s.queue[0])
    ensures s.leftovers != [] ==> s.rest == Some(s.leftovers[0])
  {
  }

  /** What the steps take for granted of the list they walk is always there, so no thread is held up for want of it. */
  lemma NeverStuck(run: seq<State>, steps: seq<Step>, i: nat)
    requires IsRun(run, steps) && i < |run|
    ensures var s := run[i];
            s.head.Some? ==> s.head.value in s.next && s.head.value in s.cards && s.waiting > 0 && s.queue != []
    ensures var s := run[i];
            s.rest.Some? ==> s.rest.value in s.next && s.rest.value in s.cards && s.leftovers != []
    ensures forall w :: w in run[i].workers && run[i].workers[w].Busy? ==> run[i].workers[w].check in run[i].cards
  {
    RunOk(run, steps, i);
    var s := run[i];
    if s.queue != [] {
      assert s.queue[0] in s.queue;
    }
    if s.leftovers != [] {
      assert s.leftovers[0] in s.leftovers;
    }
  }
}
