/** Whole runs of the device-code table: what a client hears over time. */
module DeviceRuns {
  import opened Basics
  import opened DeviceCodes
  import opened Devices

  datatype Op =
    | Ask(source: Option<Bytes>, addr: Option<Bytes>, challenge: Option<Bytes>, now: nat,
          draws: seq<Option<Draw>>, secret: Option<Bytes>)
    | PollBy(code: Option<Bytes>, now: nat)
    | Look(typed: Bytes, now: nat)
    | Grant(user: Option<Bytes>, token: Option<Bytes>, now: nat)
    | Refuse(user: Option<Bytes>, now: nat)

  datatype Reply = Began(begun: Begun) | Heard(poll: Poll) | Seen(info: Option<Info>) | Done(ok: bool)

  datatype Config = Config(digest: Bytes -> Option<Hash>, ttl: nat, interval: nat)

  /** The live requests, and every digest ever issued. */
  datatype Model = Model(requests: Requests, issued: set<Hash>)

  /** The request that a successful answer on the page settles. */
  ghost predicate Settles(m: Requests, user: Option<Bytes>, token: Option<Bytes>, m': Requests) {
    user.Some? && exists h :: PendingAs(m, h, user.value) && m' == Answered(m, h, token)
  }

  ghost predicate Files(c: Config, s: Model, op: Op, begun: Begun, s': Model)
    requires op.Ask? && begun.Started?
  {
    && op.challenge.Some? && c.digest(begun.device).Some?
    && var h := c.digest(begun.device).value;
    && h !in s.issued
    && s' == Model(Swept(s.requests, op.now)
                   [h := Fresh(h, begun.user, op.challenge.value, op.source, op.addr, op.now, c.ttl, c.interval)],
                   s.issued + {h})
  }

  /** What the page is told of a typed code: the pending request it names, or that there is none. */
  ghost predicate Answers(m: Requests, typed: Bytes, info: Option<Info>) {
    if info.Some? then IsCode(Letters(typed)) && exists h :: Shown(m, h, Dashed(Letters(typed)), info.value)
    else forall h :: h in m && m[h].st.Pending? && IsCode(Letters(typed)) ==> m[h].user != Dashed(Letters(typed))
  }

  /** One operation, with its reply. */
  ghost predicate Effect(c: Config, s: Model, op: Op, reply: Reply, s': Model) {
    var m := Swept(s.requests, op.now);
    match op
    case Ask(_, _, _, _, _, _) =>
      reply.Began? && if reply.begun.Started? then Files(c, s, op, reply.begun, s') else s' == Model(m, s.issued)
    case PollBy(code, now) =>
      && reply.Heard? && Codes(m) && s'.issued == s.issued
      && (s'.requests, reply.poll) == Polled(m, if code.None? then None else c.digest(code.value), now)
    case Look(typed, _) =>
      reply.Seen? && s' == Model(m, s.issued) && Answers(m, typed, reply.info)
    case Grant(user, token, _) =>
      && reply.Done? && s'.issued == s.issued
      && if reply.ok then token.Some? && Settles(m, user, token, s'.requests) else s'.requests == m
    case Refuse(user, _) =>
      && reply.Done? && s'.issued == s.issued
      && if reply.ok then Settles(m, user, None, s'.requests) else s'.requests == m
  }

  ghost predicate Goes(c: Config, states: seq<Model>, ops: seq<Op>, replies: seq<Reply>, i: nat)
    requires |states| == |ops| + 1 && |replies| == |ops| && i < |ops|
  {
    Effect(c, states[i], ops[i], replies[i], states[i + 1])
  }

  ghost predicate IsRun(c: Config, states: seq<Model>, ops: seq<Op>, replies: seq<Reply>) {
    && |states| == |ops| + 1 && |replies| == |ops|
    && states[0] == Model(map[], {})
    && forall i :: 0 <= i < |ops| ==> Goes(c, states, ops, replies, i)
  }

  // ----- one step, seen by one secret

  /** The digest a poll asks for. */
  function Asked(c: Config, op: Op): (h: Option<Hash>)
    requires op.PollBy?
  {
    if op.code.None? then None else c.digest(op.code.value)
  }

  /** A request changes only while it is pending, and keeps its code, source and deadline. */
  lemma StepKeeps(c: Config, s: Model, op: Op, reply: Reply, s': Model, h: Hash)
    requires Effect(c, s, op, reply, s') && h in s.requests && h in s'.requests && h in s.issued
    ensures op.now < s.requests[h].expires
    ensures var e, e' := s.requests[h], s'.requests[h];
            && e'.user == e.user && e'.expires == e.expires
            && (e' == e || e.st.Pending?)
            && (e'.interval == e.interval ||
                (op.PollBy? && Asked(c, op) == Some(h) && TooSoon(e, op.now) && e'.interval == (e.interval + 5) % UINT32))
            && (e'.st == e.st || (e'.st.Approved? && op.Grant? && reply.ok && op.user == Some(e.user) && e'.token == op.token)
                              || (e'.st.Denied? && op.Refuse? && reply.ok && op.user == Some(e.user)))
  {
  }

  /** A secret never issued before comes into being pending, and one that is over stays over. */
  lemma StepMakes(c: Config, s: Model, op: Op, reply: Reply, s': Model, h: Hash)
    requires Effect(c, s, op, reply, s') && h !in s.requests && h in s'.requests
    ensures h !in s.issued && op.Ask? && reply.Began? && reply.begun.Started?
    ensures c.digest(reply.begun.device) == Some(h)
    ensures var e := s'.requests[h];
            e.st.Pending? && e.user == reply.begun.user && e.expires == (op.now + c.ttl) % UINT64 && e.interval == c.interval
  {
  }

  lemma StepIssues(c: Config, s: Model, op: Op, reply: Reply, s': Model)
    requires Effect(c, s, op, reply, s') && s.requests.Keys <= s.issued
    ensures s'.requests.Keys <= s'.issued && s.issued <= s'.issued
  {
  }

  // ----- runs

  lemma {:induction false} LiveIsIssued(c: Config, states: seq<Model>, ops: seq<Op>, replies: seq<Reply>, i: nat)
    requires IsRun(c, states, ops, replies) && i <= |ops|
    ensures states[i].requests.Keys <= states[i].issued
  {
    hide Effect;
    if i > 0 {
      LiveIsIssued(c, states, ops, replies, i - 1);
      assert Goes(c, states, ops, replies, i - 1);
      StepIssues(c, states[i - 1], ops[i - 1], replies[i - 1], states[i]);
    }
  }

  /** Once a request is over, its secret is never live again. */
  lemma {:induction false} OverStaysOver(c: Config, states: seq<Model>, ops: seq<Op>, replies: seq<Reply>, i: nat, j: nat, h: Hash)
    requires IsRun(c, states, ops, replies) && i <= j <= |ops|
    requires h in states[i].issued && h !in states[i].requests
    ensures h in states[j].issued && h !in states[j].requests
    decreases j
  {
    hide Effect;
    if i < j {
      OverStaysOver(c, states, ops, replies, i, j - 1, h);
      assert Goes(c, states, ops, replies, j - 1);
      LiveIsIssued(c, states, ops, replies, j - 1);
      StepIssues(c, states[j - 1], ops[j - 1], replies[j - 1], states[j]);
      if h in states[j].requests {
        StepMakes(c, states[j - 1], ops[j - 1], replies[j - 1], states[j], h);
      }
    }
  }

  lemma VerdictEnds(c: Config, s: Model, op: Op, reply: Reply, s': Model)
    requires Effect(c, s, op, reply, s') && op.PollBy? && (reply.poll.Token? || reply.poll.Refused?)
    ensures Asked(c, op).Some? && Asked(c, op).value in s.requests && Asked(c, op).value !in s'.requests
    ensures op.now < s.requests[Asked(c, op).value].expires
    ensures reply.poll.Token? ==> s.requests[Asked(c, op).value].st.Approved? &&
                                  s.requests[Asked(c, op).value].token == Some(reply.poll.token)
  {
  }

  lemma OverIsGone(c: Config, s: Model, op: Op, reply: Reply, s': Model)
    requires Effect(c, s, op, reply, s') && op.PollBy?
    requires Asked(c, op).Some? ==> Asked(c, op).value !in s.requests
    ensures reply.poll.Gone?
  {
  }

  /** A token, or a refusal, is heard at most once: every later poll by that secret finds nothing. */
  lemma {:induction false} HeardOnce(c: Config, states: seq<Model>, ops: seq<Op>, replies: seq<Reply>, i: nat, j: nat)
    requires IsRun(c, states, ops, replies) && i < j < |ops| && ops[i].PollBy? && ops[j].PollBy?
    requires Asked(c, ops[i]) == Asked(c, ops[j])
    requires replies[i].Heard? && (replies[i].poll.Token? || replies[i].poll.Refused?)
    ensures replies[j] == Heard(Gone)
  {
    hide Effect;
    assert Goes(c, states, ops, replies, i) && Goes(c, states, ops, replies, j);
    VerdictEnds(c, states[i], ops[i], replies[i], states[i + 1]);
    LiveIsIssued(c, states, ops, replies, i);
    StepIssues(c, states[i], ops[i], replies[i], states[i + 1]);
    OverStaysOver(c, states, ops, replies, i + 1, j, Asked(c, ops[i]).value);
    OverIsGone(c, states[j], ops[j], replies[j], states[j + 1]);
    ReplyKind(c, states[j], ops[j], replies[j], states[j + 1]);
  }

  lemma ReplyKind(c: Config, s: Model, op: Op, reply: Reply, s': Model)
    requires Effect(c, s, op, reply, s') && op.PollBy?
    ensures reply.Heard?
  {
  }

  /** Operation `b` began the request now filed under `h`. */
  ghost predicate BegunBy(c: Config, ops: seq<Op>, replies: seq<Reply>, b: nat, h: Hash, e: Entry)
    requires |replies| == |ops|
  {
    && b < |ops| && ops[b].Ask? && replies[b].Began? && replies[b].begun.Started?
    && c.digest(replies[b].begun.device) == Some(h)
    && e.user == replies[b].begun.user && e.expires == (ops[b].now + c.ttl) % UINT64
  }

  lemma {:induction false} Beginning(c: Config, states: seq<Model>, ops: seq<Op>, replies: seq<Reply>, i: nat, h: Hash) returns (b: nat)
    requires IsRun(c, states, ops, replies) && i <= |ops| && h in states[i].requests
    ensures b < i && BegunBy(c, ops, replies, b, h, states[i].requests[h])
  {
    hide Effect;
    var k := i - 1;
    assert Goes(c, states, ops, replies, k);
    if h in states[k].requests {
      b := Beginning(c, states, ops, replies, k, h);
      LiveIsIssued(c, states, ops, replies, k);
      StepKeeps(c, states[k], ops[k], replies[k], states[i], h);
    } else {
      StepMakes(c, states[k], ops[k], replies[k], states[i], h);
      b := k;
    }
  }

  /** An approved request was granted its token, before its deadline, by its own code. */
  lemma {:induction false} Granting(c: Config, states: seq<Model>, ops: seq<Op>, replies: seq<Reply>, i: nat, h: Hash) returns (k: nat)
    requires IsRun(c, states, ops, replies) && i <= |ops| && h in states[i].requests && states[i].requests[h].st.Approved?
    ensures k < i && ops[k].Grant? && replies[k] == Done(true) && h in states[k].requests
    ensures ops[k].user == Some(states[i].requests[h].user) && ops[k].token == states[i].requests[h].token
    ensures ops[k].now < states[i].requests[h].expires
  {
    hide Effect;
    k := i - 1;
    assert Goes(c, states, ops, replies, k);
    if h !in states[k].requests {
      StepMakes(c, states[k], ops[k], replies[k], states[i], h);
    } else {
      LiveIsIssued(c, states, ops, replies, k);
      StepKeeps(c, states[k], ops[k], replies[k], states[i], h);
      if states[k].requests[h].st.Approved? {
        k := Granting(c, states, ops, replies, k, h);
      } else {
        GrantReply(c, states[k], ops[k], replies[k], states[i]);
      }
    }
  }

  lemma GrantReply(c: Config, s: Model, op: Op, reply: Reply, s': Model)
    requires Effect(c, s, op, reply, s') && op.Grant?
    ensures reply.Done?
  {
  }

  /**
    A token is handed out only to the secret of a request that was begun, then granted
    that very token under the code given out with the secret, all before its deadline.
   */
  lemma {:induction false} TokenWasGranted(c: Config, states: seq<Model>, ops: seq<Op>, replies: seq<Reply>, i: nat)
      returns (b: nat, k: nat)
    requires IsRun(c, states, ops, replies) && i < |ops| && ops[i].PollBy? && replies[i].Heard? && replies[i].poll.Token?
    ensures b < k < i && ops[b].Ask? && replies[b].Began? && replies[b].begun.Started?
    ensures c.digest(replies[b].begun.device) == Asked(c, ops[i]) && Asked(c, ops[i]).Some?
    ensures ops[k].Grant? && replies[k] == Done(true)
    ensures ops[k].user == Some(replies[b].begun.user) && ops[k].token == Some(replies[i].poll.token)
    ensures ops[k].now < (ops[b].now + c.ttl) % UINT64 && ops[i].now < (ops[b].now + c.ttl) % UINT64
  {
    hide Effect;
    assert Goes(c, states, ops, replies, i);
    VerdictEnds(c, states[i], ops[i], replies[i], states[i + 1]);
    var h := Asked(c, ops[i]).value;
    k := Granting(c, states, ops, replies, i, h);
    b := Beginning(c, states, ops, replies, k, h);
    SameRequest(c, states, ops, replies, k, i, h);
  }

  /** A request live at two times was live throughout, with one code and one deadline. */
  lemma {:induction false} SameRequest(c: Config, states: seq<Model>, ops: seq<Op>, replies: seq<Reply>, i: nat, j: nat, h: Hash)
    requires IsRun(c, states, ops, replies) && i <= j <= |ops| && h in states[i].requests && h in states[j].requests
    ensures states[j].requests[h].user == states[i].requests[h].user
    ensures states[j].requests[h].expires == states[i].requests[h].expires
    decreases j
  {
    hide Effect;
    if i < j {
      StillLive(c, states, ops, replies, i, j, h);
      SameRequest(c, states, ops, replies, i, j - 1, h);
      assert Goes(c, states, ops, replies, j - 1);
      LiveIsIssued(c, states, ops, replies, j - 1);
      StepKeeps(c, states[j - 1], ops[j - 1], replies[j - 1], states[j], h);
    }
  }

  lemma {:induction false} StillLive(c: Config, states: seq<Model>, ops: seq<Op>, replies: seq<Reply>, i: nat, j: nat, h: Hash)
    requires IsRun(c, states, ops, replies) && i < j <= |ops| && h in states[i].requests && h in states[j].requests
    ensures h in states[j - 1].requests
  {
    hide Effect;
    if h !in states[j - 1].requests {
      LiveIsIssued(c, states, ops, replies, i);
      IssuedStays(c, states, ops, replies, i, j - 1, h);
      OverStaysOver(c, states, ops, replies, j - 1, j, h);
    }
  }

  lemma {:induction false} IssuedStays(c: Config, states: seq<Model>, ops: seq<Op>, replies: seq<Reply>, i: nat, j: nat, h: Hash)
    requires IsRun(c, states, ops, replies) && i <= j <= |ops| && h in states[i].issued
    ensures h in states[j].issued
    decreases j
  {
    hide Effect;
    if i < j {
      IssuedStays(c, states, ops, replies, i, j - 1, h);
      assert Goes(c, states, ops, replies, j - 1);
      LiveIsIssued(c, states, ops, replies, j - 1);
      StepIssues(c, states[j - 1], ops[j - 1], replies[j - 1], states[j]);
    }
  }

  // ----- the polling interval

  /** A poll shortens the interval exactly when five more seconds overflow its 32 bits. */
  lemma ShrinksOnlyByWrap(e: Entry, now: nat)
    requires e.interval < UINT32
    ensures PolledEntry(e, now).interval < e.interval <==> TooSoon(e, now) && e.interval + 5 >= UINT32
  {
    hide TooSoon;
  }

  /** At operation `k` the request is polled too soon with an interval that five more seconds overflow. */
  ghost predicate WrapsAt(c: Config, states: seq<Model>, ops: seq<Op>, k: nat, h: Hash) {
    && k < |ops| && k < |states| && ops[k].PollBy? && Asked(c, ops[k]) == Some(h) && h in states[k].requests
    && TooSoon(states[k].requests[h], ops[k].now) && states[k].requests[h].interval + 5 >= UINT32
  }

  /** Over every run a request's interval shrinks only across a poll that overflows it. */
  lemma {:induction false} IntervalShrinksOnlyByWrap(c: Config, states: seq<Model>, ops: seq<Op>, replies: seq<Reply>, i: nat, j: nat, h: Hash)
    requires IsRun(c, states, ops, replies) && i <= j <= |ops| && h in states[i].requests && h in states[j].requests
    ensures states[i].requests[h].interval <= states[j].requests[h].interval || exists k :: i <= k < j && WrapsAt(c, states, ops, k, h)
    decreases j
  {
    hide Effect, TooSoon;
    if i < j {
      StillLive(c, states, ops, replies, i, j, h);
      IntervalShrinksOnlyByWrap(c, states, ops, replies, i, j - 1, h);
      assert Goes(c, states, ops, replies, j - 1);
      LiveIsIssued(c, states, ops, replies, j - 1);
      StepKeeps(c, states[j - 1], ops[j - 1], replies[j - 1], states[j], h);
      if states[j].requests[h].interval < states[j - 1].requests[h].interval {
        assert WrapsAt(c, states, ops, j - 1, h);
      }
    }
  }

  /**
    And it does shrink there: on a table made with the largest interval, a request polled
    twice in a row is told to wait four seconds.
   */
  method IntervalWraps(t: Table, draw: Draw, secret: Bytes) returns (first: Poll, second: Poll)
    requires t.Valid() && t.requests == map[] && t.issued == {} && t.interval == UINT32 - 1
    requires DigestOf(t.digest, Some(secret)).Some? && 2 < (1 + t.ttl) % UINT64
    modifies t, t.entries
    ensures first == Waiting(UINT32 - 1) && second == Slow(4)
  {
    hide Indexed, Codes, Fair, Held, HeldAfter, Spelled, Unnamed;
    var draws := [Some(draw), None, None, None, None, None, None, None];
    NobodyYet(t.entries[..], t.at, [], Spelled(draw), 1);
    var begun := t.Begin(None, None, Some([]), 1, draws, Some(secret));
    first := t.PollFor(Some(begun.device), 1);
    second := t.PollFor(Some(begun.device), 2);
  }

  lemma NobodyYet(es: seq<Entry>, at: map<Hash, nat>, source: Bytes, user: Bytes, now: nat)
    requires Indexed(es, at, map[]) && |es| == DEVICE_MAX
    ensures Unnamed(map[], user) && Swept(map[], now) == map[]
    ensures HasRoom(SweptTable(es, now)) && Held(SweptTable(es, now), source) == 0
  {
    assert es[0].st.Free? && SweptTable(es, now)[0].st.Free?;
    HeldNone(SweptTable(es, now), source);
  }

  // ----- the table runs so

  /** No two requests of the run draw secrets of one digest. */
  ghost predicate FreshSecrets(c: Config, ops: seq<Op>) {
    forall i, j :: 0 <= i < j < |ops| && ops[i].Ask? && ops[j].Ask? && DigestOf(c.digest, ops[i].secret).Some? ==>
      DigestOf(c.digest, ops[i].secret) != DigestOf(c.digest, ops[j].secret)
  }

  ghost predicate DrawnBefore(c: Config, ops: seq<Op>, n: nat, issued: set<Hash>)
    requires n <= |ops|
  {
    forall h :: h in issued ==> exists i :: 0 <= i < n && ops[i].Ask? && DigestOf(c.digest, ops[i].secret) == Some(h)
  }

  predicate EightDraws(op: Op) {
    op.Ask? ==> |op.draws| == 8
  }

  predicate ShortSource(op: Op) {
    op.Ask? ==> |Named(op.source)| < 46
  }

  method Perform(t: Table, op: Op) returns (reply: Reply)
    requires t.Valid() && EightDraws(op)
    requires op.Ask? && DigestOf(t.digest, op.secret).Some? ==> DigestOf(t.digest, op.secret).value !in t.issued
    modifies t, t.entries
    ensures t.Valid()
    ensures Effect(Config(t.digest, t.ttl, t.interval), old(Model(t.requests, t.issued)), op, reply, Model(t.requests, t.issued))
    ensures t.issued <= old(t.issued) +
              (if op.Ask? && DigestOf(t.digest, op.secret).Some? then {DigestOf(t.digest, op.secret).value} else {})
    ensures old(Fair(t.entries[..])) && ShortSource(op) ==> Fair(t.entries[..])
  {
    hide Indexed, Fair, Codes, Swept, SweptTable, Held, Picked, Fresh;
    match op {
      case Ask(source, addr, challenge, now, draws, secret) =>
        var begun := t.Begin(source, addr, challenge, now, draws, secret);
        reply := Began(begun);
      case PollBy(code, now) =>
        var poll := t.PollFor(code, now);
        reply := Heard(poll);
      case Look(typed, now) =>
        var info := t.Find(typed, now);
        reply := Seen(info);
      case Grant(user, token, now) =>
        var ok := t.Approve(user, token, now);
        reply := Done(ok);
      case Refuse(user, now) =>
        var ok := t.Deny(user, now);
        reply := Done(ok);
    }
  }

  lemma StillDrawn(c: Config, ops: seq<Op>, n: nat, issued: set<Hash>, issued': set<Hash>)
    requires n < |ops| && DrawnBefore(c, ops, n, issued)
    requires issued' <= issued +
               (if ops[n].Ask? && DigestOf(c.digest, ops[n].secret).Some? then {DigestOf(c.digest, ops[n].secret).value} else {})
    ensures DrawnBefore(c, ops, n + 1, issued')
  {
    hide DigestOf;
  }

  lemma NotDrawnYet(c: Config, ops: seq<Op>, n: nat, issued: set<Hash>)
    requires n < |ops| && DrawnBefore(c, ops, n, issued) && FreshSecrets(c, ops)
    requires ops[n].Ask? && DigestOf(c.digest, ops[n].secret).Some?
    ensures DigestOf(c.digest, ops[n].secret).value !in issued
  {
    hide DigestOf;
  }

  lemma RunGrows(c: Config, states: seq<Model>, ops: seq<Op>, replies: seq<Reply>, n: nat, reply: Reply, s: Model)
    requires n < |ops| && IsRun(c, states, ops[..n], replies) && Effect(c, states[n], ops[n], reply, s)
    ensures IsRun(c, states + [s], ops[..n + 1], replies + [reply])
  {
    hide Effect;
    var states', replies', ops' := states + [s], replies + [reply], ops[..n + 1];
    forall i | 0 <= i <= n ensures Goes(c, states', ops', replies', i) {
      if i < n {
        assert Goes(c, states, ops[..n], replies, i);
      }
    }
  }

  /**
    Every sequence of operations on a new table is a run. At its end, as at the end of each
    of its prefixes, live codes are distinct and no source that fits its field holds more than five.
   */
  method Run(t: Table, ops: seq<Op>) returns (replies: seq<Reply>, ghost states: seq<Model>)
    requires t.Valid() && t.requests == map[] && t.issued == {} && Fair(t.entries[..])
    requires FreshSecrets(Config(t.digest, t.ttl, t.interval), ops)
    requires forall i :: 0 <= i < |ops| ==> EightDraws(ops[i])
    modifies t, t.entries
    ensures t.Valid() && IsRun(Config(t.digest, t.ttl, t.interval), states, ops, replies)
    ensures states[|ops|] == Model(t.requests, t.issued)
    ensures (forall i :: 0 <= i < |ops| ==> ShortSource(ops[i])) ==> Fair(t.entries[..])
  {
    hide Effect, Fair, FreshSecrets, DrawnBefore, DigestOf;
    hide Table.Valid, IsRun;
    ghost var c := Config(t.digest, t.ttl, t.interval);
    replies, states := [], [Model(t.requests, t.issued)];
    NewRun(c, ops);
    var n := 0;
    while n < |ops|
      invariant n <= |ops| && t.Valid() && |replies| == n && |states| == n + 1
      invariant IsRun(c, states, ops[..n], replies) && states[n] == Model(t.requests, t.issued)
      invariant DrawnBefore(c, ops, n, t.issued)
      invariant (forall i :: 0 <= i < |ops| ==> ShortSource(ops[i])) ==> Fair(t.entries[..])
    {
      ghost var was := t.issued;
      if ops[n].Ask? && DigestOf(c.digest, ops[n].secret).Some? {
        NotDrawnYet(c, ops, n, t.issued);
      }
      var reply := Perform(t, ops[n]);
      RunGrows(c, states, ops, replies, n, reply, Model(t.requests, t.issued));
      StillDrawn(c, ops, n, was, t.issued);
      states, replies := states + [Model(t.requests, t.issued)], replies + [reply];
      n := n + 1;
    }
    assert ops[..n] == ops;
  }

  lemma NewRun(c: Config, ops: seq<Op>)
    ensures IsRun(c, [Model(map[], {})], [], []) && DrawnBefore(c, ops, 0, {})
  {
  }

  // ----- a source name too long for its field

  /** One request of a run: the code drawn for it, and its secret. */
  datatype Request = Request(draw: Draw, secret: Bytes)

  /** Requests whose codes differ and whose secrets have different digests. */
  ghost predicate Differ(c: Config, rs: seq<Request>) {
    && (forall i :: 0 <= i < |rs| ==> DigestOf(c.digest, Some(rs[i].secret)).Some?)
    && (forall i, j :: 0 <= i < j < |rs| ==>
          && Spelled(rs[i].draw) != Spelled(rs[j].draw)
          && DigestOf(c.digest, Some(rs[i].secret)) != DigestOf(c.digest, Some(rs[j].secret)))
  }

  ghost predicate CodeAmong(user: Bytes, rs: seq<Request>, n: nat) {
    exists j :: 0 <= j < n <= |rs| && user == Spelled(rs[j].draw)
  }

  ghost predicate DigestAmong(c: Config, h: Hash, rs: seq<Request>, n: nat) {
    exists j :: 0 <= j < n <= |rs| && DigestOf(c.digest, Some(rs[j].secret)) == Some(h)
  }

  /** Every live request is one of the first `n`, none expired at `now`. */
  ghost predicate Among(c: Config, m: Requests, issued: set<Hash>, rs: seq<Request>, n: nat, now: nat) {
    && n <= |rs| && |m| <= n
    && (forall h :: h in m ==> now < m[h].expires && CodeAmong(m[h].user, rs, n))
    && (forall h :: h in issued ==> DigestAmong(c, h, rs, n))
  }

  lemma NotYet(c: Config, m: Requests, issued: set<Hash>, rs: seq<Request>, n: nat, now: nat, draws: seq<Option<Draw>>)
    requires Differ(c, rs) && Among(c, m, issued, rs, n, now) && n < |rs| && draws != [] && draws[0] == Some(rs[n].draw)
    ensures DigestOf(c.digest, Some(rs[n].secret)).value !in issued
    ensures Swept(m, now) == m && Picked(m, draws) == Some(Spelled(rs[n].draw))
  {
    hide DigestOf, Spelled;
  }

  lemma AmongMore(c: Config, user: Bytes, h: Hash, rs: seq<Request>, n: nat)
    requires n < |rs|
    ensures CodeAmong(user, rs, n) || user == Spelled(rs[n].draw) ==> CodeAmong(user, rs, n + 1)
    ensures DigestAmong(c, h, rs, n) || DigestOf(c.digest, Some(rs[n].secret)) == Some(h) ==> DigestAmong(c, h, rs, n + 1)
  {
    hide DigestOf, Spelled;
  }

  lemma OneMore(c: Config, m: Requests, issued: set<Hash>, rs: seq<Request>, n: nat, now: nat, e: Entry)
    requires Among(c, m, issued, rs, n, now) && n < |rs| && now < e.expires && e.user == Spelled(rs[n].draw)
    requires DigestOf(c.digest, Some(rs[n].secret)) == Some(e.secret) && e.secret !in m
    ensures Among(c, m[e.secret := e], issued + {e.secret}, rs, n + 1, now)
  {
    hide DigestOf, Spelled, CodeAmong, DigestAmong;
    var m' := m[e.secret := e];
    assert m'.Keys == m.Keys + {e.secret};
    forall h | h in m' ensures CodeAmong(m'[h].user, rs, n + 1) {
      AmongMore(c, m'[h].user, h, rs, n);
    }
    forall h | h in issued + {e.secret} ensures DigestAmong(c, h, rs, n + 1) {
      AmongMore(c, e.user, h, rs, n);
    }
  }

  lemma NothingExpires(es: seq<Entry>, at: map<Hash, nat>, m: Requests, now: nat)
    requires Indexed(es, at, m) && Swept(m, now) == m
    ensures SweptTable(es, now) == es
  {
    forall i | 0 <= i < |es| && !es[i].st.Free? ensures now < es[i].expires {
      assert es[i].secret in Swept(m, now);
    }
  }

  lemma ShortNames(es: seq<Entry>, at: map<Hash, nat>, m: Requests)
    requires Indexed(es, at, m) && Codes(m)
    ensures forall i :: 0 <= i < |es| && !es[i].st.Free? ==> |es[i].source| < 46
  {
  }

  lemma NoneYet(c: Config, es: seq<Entry>, at: map<Hash, nat>, rs: seq<Request>, now: nat, name: Bytes)
    requires Indexed(es, at, map[])
    ensures Among(c, map[], {}, rs, 0, now) && Held(es, name) == 0
  {
    HeldNone(es, name);
  }

  lemma AmongSize(c: Config, m: Requests, issued: set<Hash>, rs: seq<Request>, n: nat, now: nat)
    requires Among(c, m, issued, rs, n, now)
    ensures |m| <= n
  {
  }

  lemma DifferAt(c: Config, rs: seq<Request>, n: nat)
    requires Differ(c, rs) && n < |rs|
    ensures DigestOf(c.digest, Some(rs[n].secret)).Some?
  {
  }

  lemma HeldOne(es: seq<Entry>, es': seq<Entry>, name: Bytes)
    requires HeldAfter(es, es', Some(name))
    ensures Held(es', name) == Held(es, name) + 1
  {
  }

  lemma TooManyHeld(es: seq<Entry>, name: Bytes)
    requires Held(es, name) == 6
    ensures !Fair(es)
  {
  }

  /**
    The limit does not hold for a source name of 46 bytes or more: from any such name, requests
    with different codes and secrets are all begun, and after the sixth the name holds six.
   */
  method SixFromOneName(t: Table, source: Bytes, now: nat, rs: seq<Request>)
    requires t.Valid() && t.requests == map[] && t.issued == {} && Fair(t.entries[..])
    requires |source| >= 46 && |rs| == 6 && Differ(Config(t.digest, t.ttl, t.interval), rs)
    requires now < (now + t.ttl) % UINT64
    modifies t, t.entries
    ensures t.Valid() && Held(t.entries[..], Kept(Some(source))) == 6 && !Fair(t.entries[..])
  {
    hide Fair, Indexed, Codes, Differ, Among, Held, HeldAfter, SweptTable, HasRoom, Picked, Spelled, DigestOf, Swept;
    ghost var c := Config(t.digest, t.ttl, t.interval);
    var name := Some(source);
    NoneYet(c, t.entries[..], t.at, rs, now, Kept(name));
    var n := 0;
    while n < 6
      invariant 0 <= n <= 6 && t.Valid() && Among(c, t.requests, t.issued, rs, n, now)
      invariant Held(t.entries[..], Kept(name)) == n
    {
      var draws := [Some(rs[n].draw), None, None, None, None, None, None, None];
      NotYet(c, t.requests, t.issued, rs, n, now, draws);
      NothingExpires(t.entries[..], t.at, t.requests, now);
      ShortNames(t.entries[..], t.at, t.requests);
      LongSourceUncounted(t.entries[..], source);
      AmongSize(c, t.requests, t.issued, rs, n, now);
      RoomLeft(t.entries[..], t.at, t.requests);
      DifferAt(c, rs, n);
      ghost var es, m, issued := t.entries[..], t.requests, t.issued;
      var begun := t.Begin(name, None, Some([]), now, draws, Some(rs[n].secret));
      HeldOne(es, t.entries[..], Kept(name));
      ghost var h := DigestOf(c.digest, Some(rs[n].secret)).value;
      OneMore(c, m, issued, rs, n, now, t.requests[h]);
      n := n + 1;
    }
    TooManyHeld(t.entries[..], Kept(name));
  }
}
