/**
  The fixed-window rate limiter: a bounded table of slots that forgets the least
  recently touched key when it is full, against an unbounded counter per key.
 */
module RateLimit {
  import opened Basics

  const KEYMAX: nat := 128
  const UINT32_MAX: nat := 0xFFFF_FFFF

  type Key = Bytes

  /** Keys are compared on their first 127 bytes. */
  function Cut(key: Key): (k: Key)
    ensures |k| < KEYMAX
  {
    if |key| >= KEYMAX then key[..KEYMAX - 1] else key
  }

  /** Milliseconds since `start`, in 64-bit arithmetic. */
  function Since(start: nat, now: nat): (d: nat) {
    (now - start) % 0x1_0000_0000_0000_0000
  }

  // ----- the ideal

  /** One key's current window: when it began and what it has counted. */
  datatype Window = Window(start: nat, count: nat)

  /** A window that has run out begins again, empty. */
  function Rolled(w: Window, now: nat, windowMs: nat): (r: Window) {
    if Since(w.start, now) >= windowMs then Window(now, 0) else w
  }

  function Counted(w: Window): (r: Window) {
    if w.count < UINT32_MAX then w.(count := w.count + 1) else w
  }

  type Ideal = map<Key, Window>

  function IdealTouch(m: Ideal, k: Key, now: nat, windowMs: nat): (r: Ideal) {
    if k in m then m[k := Rolled(m[k], now, windowMs)] else m
  }

  function IdealBlocked(m: Ideal, k: Key, now: nat, windowMs: nat, maxEvents: nat): (b: bool) {
    k in m && Rolled(m[k], now, windowMs).count >= maxEvents
  }

  function IdealRecord(m: Ideal, k: Key, now: nat, windowMs: nat): (r: Ideal) {
    m[k := Counted(if k in m then Rolled(m[k], now, windowMs) else Window(now, 0))]
  }

  // ----- the table

  datatype Slot = Slot(key: Key, start: nat, last: nat, count: nat, used: bool)

  /** `at` is the one slot of each key in the table. */
  ghost predicate Indexed(slots: seq<Slot>, at: map<Key, nat>) {
    && (forall k :: k in at ==> at[k] < |slots| && slots[at[k]].used && slots[at[k]].key == k)
    && (forall i :: 0 <= i < |slots| && slots[i].used ==> slots[i].key in at && at[slots[i].key] == i)
  }

  /** Table and ideal agree about every key but those evicted and not reset since. */
  ghost predicate Agrees(slots: seq<Slot>, at: map<Key, nat>, ideal: Ideal, evicted: set<Key>)
    requires Indexed(slots, at)
  {
    forall k :: k !in evicted ==>
      && (k in at <==> k in ideal)
      && (k in at ==> ideal[k] == Window(slots[at[k]].start, slots[at[k]].count))
  }

  ghost predicate Full(slots: seq<Slot>) {
    forall i :: 0 <= i < |slots| ==> slots[i].used
  }

  lemma ReleaseKeeps(slots: seq<Slot>, at: map<Key, nat>, ideal: Ideal, evicted: set<Key>, k: Key)
    requires Indexed(slots, at) && Agrees(slots, at, ideal, evicted)
    ensures k !in at ==> Agrees(slots, at, ideal - {k}, evicted - {k})
    ensures k in at ==> Indexed(slots[at[k] := slots[at[k]].(used := false)], at - {k})
    ensures k in at ==> Agrees(slots[at[k] := slots[at[k]].(used := false)], at - {k}, ideal - {k}, evicted - {k})
  {
  }

  lemma {:induction false} IndexSize(slots: seq<Slot>, at: map<Key, nat>)
    requires Indexed(slots, at)
    ensures |at| <= |slots| && (|at| == |slots| <==> Full(slots))
  {
    UsedCount(slots, at, |slots|);
  }

  /** As many keys sit in the first `n` slots as those slots are used. */
  lemma {:induction false} UsedCount(slots: seq<Slot>, at: map<Key, nat>, n: nat)
    requires Indexed(slots, at) && n <= |slots|
    ensures var below := set k | k in at && at[k] < n;
            && |below| <= n && (|below| == n <==> forall i :: 0 <= i < n ==> slots[i].used)
            && (n == |slots| ==> below == at.Keys)
  {
    var below := set k | k in at && at[k] < n;
    if n > 0 {
      UsedCount(slots, at, n - 1);
      var b := set k | k in at && at[k] < n - 1;
      if slots[n - 1].used {
        assert below == b + {slots[n - 1].key};
      } else {
        assert below == b;
      }
    } else {
      assert below == {};
    }
  }

  /** Each key in the table carries the time it was last asked about or counted. */
  ghost predicate Stamped(slots: seq<Slot>, touched: map<Key, nat>) {
    forall i :: 0 <= i < |slots| && slots[i].used ==>
      slots[i].key in touched && touched[slots[i].key] == slots[i].last
  }

  lemma StampedUpdate(slots: seq<Slot>, at: map<Key, nat>, touched: map<Key, nat>, i: nat, s: Slot)
    requires Indexed(slots, at) && Stamped(slots, touched) && i < |slots| && s.used
    requires s.key in at ==> at[s.key] == i
    ensures Stamped(slots[i := s], touched[s.key := s.last])
  {
  }

  lemma StampedOther(slots: seq<Slot>, at: map<Key, nat>, touched: map<Key, nat>, k: Key, now: nat)
    requires Indexed(slots, at) && Stamped(slots, touched) && k !in at
    ensures Stamped(slots, touched[k := now])
  {
  }

  /** While nothing was evicted, the table's keys are the ideal's. */
  lemma SameKeys(slots: seq<Slot>, at: map<Key, nat>, ideal: Ideal)
    requires Indexed(slots, at) && Agrees(slots, at, ideal, {})
    ensures at.Keys == ideal.Keys && |at| == |ideal|
  {
    assert at.Keys == ideal.Keys;
    assert |at| == |at.Keys| && |ideal| == |ideal.Keys|;
  }

  /** A new key finds the table full only when the ideal outgrows it. */
  lemma FullMeansTooMany(slots: seq<Slot>, at: map<Key, nat>, ideal: Ideal, k: Key, now: nat, windowMs: nat)
    requires Indexed(slots, at) && Agrees(slots, at, ideal, {}) && k !in at && Full(slots)
    ensures |IdealRecord(ideal, k, now, windowMs)| == |slots| + 1
  {
    IndexSize(slots, at);
    SameKeys(slots, at, ideal);
    assert IdealRecord(ideal, k, now, windowMs).Keys == ideal.Keys + {k};
  }

  lemma SlotOf(slots: seq<Slot>, at: map<Key, nat>, k: Key)
    requires Indexed(slots, at) && k in at
    ensures at[k] < |slots| && slots[at[k]].used && slots[at[k]].key == k
  {
  }

  lemma AbsentTouch(slots: seq<Slot>, at: map<Key, nat>, ideal: Ideal, evicted: set<Key>, k: Key, now: nat, windowMs: nat)
    requires Indexed(slots, at) && Agrees(slots, at, ideal, evicted) && k !in at
    ensures Agrees(slots, at, IdealTouch(ideal, k, now, windowMs), evicted)
    ensures k !in evicted ==> k !in ideal
  {
  }

  /** Rolling a key's slot is what rolling its window is in the ideal, unless the key was evicted. */
  lemma PresentTouch(slots: seq<Slot>, at: map<Key, nat>, ideal: Ideal, evicted: set<Key>, k: Key, now: nat, windowMs: nat)
    requires Indexed(slots, at) && Agrees(slots, at, ideal, evicted) && k in at
    ensures var i := at[k];
            var w := Rolled(Window(slots[i].start, slots[i].count), now, windowMs);
            var slots' := slots[i := Slot(k, w.start, now, w.count, true)];
            && Indexed(slots', at)
            && Agrees(slots', at, IdealTouch(ideal, k, now, windowMs), evicted)
            && (k !in evicted ==> k in ideal && Rolled(ideal[k], now, windowMs) == w)
  {
  }

  function Lost(gone: Option<Key>): (s: set<Key>) {
    if gone.Some? then {gone.value} else {}
  }

  /** The slot a count leaves behind. */
  function After(k: Key, w: Window, now: nat): (s: Slot) {
    var c := Counted(w);
    Slot(k, c.start, now, c.count, true)
  }

  lemma PresentRecord(slots: seq<Slot>, at: map<Key, nat>, ideal: Ideal, evicted: set<Key>, k: Key, now: nat, windowMs: nat)
    requires Indexed(slots, at) && Agrees(slots, at, ideal, evicted) && k in at
    ensures var i := at[k];
            var w := Rolled(Window(slots[i].start, slots[i].count), now, windowMs);
            var slots' := slots[i := After(k, w, now)];
            && Indexed(slots', at)
            && Agrees(slots', at, IdealRecord(ideal, k, now, windowMs), evicted)
  {
  }

  /** The keys in the table, when each key was last touched, and those evicted and not reset since. */
  datatype Residents = Residents(keys: set<Key>, touched: map<Key, nat>, evicted: set<Key>)

  /** Key `k` counted, in the place of `gone` if it took one. */
  function Displaced(r: Residents, k: Key, now: nat, gone: Option<Key>): (t: Residents) {
    Residents(r.keys - Lost(gone) + {k}, r.touched[k := now], r.evicted + Lost(gone))
  }

  lemma KeysAfter(at: map<Key, nat>, touched: map<Key, nat>, evicted: set<Key>, k: Key, v: nat, now: nat, gone: Option<Key>)
    ensures Residents((at - Lost(gone))[k := v].Keys, touched[k := now], evicted + Lost(gone)) ==
            Displaced(Residents(at.Keys, touched, evicted), k, now, gone)
    ensures k in at ==> Residents(at.Keys, touched[k := now], evicted) == Displaced(Residents(at.Keys, touched, evicted), k, now, None)
  {
  }

  /** Claiming a slot costs the key that was in it, if any, and no other. */
  lemma AbsentRecord(slots: seq<Slot>, at: map<Key, nat>, ideal: Ideal, evicted: set<Key>, k: Key, now: nat, windowMs: nat, v: nat)
    requires Indexed(slots, at) && Agrees(slots, at, ideal, evicted) && k !in at && v < |slots|
    ensures var gone := if slots[v].used then Some(slots[v].key) else None;
            var slots' := slots[v := After(k, Window(now, 0), now)];
            var at' := (at - Lost(gone))[k := v];
            && Indexed(slots', at')
            && Agrees(slots', at', IdealRecord(ideal, k, now, windowMs), evicted + Lost(gone))
  {
  }

  lemma StampedRelease(slots: seq<Slot>, touched: map<Key, nat>, i: nat)
    requires Stamped(slots, touched) && i < |slots|
    ensures Stamped(slots[i := slots[i].(used := false)], touched)
  {
  }

  /** A key touched no later than any other of them. */
  ghost predicate LeastRecent(keys: set<Key>, touched: map<Key, nat>, gone: Key) {
    && gone in keys && gone in touched
    && forall other :: other in keys ==> other in touched && touched[gone] <= touched[other]
  }

  lemma OldestKey(slots: seq<Slot>, at: map<Key, nat>, touched: map<Key, nat>, v: nat)
    requires Indexed(slots, at) && Stamped(slots, touched) && Full(slots) && v < |slots|
    requires forall j :: 0 <= j < |slots| ==> slots[v].last <= slots[j].last
    ensures LeastRecent(at.Keys, touched, slots[v].key) && |at| == |slots|
  {
    IndexSize(slots, at);
  }

  /** A slot to give up: a free one, or one last touched no later than any other. */
  ghost predicate Oldest(slots: seq<Slot>, v: nat) {
    v < |slots| && (slots[v].used ==> Full(slots) && forall j :: 0 <= j < |slots| ==> slots[v].last <= slots[j].last)
  }

  lemma AfterIs(k: Key, now: nat)
    ensures var s := After(k, Window(now, 0), now); s.used && s.key == k && s.last == now
  {
  }

  /** Whom a new key displaces: nobody while a slot is free, else a key touched least recently. */
  lemma Displaces(slots: seq<Slot>, at: map<Key, nat>, ideal: Ideal, evicted: set<Key>, touched: map<Key, nat>,
                  k: Key, now: nat, windowMs: nat, v: nat)
    requires Indexed(slots, at) && Agrees(slots, at, ideal, evicted) && Stamped(slots, touched) && k !in at && v < |slots|
    requires Oldest(slots, v)
    ensures var gone := if slots[v].used then Some(slots[v].key) else None;
            && (if |at| < |slots| then gone.None? else gone.Some? && LeastRecent(at.Keys, touched, gone.value))
            && (evicted == {} && |IdealRecord(ideal, k, now, windowMs)| <= |slots| ==> evicted + Lost(gone) == {})
  {
    hide Indexed, Agrees, Stamped, LeastRecent, IdealRecord, Full;
    if slots[v].used {
      OldestKey(slots, at, touched, v);
      if evicted == {} {
        FullMeansTooMany(slots, at, ideal, k, now, windowMs);
      }
    } else {
      NotFull(slots, at, v);
    }
  }

  lemma NotFull(slots: seq<Slot>, at: map<Key, nat>, v: nat)
    requires Indexed(slots, at) && v < |slots| && !slots[v].used
    ensures |at| < |slots|
  {
    IndexSize(slots, at);
  }

  // ----- runs

  datatype Op = Ask(key: Key, now: nat) | Count(key: Key, now: nat) | Clear(key: Key)

  function IdealStep(m: Ideal, op: Op, windowMs: nat): (r: Ideal) {
    match op
    case Ask(key, now) => IdealTouch(m, Cut(key), now, windowMs)
    case Count(key, now) => IdealRecord(m, Cut(key), now, windowMs)
    case Clear(key) => m - {Cut(key)}
  }

  function IdealAfter(m: Ideal, ops: seq<Op>, n: nat, windowMs: nat): (r: Ideal)
    requires n <= |ops|
  {
    if n == 0 then m else IdealStep(IdealAfter(m, ops, n - 1, windowMs), ops[n - 1], windowMs)
  }

  /** What an unbounded counter answers. */
  predicate IdealSays(m: Ideal, op: Op, windowMs: nat, maxEvents: nat) {
    op.Ask? && IdealBlocked(m, Cut(op.key), op.now, windowMs, maxEvents)
  }

  predicate IdealAnswer(m: Ideal, ops: seq<Op>, i: nat, windowMs: nat, maxEvents: nat)
    requires i < |ops|
  {
    IdealSays(IdealAfter(m, ops, i, windowMs), ops[i], windowMs, maxEvents)
  }

  // ----- what the ideal counts

  predicate Touches(op: Op, k: Key) {
    !op.Clear? && Cut(op.key) == k
  }

  /** The events of key `k` among operations `o` to `n`. */
  function Events(ops: seq<Op>, k: Key, o: nat, n: nat): (c: nat)
    requires o <= n <= |ops|
  {
    if o == n then 0
    else Events(ops, k, o, n - 1) + (if ops[n - 1].Count? && Cut(ops[n - 1].key) == k then 1 else 0)
  }

  /** Operation `o` opened the window: every later one on the key fell in it, and none cleared it. */
  ghost predicate Opened(ops: seq<Op>, k: Key, o: nat, n: nat, windowMs: nat) {
    && o < n <= |ops| && Touches(ops[o], k)
    && forall i :: o < i < n && Cut(ops[i].key) == k ==> !ops[i].Clear? && Since(ops[o].now, ops[i].now) < windowMs
  }

  /** Each count is exactly the events since the operation that opened the current window. */
  lemma {:induction false} CountsItsWindow(ops: seq<Op>, n: nat, k: Key, windowMs: nat) returns (o: nat)
    requires n <= |ops| && k in IdealAfter(map[], ops, n, windowMs)
    ensures Opened(ops, k, o, n, windowMs)
    ensures IdealAfter(map[], ops, n, windowMs)[k].start == ops[o].now
    ensures IdealAfter(map[], ops, n, windowMs)[k].count ==
            if Events(ops, k, o, n) < UINT32_MAX then Events(ops, k, o, n) else UINT32_MAX
  {
    hide Since;
    var m, op := IdealAfter(map[], ops, n - 1, windowMs), ops[n - 1];
    if k !in m || (Touches(op, k) && Since(m[k].start, op.now) >= windowMs) {
      o := n - 1;
      assert Events(ops, k, n - 1, n - 1) == 0;
    } else {
      o := CountsItsWindow(ops, n - 1, k, windowMs);
    }
  }

  /** At no time does the unbounded counter hold more than `cap` keys. */
  ghost predicate Fits(m: Ideal, ops: seq<Op>, windowMs: nat, cap: nat) {
    forall i :: 0 <= i <= |ops| ==> |IdealAfter(m, ops, i, windowMs)| <= cap
  }

  // ----- which keys the table has

  /** A new key that finds `cap` keys there takes the place of one touched least recently; nothing else evicts. */
  ghost predicate Moves(cap: nat, r: Residents, op: Op, t: Residents) {
    var k := Cut(op.key);
    match op
    case Ask(_, now) => t == r.(touched := r.touched[k := now])
    case Clear(_) => t == r.(keys := r.keys - {k}, evicted := r.evicted - {k})
    case Count(_, now) =>
      if k in r.keys || |r.keys| < cap then t == r.(keys := r.keys + {k}, touched := r.touched[k := now])
      else exists gone ::
        && LeastRecent(r.keys, r.touched, gone)
        && t == Residents(r.keys - {gone} + {k}, r.touched[k := now], r.evicted + {gone})
  }

  lemma CountMoves(cap: nat, r: Residents, op: Op, t: Residents, gone: Option<Key>)
    requires op.Count? && t == Displaced(r, Cut(op.key), op.now, gone)
    requires if Cut(op.key) in r.keys || |r.keys| < cap then gone.None? else gone.Some? && LeastRecent(r.keys, r.touched, gone.value)
    ensures Moves(cap, r, op, t)
  {
    hide LeastRecent, Cut;
    if gone.None? {
      assert r.keys - {} == r.keys && r.evicted + {} == r.evicted;
    }
  }

  ghost predicate Follows(cap: nat, there: seq<Residents>, ops: seq<Op>, i: nat) {
    i < |ops| && i + 1 < |there| && Moves(cap, there[i], ops[i], there[i + 1])
  }

  ghost predicate AllFollow(cap: nat, there: seq<Residents>, ops: seq<Op>, n: nat) {
    forall i :: 0 <= i < n ==> Follows(cap, there, ops, i)
  }

  /** About every key not then evicted, the answers are the unbounded counter's. */
  ghost predicate AllAgree(m: Ideal, ops: seq<Op>, there: seq<Residents>, answers: seq<bool>, n: nat, windowMs: nat, maxEvents: nat) {
    && |answers| == n <= |ops| && |there| == n + 1
    && forall i :: 0 <= i < n && Cut(ops[i].key) !in there[i].evicted ==>
         answers[i] == IdealAnswer(m, ops, i, windowMs, maxEvents)
  }

  lemma AgreesMore(m: Ideal, ops: seq<Op>, there: seq<Residents>, answers: seq<bool>, n: nat, windowMs: nat, maxEvents: nat,
                   answer: bool, t: Residents)
    requires n < |ops| && AllAgree(m, ops, there, answers, n, windowMs, maxEvents)
    requires Cut(ops[n].key) !in there[n].evicted ==> answer == IdealAnswer(m, ops, n, windowMs, maxEvents)
    ensures AllAgree(m, ops, there + [t], answers + [answer], n + 1, windowMs, maxEvents)
  {
    hide Cut, IdealAnswer;
  }

  lemma NoneFollow(cap: nat, m: Ideal, ops: seq<Op>, there: seq<Residents>, answers: seq<bool>, windowMs: nat, maxEvents: nat)
    requires answers == [] && |there| == 1
    ensures AllFollow(cap, there, ops, 0) && AllAgree(m, ops, there, answers, 0, windowMs, maxEvents)
  {
  }

  lemma FollowsMore(cap: nat, there: seq<Residents>, ops: seq<Op>, n: nat, t: Residents)
    requires |there| == n + 1 && n < |ops| && Moves(cap, there[n], ops[n], t)
    requires AllFollow(cap, there, ops, n)
    ensures AllFollow(cap, there + [t], ops, n + 1)
  {
    hide Moves;
    var there' := there + [t];
    forall i | 0 <= i < n + 1 ensures Follows(cap, there', ops, i) {
      if i < n {
        assert Follows(cap, there, ops, i);
      }
    }
  }

  class Limiter {
    const maxEvents: nat
    const windowMs: nat
    const slots: array<Slot>
    ghost var at: map<Key, nat>
    ghost var ideal: Ideal
    ghost var evicted: set<Key>
    ghost var touched: map<Key, nat>

    ghost predicate Valid()
      reads this, slots
    {
      && slots.Length > 0
      && Indexed(slots[..], at)
      && Agrees(slots[..], at, ideal, evicted)
      && Stamped(slots[..], touched)
    }

    ghost function Present(): (r: Residents)
      reads this
    {
      Residents(at.Keys, touched, evicted)
    }

    constructor (maxEvents: nat, windowMs: nat, capacity: nat)
      requires capacity > 0
      ensures Valid() && slots.Length == capacity && fresh(slots)
      ensures this.maxEvents == maxEvents && this.windowMs == windowMs
      ensures ideal == map[] && Present() == Residents({}, map[], {})
    {
      this.maxEvents := maxEvents;
      this.windowMs := windowMs;
      slots := new Slot[capacity](i => Slot([], 0, 0, 0, false));
      at, ideal, evicted, touched := map[], map[], {}, map[];
    }

    /** Where the key is, if it is in the table. */
    method Find(k: Key) returns (r: Option<nat>)
      requires Valid()
      ensures r.None? <==> k !in at
      ensures r.Some? ==> r.value == at[k]
    {
      var i := 0;
      while i < slots.Length
        invariant i <= slots.Length
        invariant forall j :: 0 <= j < i ==> !(slots[..][j].used && slots[..][j].key == k)
      {
        var s := slots[i];
        if s.used && s.key == k {
          assert slots[..][i] == s;
          return Some(i);
        }
        assert slots[..][i] == s;
        i := i + 1;
      }
      return None;
    }

    /** The first free slot, or else one touched least recently. */
    method Victim() returns (v: nat)
      requires Valid()
      ensures v < slots.Length && Oldest(slots[..], v)
    {
      v := 0;
      var i := 0;
      while i < slots.Length
        invariant i <= slots.Length && v < slots.Length
        invariant forall j :: 0 <= j < i ==> slots[..][j].used && slots[v].last <= slots[..][j].last
      {
        assert slots[..][i] == slots[i];
        if !slots[i].used {
          return i;
        }
        if i == 0 || slots[i].last < slots[v].last {
          v := i;
        }
        i := i + 1;
      }
    }

    /** Whether the key's window is already full. Asking counts as a touch and not as an event. */
    method Blocked(key: Key, now: nat) returns (b: bool)
      requires Valid()
      modifies this, slots
      ensures Valid() && evicted == old(evicted) && at == old(at)
      ensures ideal == IdealTouch(old(ideal), Cut(key), now, windowMs)
      ensures touched == old(touched)[Cut(key) := now]
      ensures Cut(key) !in evicted ==> b == IdealBlocked(old(ideal), Cut(key), now, windowMs, maxEvents)
    {
      hide Indexed, Agrees, Stamped;
      var k := Cut(key);
      var found := Find(k);
      ghost var was := slots[..];
      if found.None? {
        AbsentTouch(was, at, ideal, evicted, k, now, windowMs);
        StampedOther(was, at, touched, k, now);
        b := false;
      } else {
        var i := found.value;
        SlotOf(was, at, k);
        var w := Rolled(Window(slots[i].start, slots[i].count), now, windowMs);
        slots[i] := Slot(k, w.start, now, w.count, true);
        b := w.count >= maxEvents;
        assert slots[..] == was[i := slots[i]];
        PresentTouch(was, at, ideal, evicted, k, now, windowMs);
        StampedUpdate(was, at, touched, i, slots[i]);
      }
      ideal := IdealTouch(ideal, k, now, windowMs);
      touched := touched[k := now];
    }

    method Store(v: nat, s: Slot)
      requires v < slots.Length
      modifies slots
      ensures slots[..] == old(slots[..])[v := s]
    {
      slots[v] := s;
    }

    /** A slot for a key that has none, its first event counted. */
    method Claim(k: Key, now: nat) returns (ghost gone: Option<Key>)
      requires Valid() && k !in at
      modifies this, slots
      ensures Valid()
      ensures ideal == IdealRecord(old(ideal), k, now, windowMs) && Present() == Displaced(old(Present()), k, now, gone)
      ensures if |old(at)| < slots.Length then gone.None? else gone.Some? && LeastRecent(old(at.Keys), old(touched), gone.value)
      ensures old(evicted) == {} && |ideal| <= slots.Length ==> evicted == {}
    {
      hide Indexed, Agrees, Stamped, LeastRecent, Oldest, IdealRecord, After, Lost, Displaced;
      var v := Victim();
      ghost var was := slots[..];
      gone := if was[v].used then Some(was[v].key) else None;
      AbsentRecord(was, at, ideal, evicted, k, now, windowMs, v);
      Displaces(was, at, ideal, evicted, touched, k, now, windowMs, v);
      KeysAfter(at, touched, evicted, k, v, now, gone);
      AfterIs(k, now);
      var s := After(k, Window(now, 0), now);
      StampedUpdate(was, at, touched, v, s);
      ghost var at' := (at - Lost(gone))[k := v];
      Store(v, s);
      at, evicted, ideal, touched := at', evicted + Lost(gone), IdealRecord(ideal, k, now, windowMs), touched[k := now];
    }

    /** Counts an event. Only a new key that finds the table full costs another key its slot. */
    method Record(key: Key, now: nat) returns (ghost gone: Option<Key>)
      requires Valid()
      modifies this, slots
      ensures Valid()
      ensures ideal == IdealRecord(old(ideal), Cut(key), now, windowMs)
      ensures Present() == Displaced(old(Present()), Cut(key), now, gone)
      ensures if Cut(key) in old(at) || |old(at)| < slots.Length then gone.None?
              else gone.Some? && LeastRecent(old(at.Keys), old(touched), gone.value)
      ensures old(evicted) == {} && |ideal| <= slots.Length ==> evicted == {}
    {
      hide Indexed, Agrees, Stamped, LeastRecent;
      var k := Cut(key);
      var found := Find(k);
      if found.None? {
        gone := Claim(k, now);
        return;
      }
      gone := None;
      KeysAfter(at, touched, evicted, k, 0, now, None);
      var i := found.value;
      ghost var was := slots[..];
      SlotOf(was, at, k);
      slots[i] := After(k, Rolled(Window(slots[i].start, slots[i].count), now, windowMs), now);
      assert slots[..] == was[i := slots[i]];
      PresentRecord(was, at, ideal, evicted, k, now, windowMs);
      StampedUpdate(was, at, touched, i, slots[i]);
      ideal := IdealRecord(ideal, k, now, windowMs);
      touched := touched[k := now];
    }

    /** Forgets the key, in the table and in the ideal: they agree about it again. */
    method Reset(key: Key)
      requires Valid()
      modifies this, slots
      ensures Valid() && at.Keys == old(at.Keys) - {Cut(key)}
      ensures ideal == old(ideal) - {Cut(key)} && evicted == old(evicted) - {Cut(key)}
      ensures touched == old(touched)
    {
      hide Indexed, Agrees, Stamped;
      var k := Cut(key);
      var found := Find(k);
      ghost var was := slots[..];
      ReleaseKeeps(was, at, ideal, evicted, k);
      if found.Some? {
        var i := found.value;
        SlotOf(was, at, k);
        slots[i] := slots[i].(used := false);
        assert slots[..] == was[i := slots[i]];
        StampedRelease(was, touched, i);
        at := at - {k};
      }
      ideal, evicted := ideal - {k}, evicted - {k};
    }

    method Perform(op: Op) returns (b: bool)
      requires Valid()
      modifies this, slots
      ensures Valid() && ideal == IdealStep(old(ideal), op, windowMs)
      ensures Moves(slots.Length, old(Present()), op, Present())
      ensures Cut(op.key) !in old(evicted) ==> b == IdealSays(old(ideal), op, windowMs, maxEvents)
      ensures old(evicted) == {} && |ideal| <= slots.Length ==> evicted == {}
    {
      hide Limiter.Valid, LeastRecent, IdealTouch, IdealRecord, IdealBlocked, Cut, Lost;
      b := false;
      match op {
        case Ask(key, now) =>
          b := Blocked(key, now);
        case Count(key, now) =>
          ghost var r := Present();
          ghost var gone := Record(key, now);
          CountMoves(slots.Length, r, op, Present(), gone);
        case Clear(key) =>
          Reset(key);
      }
    }

    /**
      Over any run the limiter answers as an unbounded counter would, about every key not
      evicted since its last reset. A key is evicted only when a new one finds the table
      full, and then one touched least recently; so never, while the counter fits the table.
     */
    method Run(ops: seq<Op>) returns (answers: seq<bool>, ghost there: seq<Residents>)
      requires Valid() && evicted == {}
      modifies this, slots
      ensures Valid() && |answers| == |ops| && |there| == |ops| + 1
      ensures there[0] == old(Present()) && there[|ops|] == Present()
      ensures AllFollow(slots.Length, there, ops, |ops|)
      ensures AllAgree(old(ideal), ops, there, answers, |ops|, windowMs, maxEvents)
      ensures Fits(old(ideal), ops, windowMs, slots.Length) ==> forall i :: 0 <= i <= |ops| ==> there[i].evicted == {}
    {
      hide Limiter.Valid, Cut, IdealSays, IdealStep, Moves, AllFollow, AllAgree;
      ghost var m := ideal;
      answers, there := [], [Present()];
      NoneFollow(slots.Length, m, ops, there, answers, windowMs, maxEvents);
      var n := 0;
      while n < |ops|
        invariant n <= |ops| && Valid() && |answers| == n && |there| == n + 1
        invariant there[0] == old(Present()) && there[n] == Present() && ideal == IdealAfter(m, ops, n, windowMs)
        invariant AllFollow(slots.Length, there, ops, n)
        invariant AllAgree(m, ops, there, answers, n, windowMs, maxEvents)
        invariant Fits(m, ops, windowMs, slots.Length) ==> forall i :: 0 <= i <= n ==> there[i].evicted == {}
      {
        assert Fits(m, ops, windowMs, slots.Length) ==> |IdealAfter(m, ops, n + 1, windowMs)| <= slots.Length;
        var answer := Perform(ops[n]);
        FollowsMore(slots.Length, there, ops, n, Present());
        AgreesMore(m, ops, there, answers, n, windowMs, maxEvents, answer, Present());
        there, answers := there + [Present()], answers + [answer];
        n := n + 1;
      }
    }
  }
}
