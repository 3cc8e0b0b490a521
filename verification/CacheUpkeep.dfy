/**
  How the cache looks after itself: the pass that brings the blob directory
  within its budget, and the wait after a failed upload.
 */
module CacheUpkeep {
  import opened Basics

  datatype Entry = Entry(name: nat, size: nat, atime: nat)

  function Total(s: seq<Entry>): (n: nat) {
    if s == [] then 0 else s[0].size + Total(s[1..])
  }

  lemma {:induction false} TotalConcat(a: seq<Entry>, b: seq<Entry>)
    ensures Total(a + b) == Total(a) + Total(b)
  {
    if a == [] {
      assert a + b == b;
    } else {
      TotalConcat(a[1..], b);
      assert (a + b)[1..] == a[1..] + b;
    }
  }

  /** Those whose names are not in `out`, in order. */
  function Keep(s: seq<Entry>, out: set<nat>): (r: seq<Entry>)
  {
    if s == [] then [] else (if s[0].name in out then [] else [s[0]]) + Keep(s[1..], out)
  }

  lemma {:induction false} KeepMember(s: seq<Entry>, out: set<nat>, e: Entry)
    ensures e in Keep(s, out) <==> e in s && e.name !in out
  {
    if s != [] {
      KeepMember(s[1..], out, e);
      assert e in s <==> e == s[0] || e in s[1..];
    }
  }

  lemma {:induction false} KeepConcat(a: seq<Entry>, b: seq<Entry>, out: set<nat>)
    ensures Keep(a + b, out) == Keep(a, out) + Keep(b, out)
  {
    if a == [] {
      assert a + b == b;
    } else {
      KeepConcat(a[1..], b, out);
      assert (a + b)[1..] == a[1..] + b;
      var first := if a[0].name in out then [] else [a[0]];
      assert first + (Keep(a[1..], out) + Keep(b, out)) == (first + Keep(a[1..], out)) + Keep(b, out);
    }
  }

  ghost predicate LeastRecentFirst(s: seq<Entry>) {
    forall i, j :: 0 <= i < j < |s| ==> s[i].atime <= s[j].atime
  }

  /** The policy's share of the room: half when it is not set, all of it at most. */
  function Share(policy: nat): (pct: nat)
    ensures pct <= 100
  {
    if policy == 0 then 50 else if policy > 100 then 100 else policy
  }

  /** What the directory may hold; no limit when the free space cannot be measured. */
  function Budget(avail: Option<nat>, total: nat, floor: nat, policy: nat): (b: Option<nat>)
    ensures b.Some? <==> avail.Some?
    ensures b.Some? ==> b.value <= if avail.value + total > floor then avail.value + total - floor else 0
  {
    if avail.None? then None
    else
      var room := if avail.value + total > floor then avail.value + total - floor else 0;
      assert room / 100 * Share(policy) <= room / 100 * 100 by { Scaled(room / 100, Share(policy), 100); }
      Some(room / 100 * Share(policy))
  }

  lemma Scaled(x: nat, a: nat, b: nat)
    requires a <= b
    ensures x * a <= x * b
  {
  }

  predicate Over(total: nat, budget: Option<nat>) {
    budget.Some? && total > budget.value
  }

  /**
    What an eviction pass leaves. `order` is the blobs not queued when the
    directory was read, least recently read first, of which the pass got as far
    as `order[..m]`; `spared` are those queued since or that would not unlink.
   */
  ghost predicate Evicted(files: seq<Entry>, order: seq<Entry>, m: nat, spared: set<nat>, evicted: seq<Entry>,
                          total: nat, budget: Option<nat>)
  {
    && m <= |order| && evicted == Keep(order[..m], spared)
    && total + Total(evicted) == Total(files)
    && (Over(total, budget) ==> m == |order|)
    && (evicted != [] ==> Over(total + evicted[|evicted| - 1].size, budget))
  }

  /**
    The pass over a directory holding `files`, `queued` of them with a put entry
    when it was read; `requeued` have one by the time they are looked at again,
    and `stuck` cannot be unlinked. `order` is what the library sort makes of the
    rest, ties in any order.
   */
  method EvictionPass(files: seq<Entry>, queued: set<nat>, order: seq<Entry>, requeued: set<nat>, stuck: set<nat>,
                      avail: Option<nat>, floor: nat, policy: nat)
    returns (evicted: seq<Entry>, total: nat, budget: Option<nat>, ghost m: nat)
    requires multiset(order) == multiset(Keep(files, queued)) && LeastRecentFirst(order)
    ensures budget == Budget(avail, Total(files), floor, policy)
    ensures Evicted(files, order, m, requeued + stuck, evicted, total, budget)
  {
    total := 0;
    for i := 0 to |files|
      invariant total == Total(files[..i])
    {
      assert files[..i + 1] == files[..i] + [files[i]];
      TotalConcat(files[..i], [files[i]]);
      total := total + files[i].size;
    }
    assert files[..|files|] == files;
    budget := Budget(avail, total, floor, policy);
    hide LeastRecentFirst, Budget, Keep;
    evicted := [];
    var i := 0;
    assert order[..0] == [] && Keep([], requeued + stuck) == [] by { KeepNone(requeued + stuck); }
    while i < |order| && Over(total, budget)
      invariant 0 <= i <= |order|
      invariant evicted == Keep(order[..i], requeued + stuck)
      invariant total + Total(evicted) == Total(files)
      invariant evicted != [] ==> Over(total + evicted[|evicted| - 1].size, budget)
    {
      KeepNext(order, i, requeued + stuck);
      if order[i].name !in requeued && order[i].name !in stuck {
        TotalConcat(evicted, [order[i]]);
        StillThere(files, queued, order, i, requeued + stuck);
        evicted := evicted + [order[i]];
        total := total - order[i].size;
      }
      i := i + 1;
    }
    m := i;
  }

  lemma KeepNone(out: set<nat>)
    ensures Keep([], out) == []
  {
  }

  lemma KeepNext(s: seq<Entry>, i: nat, out: set<nat>)
    requires i < |s|
    ensures Keep(s[..i + 1], out) == if s[i].name in out then Keep(s[..i], out) else Keep(s[..i], out) + [s[i]]
  {
    assert s[..i + 1] == s[..i] + [s[i]];
    KeepConcat(s[..i], [s[i]], out);
    assert Keep([s[i]], out) == if s[i].name in out then [] else [s[i]];
  }

  /** What is left counts every blob not yet evicted. */
  lemma StillThere(files: seq<Entry>, queued: set<nat>, order: seq<Entry>, i: nat, spared: set<nat>)
    requires multiset(order) == multiset(Keep(files, queued)) && i < |order|
    ensures Total(Keep(order[..i], spared)) + order[i].size <= Total(files)
  {
    KeepTotal(files, queued);
    SameTotal(order, Keep(files, queued));
    assert order == order[..i] + ([order[i]] + order[i + 1..]);
    TotalConcat(order[..i], [order[i]] + order[i + 1..]);
    KeepTotal(order[..i], spared);
  }

  lemma {:induction false} KeepTotal(s: seq<Entry>, out: set<nat>)
    ensures Total(Keep(s, out)) <= Total(s)
  {
    if s != [] {
      KeepTotal(s[1..], out);
      TotalConcat(if s[0].name in out then [] else [s[0]], Keep(s[1..], out));
    }
  }

  /** A sequence with one of its members taken out. */
  lemma TakeOut(b: seq<Entry>, p: nat)
    requires p < |b|
    ensures multiset(b[..p] + b[p + 1..]) == multiset(b) - multiset{b[p]}
    ensures Total(b) == b[p].size + Total(b[..p] + b[p + 1..])
  {
    hide Total;
    var front, back := b[..p], b[p + 1..];
    assert b == front + ([b[p]] + back);
    TotalConcat(front, [b[p]] + back);
    TotalConcat(front, back);
    TotalFront(b[p], back);
  }

  lemma TotalFront(e: Entry, s: seq<Entry>)
    ensures Total([e] + s) == e.size + Total(s)
  {
    assert ([e] + s)[1..] == s;
  }

  lemma {:induction false} SameTotal(a: seq<Entry>, b: seq<Entry>)
    requires multiset(a) == multiset(b)
    ensures Total(a) == Total(b)
    decreases |a|
  {
    if a == [] {
      assert |multiset(b)| == 0;
    } else {
      assert a[0] in multiset(b);
      var p :| 0 <= p < |b| && b[p] == a[0];
      assert a[..0] + a[1..] == a[1..];
      TakeOut(a, 0);
      TakeOut(b, p);
      SameTotal(a[1..], b[..p] + b[p + 1..]);
    }
  }

  /** Nothing evicted was queued, and nothing left that could have gone was read less recently than anything evicted. */
  lemma EvictsLeastRecent(files: seq<Entry>, queued: set<nat>, order: seq<Entry>, m: nat, spared: set<nat>,
                          evicted: seq<Entry>, total: nat, budget: Option<nat>, e: Entry, f: Entry)
    requires multiset(order) == multiset(Keep(files, queued)) && LeastRecentFirst(order)
    requires Evicted(files, order, m, spared, evicted, total, budget) && e in evicted
    ensures e in files && e.name !in queued && e.name !in spared
    ensures f in files && f.name !in queued && f.name !in spared && f !in evicted ==> f in order[m..] && e.atime <= f.atime
  {
    hide Keep;
    KeepMember(order[..m], spared, e);
    KeepMember(order[..m], spared, f);
    KeepMember(files, queued, e);
    KeepMember(files, queued, f);
    SameMember(order, Keep(files, queued), e);
    SameMember(order, Keep(files, queued), f);
    assert order == order[..m] + order[m..];
  }

  lemma SameMember(a: seq<Entry>, b: seq<Entry>, e: Entry)
    requires multiset(a) == multiset(b)
    ensures e in a <==> e in b
  {
    assert e in multiset(a) <==> e in multiset(b);
  }

  // ----- the wait after a failure

  const TWO64: nat := 0x1_0000_0000_0000_0000

  /** The wait before jitter, in 64-bit arithmetic: the product may wrap. */
  function Backoff(base: nat, cap: nat, f: nat): (d: nat)
    requires base < TWO64 && cap < TWO64 && 1 <= f
  {
    var d := ((base * f) % TWO64 * f) % TWO64;
    if d > cap || d / f / f != base then cap else d
  }

  lemma WrapOnce(x: nat, f: nat)
    ensures (x % TWO64 * f) % TWO64 == (x * f) % TWO64
  {
    var q, r := x / TWO64, x % TWO64;
    assert x * f == (q * TWO64 + r) * f == (q * f) * TWO64 + r * f;
  }

  lemma DividesBack(d: nat, base: nat, f: nat)
    requires f >= 1 && d / f / f == base
    ensures d >= base * f * f
  {
    var e := d / f;
    assert e >= base * f;
    assert d >= e * f >= base * f * f by { Scaled(f, base * f, e); }
  }

  lemma MulDiv(a: nat, f: nat)
    requires f >= 1
    ensures a * f / f == a
  {
    var q := a * f / f;
    assert q * f <= a * f < q * f + f;
    if q < a {
      Scaled(f, q + 1, a);
    } else if q > a {
      Scaled(f, a + 1, q);
    }
  }

  /** The wait is exactly base times the square of the failures, capped, whether or not the product wraps. */
  lemma BackoffExact(base: nat, cap: nat, f: nat)
    requires base < TWO64 && cap < TWO64 && 1 <= f
    ensures Backoff(base, cap, f) == Wait(base, cap, f)
  {
    var p := base * f * f;
    WrapOnce(base * f, f);
    if p < TWO64 {
      Unwrapped(p);
      MulDiv(base * f, f);
      MulDiv(base, f);
    } else {
      Wrapped(p);
      NotBack(p % TWO64, base, f);
    }
  }

  lemma Unwrapped(p: nat)
    requires p < TWO64
    ensures p % TWO64 == p
  {
  }

  lemma Wrapped(p: nat)
    requires p >= TWO64
    ensures p % TWO64 < p
  {
  }

  lemma NotBack(d: nat, base: nat, f: nat)
    requires f >= 1 && d < base * f * f
    ensures d / f / f != base
  {
    if d / f / f == base {
      DividesBack(d, base, f);
    }
  }

  /** Quadratic in the failures in a row, up to the cap. */
  function Wait(base: nat, cap: nat, f: nat): (d: nat) {
    if base * f * f <= cap then base * f * f else cap
  }

  /** Up to a fifth either way, in 64-bit arithmetic; `r` is the random number drawn. */
  function Jittered(d: nat, r: nat): (w: nat)
    requires d < TWO64
    ensures d + d / 5 < TWO64 ==> d - d / 5 <= w <= d + d / 5
  {
    var j := d / 5;
    if j == 0 then d else (d - j + r % (2 * j + 1)) % TWO64
  }

  const RETRY_BASE_MS: nat := 2000
  const RETRY_CAP_MS: nat := 900000

  /** One attempt on the store: when it ended, how, and the random number drawn if it failed. */
  datatype Attempt = Attempt(ok: bool, now: nat, r: nat)

  /** How many of the last attempts failed in a row. */
  function Streak(tries: seq<Attempt>): (n: nat)
    ensures n <= |tries|
  {
    if tries == [] || tries[|tries| - 1].ok then 0 else 1 + Streak(tries[..|tries| - 1])
  }

  /** When the next attempt may be made: at once after a success, else a fifth either side of the wait. */
  ghost predicate Paced(tries: seq<Attempt>, base: nat, cap: nat, next: nat) {
    if Streak(tries) == 0 then next == 0
    else
      var now, d := tries[|tries| - 1].now, Wait(base, cap, Streak(tries));
      now + d + d / 5 < TWO64 ==> now + d - d / 5 <= next <= now + d + d / 5
  }

  class Retry {
    const base: nat
    const cap: nat
    var failures: nat
    var nextTry: nat

    constructor (policyBase: nat, policyCap: nat)
      ensures base == (if policyBase == 0 then RETRY_BASE_MS else policyBase) && failures == 0 && nextTry == 0
      ensures cap == if policyCap == 0 then RETRY_CAP_MS else policyCap
    {
      base := if policyBase == 0 then RETRY_BASE_MS else policyBase;
      cap := if policyCap == 0 then RETRY_CAP_MS else policyCap;
      failures, nextTry := 0, 0;
    }

    method NoteFailure(ghost before: seq<Attempt>, t: Attempt)
      requires !t.ok && failures == Streak(before) && base < TWO64 && cap < TWO64
      modifies this
      ensures failures == Streak(before + [t]) && Paced(before + [t], base, cap, nextTry)
    {
      failures := failures + 1;
      assert (before + [t])[..|before|] == before;
      BackoffExact(base, cap, failures);
      var d := Backoff(base, cap, failures);
      hide Backoff, Wait;
      nextTry := (t.now + Jittered(d, t.r)) % TWO64;
    }

    method NoteSuccess()
      modifies this
      ensures failures == 0 && nextTry == 0
    {
      failures, nextTry := 0, 0;
    }

    /** Over any history of attempts, the pace is set by the failures since the last success alone. */
    method Note(tries: seq<Attempt>)
      requires failures == 0 && nextTry == 0 && base < TWO64 && cap < TWO64
      modifies this
      ensures failures == Streak(tries) && Paced(tries, base, cap, nextTry)
    {
      hide Wait, Paced;
      var i := 0;
      PacedAtFirst(base, cap);
      while i < |tries|
        invariant i <= |tries| && failures == Streak(tries[..i]) && Paced(tries[..i], base, cap, nextTry)
      {
        assert tries[..i + 1] == tries[..i] + [tries[i]];
        if tries[i].ok {
          NoteSuccess();
          PacedAfterSuccess(tries[..i + 1], base, cap);
        } else {
          NoteFailure(tries[..i], tries[i]);
        }
        i := i + 1;
      }
      assert tries[..i] == tries;
    }
  }

  lemma PacedAtFirst(base: nat, cap: nat)
    ensures Paced([], base, cap, 0)
  {
  }

  lemma PacedAfterSuccess(tries: seq<Attempt>, base: nat, cap: nat)
    requires tries != [] && tries[|tries| - 1].ok
    ensures Streak(tries) == 0 && Paced(tries, base, cap, 0)
  {
  }
}
