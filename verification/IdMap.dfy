/**
  The fixed-capacity id map: open addressing, linear probing, and deletion by
  backward shift, so that no tombstone is ever left behind. The hash is an
  arbitrary function, so every result here holds for every hash.
 */
module IdMaps {
  import opened Basics

  /** An unsigned 64-bit id; 0 marks an empty slot. */
  type Key = k: nat | k < 0x1_0000_0000_0000_0000

  /** How many slots forward `b` lies from `a`, going round the end. */
  function Dist(cap: nat, a: nat, b: nat): (d: nat)
    requires a < cap && b < cap
  {
    if a <= b then b - a else b + cap - a
  }

  /** The slot after `i`; `(i + 1) & (cap - 1)`, as `cap` is a power of two. */
  function After(cap: nat, i: nat): (r: nat)
    requires i < cap
  {
    if i + 1 == cap then 0 else i + 1
  }

  predicate PowerOfTwo(n: nat) {
    n == 1 || (n > 0 && n % 2 == 0 && PowerOfTwo(n / 2))
  }

  /** The multiply-and-shift the daemon hashes with, before the mask. */
  function Fibonacci(key: Key): nat {
    (key * 0x9E37_79B9_7F4A_7C15) % 0x1_0000_0000_0000_0000 / 0x1_0000_0000
  }

  /** A hash cut down to a table's slots; `& (cap - 1)`, as `cap` is a power of two. */
  function Masked(spread: Key -> nat, cap: nat): (home: Key -> nat)
    ensures cap > 0 ==> forall k :: home(k) < cap
  {
    (k: Key) => if cap == 0 then 0 else spread(k) % cap
  }

  /** `at` tells, for exactly the keys in the table, the one slot each sits in. */
  ghost predicate Indexed(keys: seq<Key>, at: map<Key, nat>) {
    && (forall k :: k in at ==> k != 0 && at[k] < |keys| && keys[at[k]] == k)
    && (forall x :: 0 <= x < |keys| && keys[x] != 0 ==> keys[x] in at && at[keys[x]] == x)
  }

  /** From a probe's start up to, not including, slot `to`, no slot is empty. */
  ghost predicate NoGap(keys: seq<Key>, from: nat, to: nat)
    requires from < |keys| && to < |keys|
  {
    forall x :: 0 <= x < |keys| && Dist(|keys|, from, x) < Dist(|keys|, from, to) ==> keys[x] != 0
  }

  /** Every key is reached from its home without meeting an empty slot. */
  ghost predicate Reachable(keys: seq<Key>, at: map<Key, nat>, home: Key -> nat)
    requires Indexed(keys, at) && forall k :: home(k) < |keys|
  {
    forall k :: k in at ==> NoGap(keys, home(k), at[k])
  }

  /** A probe that has met no empty slot and not the key, and now meets an empty slot, proves the key absent. */
  lemma ProbeMiss(keys: seq<Key>, at: map<Key, nat>, home: Key -> nat, key: Key, i: nat)
    requires Indexed(keys, at) && (forall k :: home(k) < |keys|) && Reachable(keys, at, home)
    requires i < |keys| && keys[i] == 0
    requires forall x :: 0 <= x < |keys| && Dist(|keys|, home(key), x) < Dist(|keys|, home(key), i) ==> keys[x] != key
    ensures key !in at
  {
  }

  lemma PutKeeps(keys: seq<Key>, at: map<Key, nat>, home: Key -> nat, key: Key, i: nat)
    requires Indexed(keys, at) && (forall k :: home(k) < |keys|) && Reachable(keys, at, home)
    requires i < |keys| && keys[i] == 0 && key != 0 && key !in at && NoGap(keys, home(key), i)
    ensures Indexed(keys[i := key], at[key := i]) && Reachable(keys[i := key], at[key := i], home)
  {
    var keys', at' := keys[i := key], at[key := i];
    forall k | k in at' ensures NoGap(keys', home(k), at'[k]) {
      assert k != key ==> NoGap(keys, home(k), at[k]);
    }
  }

  /**
    The table while a hole is carried forward. Slot `hole` still shows a key that
    no longer counts; `j` is the slot to be looked at next. A key whose path
    crosses the hole sits at `j` or beyond.
   */
  ghost predicate Shifting(keys: seq<Key>, at: map<Key, nat>, home: Key -> nat, hole: nat, j: nat)
    requires forall k :: home(k) < |keys|
  {
    && hole < |keys| && j < |keys| && hole != j && keys[hole] != 0
    && (forall k :: k in at ==> k != 0 && at[k] < |keys| && at[k] != hole && keys[at[k]] == k)
    && (forall x :: 0 <= x < |keys| && x != hole && keys[x] != 0 ==> keys[x] in at && at[keys[x]] == x)
    && (forall k :: k in at ==> NoGap(keys, home(k), at[k]) && SkipsUnlessBeyond(|keys|, home(k), at[k], hole, j))
  }

  ghost predicate SkipsUnlessBeyond(cap: nat, start: nat, end: nat, hole: nat, j: nat)
    requires start < cap && end < cap && hole < cap && j < cap
  {
    Dist(cap, start, hole) < Dist(cap, start, end) ==> Dist(cap, hole, j) <= Dist(cap, hole, end)
  }

  lemma ShiftBegin(keys: seq<Key>, at: map<Key, nat>, home: Key -> nat, key: Key)
    requires |keys| >= 2 && Indexed(keys, at) && (forall k :: home(k) < |keys|) && Reachable(keys, at, home)
    requires key in at
    ensures Shifting(keys, at - {key}, home, at[key], After(|keys|, at[key]))
  {
  }

  /** The source's test, unfolded over the wrap, for a home strictly after the hole and no later than `j`. */
  predicate HomeBetween(hole: nat, h: nat, j: nat) {
    if hole <= j then hole < h && h <= j else hole < h || h <= j
  }

  lemma ShiftSkip(keys: seq<Key>, at: map<Key, nat>, home: Key -> nat, hole: nat, j: nat)
    requires (forall k :: home(k) < |keys|) && Shifting(keys, at, home, hole, j)
    requires keys[j] != 0 && After(|keys|, j) != hole && HomeBetween(hole, home(keys[j]), j)
    ensures Shifting(keys, at, home, hole, After(|keys|, j))
  {
  }

  /** A key that moves back to the hole is reached there along the first part of the path it had. */
  lemma MovedNoGap(keys: seq<Key>, start: nat, hole: nat, j: nat)
    requires start < |keys| && hole < |keys| && j < |keys| && hole != j && keys[j] != 0
    requires NoGap(keys, start, j) && !HomeBetween(hole, start, j)
    ensures NoGap(keys[hole := keys[j]], start, hole)
    ensures SkipsUnlessBeyond(|keys|, start, hole, j, After(|keys|, j))
  {
  }

  lemma ShiftMove(keys: seq<Key>, at: map<Key, nat>, home: Key -> nat, hole: nat, j: nat)
    requires (forall k :: home(k) < |keys|) && Shifting(keys, at, home, hole, j)
    requires |keys| >= 2 && keys[j] != 0 && !HomeBetween(hole, home(keys[j]), j)
    ensures Shifting(keys[hole := keys[j]], at[keys[j] := hole], home, j, After(|keys|, j))
  {
    var keys', at' := keys[hole := keys[j]], at[keys[j] := hole];
    forall k | k in at'
      ensures NoGap(keys', home(k), at'[k]) && SkipsUnlessBeyond(|keys|, home(k), at'[k], j, After(|keys|, j))
    {
      if k == keys[j] {
        MovedNoGap(keys, home(k), hole, j);
      } else {
        assert NoGap(keys, home(k), at[k]);
      }
    }
  }

  lemma ShiftEnd(keys: seq<Key>, at: map<Key, nat>, home: Key -> nat, hole: nat, j: nat)
    requires (forall k :: home(k) < |keys|) && Shifting(keys, at, home, hole, j)
    requires keys[j] == 0
    ensures Indexed(keys[hole := 0], at) && Reachable(keys[hole := 0], at, home)
  {
    var keys' := keys[hole := 0];
    forall k | k in at ensures NoGap(keys', home(k), at[k]) {
      assert NoGap(keys, home(k), at[k]) && SkipsUnlessBeyond(|keys|, home(k), at[k], hole, j);
    }
  }

  /** A table whose keys are fewer than its slots has an empty slot, at which every probe stops. */
  lemma EmptySlot(keys: seq<Key>, at: map<Key, nat>) returns (e: nat)
    requires |at| < |keys| && Indexed(keys, at)
    ensures e < |keys| && keys[e] == 0
  {
    var seen: set<Key> := {};
    e := 0;
    while e < |keys| && keys[e] != 0
      invariant e <= |keys| && |seen| == e && seen <= at.Keys
      invariant forall k :: k in seen ==> at[k] < e
    {
      seen := seen + {keys[e]};
      e := e + 1;
    }
    SubsetSize(seen, at.Keys);
  }

  lemma SubsetSize<T>(a: set<T>, b: set<T>)
    requires a <= b
    ensures |a| <= |b|
  {
    assert b == a + (b - a);
  }

  /** The slots of `keys` and `vals` hold exactly the entries of `contents`, each where a probe finds it. */
  ghost predicate Represents<V>(keys: seq<Key>, vals: seq<Option<V>>, home: Key -> nat, at: map<Key, nat>,
                                contents: map<Key, Option<V>>)
  {
    && |keys| == |vals|
    && at.Keys == contents.Keys && Indexed(keys, at)
    && (forall k :: k in contents ==> vals[at[k]] == contents[k])
    && (|keys| > 0 ==> (forall k :: home(k) < |keys|) && Reachable(keys, at, home))
  }

  lemma ReplaceRepresents<V>(keys: seq<Key>, vals: seq<Option<V>>, home: Key -> nat, at: map<Key, nat>,
                             contents: map<Key, Option<V>>, key: Key, val: Option<V>)
    requires Represents(keys, vals, home, at, contents) && key in contents
    ensures Represents(keys, vals[at[key] := val], home, at, contents[key := val])
  {
  }

  lemma InsertRepresents<V>(keys: seq<Key>, vals: seq<Option<V>>, home: Key -> nat, at: map<Key, nat>,
                            contents: map<Key, Option<V>>, key: Key, val: Option<V>, i: nat)
    requires Represents(keys, vals, home, at, contents) && key !in contents && key != 0
    requires i < |keys| && keys[i] == 0 && NoGap(keys, home(key), i)
    ensures Represents(keys[i := key], vals[i := val], home, at[key := i], contents[key := val])
  {
    PutKeeps(keys, at, home, key, i);
  }

  lemma SomeEmpty<V>(keys: seq<Key>, vals: seq<Option<V>>, home: Key -> nat, at: map<Key, nat>,
                     contents: map<Key, Option<V>>) returns (e: nat)
    requires Represents(keys, vals, home, at, contents) && |contents| < |keys|
    ensures e < |keys| && keys[e] == 0
  {
    SubsetSize(at.Keys, contents.Keys);
    e := EmptySlot(keys, at);
  }

  /** Where a probe that stops tells: at the key's own slot, or, the key absent, at a slot to put it in. */
  lemma ProbeStop<V>(keys: seq<Key>, vals: seq<Option<V>>, home: Key -> nat, at: map<Key, nat>,
                     contents: map<Key, Option<V>>, key: Key, i: nat)
    requires Represents(keys, vals, home, at, contents) && i < |keys| && (keys[i] == key != 0 || keys[i] == 0)
    requires forall x :: 0 <= x < |keys| && Dist(|keys|, home(key), x) < Dist(|keys|, home(key), i)
               ==> keys[x] != key && keys[x] != 0
    ensures key in contents ==> i == at[key] && keys[i] == key && vals[i] == contents[key]
    ensures key !in contents ==> keys[i] == 0 && NoGap(keys, home(key), i)
  {
    if keys[i] == 0 {
      ProbeMiss(keys, at, home, key, i);
    }
  }

  /** `Represents`, while a hole is carried forward; slot `e`, further on, is empty. */
  ghost predicate Carries<V>(keys: seq<Key>, vals: seq<Option<V>>, home: Key -> nat, at: map<Key, nat>,
                             contents: map<Key, Option<V>>, hole: nat, j: nat, e: nat)
  {
    && |keys| == |vals| >= 2 && (forall k :: home(k) < |keys|)
    && Shifting(keys, at, home, hole, j)
    && at.Keys == contents.Keys && (forall k :: k in contents ==> vals[at[k]] == contents[k])
    && e < |keys| && keys[e] == 0 && Dist(|keys|, hole, j) <= Dist(|keys|, hole, e)
  }

  lemma CarryBegin<V>(keys: seq<Key>, vals: seq<Option<V>>, home: Key -> nat, at: map<Key, nat>,
                      contents: map<Key, Option<V>>, key: Key) returns (e: nat)
    requires Represents(keys, vals, home, at, contents) && key in contents
    requires |keys| >= 2 && |contents| < |keys|
    ensures at[key] < |keys|
    ensures Carries(keys, vals, home, at - {key}, contents - {key}, at[key], After(|keys|, at[key]), e)
  {
    e := SomeEmpty(keys, vals, home, at, contents);
    ShiftBegin(keys, at, home, key);
  }

  lemma CarrySkip<V>(keys: seq<Key>, vals: seq<Option<V>>, home: Key -> nat, at: map<Key, nat>,
                     contents: map<Key, Option<V>>, hole: nat, j: nat, e: nat)
    requires Carries(keys, vals, home, at, contents, hole, j, e) && keys[j] != 0
    requires HomeBetween(hole, home(keys[j]), j)
    ensures Carries(keys, vals, home, at, contents, hole, After(|keys|, j), e)
  {
    ShiftSkip(keys, at, home, hole, j);
  }

  lemma CarryMove<V>(keys: seq<Key>, vals: seq<Option<V>>, home: Key -> nat, at: map<Key, nat>,
                     contents: map<Key, Option<V>>, hole: nat, j: nat, e: nat)
    requires Carries(keys, vals, home, at, contents, hole, j, e) && keys[j] != 0
    requires !HomeBetween(hole, home(keys[j]), j)
    ensures Carries(keys[hole := keys[j]], vals[hole := vals[j]], home, at[keys[j] := hole], contents,
                    j, After(|keys|, j), e)
  {
    hide NoGap, SkipsUnlessBeyond;
    ShiftMove(keys, at, home, hole, j);
  }

  lemma CarryEnd<V>(keys: seq<Key>, vals: seq<Option<V>>, home: Key -> nat, at: map<Key, nat>,
                    contents: map<Key, Option<V>>, hole: nat, j: nat, e: nat)
    requires Carries(keys, vals, home, at, contents, hole, j, e) && keys[j] == 0
    ensures Represents(keys[hole := 0], vals[hole := None], home, at, contents)
  {
    ShiftEnd(keys, at, home, hole, j);
  }

  lemma RemoveSize<V>(m: map<Key, V>, key: Key)
    requires key in m
    ensures |m - {key}| == |m| - 1
  {
    assert (m - {key}).Keys == m.Keys - {key};
  }

  class IdMap<V> {
    const cap: nat
    /** The slot a probe for a key starts at: the hash, masked to the table. */
    const home: Key -> nat
    const keys: array<Key>
    const vals: array<Option<V>>
    var n: nat
    /** What the map holds. */
    ghost var Contents: map<Key, Option<V>>
    /** The slot each key sits in. */
    ghost var at: map<Key, nat>

    ghost predicate Valid()
      reads this, keys, vals
    {
      && keys.Length == vals.Length == cap
      && (cap == 0 || cap >= 2)
      && (cap > 0 ==> forall k :: home(k) < cap)
      && n == |Contents| && n <= cap / 2 && 0 !in Contents
      && Represents(keys[..], vals[..], home, at, Contents)
    }

    /** A capacity that is no power of two of at least 2 leaves a map that never holds anything. */
    constructor (capacity: nat, spread: Key -> nat)
      ensures Valid() && Contents == map[]
      ensures fresh(keys) && fresh(vals)
      ensures cap == if capacity >= 2 && PowerOfTwo(capacity) then capacity else 0
    {
      var c := if capacity >= 2 && PowerOfTwo(capacity) then capacity else 0;
      cap := c;
      home := Masked(spread, c);
      keys := new Key[c](_ => 0);
      vals := new Option<V>[c](_ => None);
      n := 0;
      Contents := map[];
      at := map[];
    }

    /** The probe all three operations begin with. */
    method Probe(key: Key) returns (i: nat)
      requires Valid() && key != 0 && cap > 0
      ensures i < cap
      ensures key in Contents ==> i == at[key] && keys[i] == key && vals[i] == Contents[key]
      ensures key !in Contents ==> keys[i] == 0 && NoGap(keys[..], home(key), i)
    {
      hide Represents, NoGap;
      ghost var e := SomeEmpty(keys[..], vals[..], home, at, Contents);
      var start := home(key);
      i := start;
      while keys[i] != key && keys[i] != 0
        invariant i < cap && Dist(cap, start, i) <= Dist(cap, start, e)
        invariant forall x :: 0 <= x < cap && Dist(cap, start, x) < Dist(cap, start, i) ==> keys[x] != key && keys[x] != 0
        decreases cap - Dist(cap, start, i)
      {
        i := After(cap, i);
      }
      ProbeStop(keys[..], vals[..], home, at, Contents, key, i);
    }

    /** A missing key answers as a stored null does. */
    method Get(key: Key) returns (r: Option<V>)
      requires Valid()
      ensures r == if key in Contents then Contents[key] else None
    {
      if key == 0 || cap == 0 {
        return None;
      }
      var i := Probe(key);
      return if keys[i] == key then vals[i] else None;
    }

    /** Insert or replace; refused for key 0 and for a new key when half the slots are taken. */
    method Put(key: Key, val: Option<V>) returns (ok: bool)
      requires Valid()
      modifies this, keys, vals
      ensures Valid()
      ensures ok <==> key != 0 && cap != 0 && (key in old(Contents) || |old(Contents)| < cap / 2)
      ensures Contents == if ok then old(Contents)[key := val] else old(Contents)
    {
      hide Represents, NoGap;
      if key == 0 || cap == 0 {
        return false;
      }
      var i := Probe(key);
      if keys[i] == key {
        ReplaceRepresents(keys[..], vals[..], home, at, Contents, key, val);
        vals[i] := val;
        Contents := Contents[key := val];
        assert vals[..] == old(vals[..])[i := val];
        return true;
      }
      if n >= cap / 2 {
        return false;
      }
      InsertRepresents(keys[..], vals[..], home, at, Contents, key, val, i);
      keys[i] := key;
      vals[i] := val;
      n := n + 1;
      Contents := Contents[key := val];
      at := at[key := i];
      assert keys[..] == old(keys[..])[i := key] && vals[..] == old(vals[..])[i := val];
      return true;
    }

    /** The backward shift: each later member of the cluster that may move into the hole does, and the hole with it. */
    method CloseHole(i: nat, ghost e: nat)
      requires keys.Length == vals.Length == cap
      requires i < cap && Carries(keys[..], vals[..], home, at, Contents, i, After(cap, i), e)
      modifies keys, vals, this`at
      ensures Represents(keys[..], vals[..], home, at, Contents)
    {
      hide Shifting, Represents;
      var hole: nat := i;
      var j: nat := After(cap, i);
      while keys[j] != 0
        invariant hole < cap && j < cap && Carries(keys[..], vals[..], home, at, Contents, hole, j, e)
        decreases Dist(cap, j, e)
      {
        ghost var ks, vs := keys[..], vals[..];
        if HomeBetween(hole, home(keys[j]), j) {
          CarrySkip(ks, vs, home, at, Contents, hole, j, e);
        } else {
          CarryMove(ks, vs, home, at, Contents, hole, j, e);
          at := at[keys[j] := hole];
          keys[hole] := keys[j];
          vals[hole] := vals[j];
          assert keys[..] == ks[hole := ks[j]] && vals[..] == vs[hole := vs[j]];
          hole := j;
        }
        j := After(cap, j);
      }
      ghost var ks, vs := keys[..], vals[..];
      CarryEnd(ks, vs, home, at, Contents, hole, j, e);
      keys[hole] := 0;
      vals[hole] := None;
      assert keys[..] == ks[hole := 0] && vals[..] == vs[hole := None];
    }

    method Remove(key: Key, i: nat)
      requires Valid() && key in Contents && i == at[key]
      modifies this, keys, vals
      ensures Valid()
      ensures Contents == old(Contents) - {key}
    {
      hide Represents, Carries;
      ghost var e := CarryBegin(keys[..], vals[..], home, at, Contents, key);
      RemoveSize(Contents, key);
      n := n - 1;
      Contents := Contents - {key};
      at := at - {key};
      CloseHole(i, e);
    }

    /** Remove; a missing key is not an error. */
    method Del(key: Key)
      requires Valid()
      modifies this, keys, vals
      ensures Valid()
      ensures Contents == old(Contents) - {key}
    {
      hide Represents, NoGap;
      if key == 0 || cap == 0 {
        return;
      }
      var i := Probe(key);
      if keys[i] == 0 {
        return;
      }
      Remove(key, i);
    }
  }

  datatype Op<V> = Put(key: Key, val: Option<V>) | Get(key: Key) | Del(key: Key)

  datatype Answer<V> = Stored | Refused | Found(val: Option<V>) | Removed

  datatype Ideal<V> = Ideal(contents: map<Key, Option<V>>, answers: seq<Answer<V>>)

  /** A plain finite map that takes at most `limit` keys, none of them 0, after a sequence of operations. */
  function IdealRun<V>(start: map<Key, Option<V>>, limit: nat, ops: seq<Op<V>>): (r: Ideal<V>)
    ensures |r.answers| == |ops|
  {
    if ops == [] then Ideal(start, [])
    else
      var Ideal(m, before) := IdealRun(start, limit, ops[..|ops| - 1]);
      match ops[|ops| - 1]
      case Put(k, v) =>
        if k != 0 && (k in m || |m| < limit) then Ideal(m[k := v], before + [Stored]) else Ideal(m, before + [Refused])
      case Get(k) => Ideal(m, before + [Found(if k in m then m[k] else None)])
      case Del(k) => Ideal(m - {k}, before + [Removed])
  }

  /** Over any sequence of operations the table answers as the finite map does and ends holding what it holds. */
  method Run<V>(m: IdMap<V>, ops: seq<Op<V>>) returns (answers: seq<Answer<V>>)
    requires m.Valid()
    modifies m, m.keys, m.vals
    ensures m.Valid()
    ensures Ideal(m.Contents, answers) == IdealRun(old(m.Contents), m.cap / 2, ops)
  {
    answers := [];
    for i := 0 to |ops|
      invariant m.Valid()
      invariant Ideal(m.Contents, answers) == IdealRun(old(m.Contents), m.cap / 2, ops[..i])
    {
      hide Represents;
      assert ops[..i + 1][..i] == ops[..i];
      match ops[i] {
        case Put(k, v) =>
          var ok := m.Put(k, v);
          answers := answers + [if ok then Stored else Refused];
        case Get(k) =>
          var v := m.Get(k);
          answers := answers + [Found(v)];
        case Del(k) =>
          m.Del(k);
          answers := answers + [Removed];
      }
    }
    assert ops[..|ops|] == ops;
  }
}
