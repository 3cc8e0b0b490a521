/**
  Device codes (RFC 8628): the bounded table of pending sign-ins, found by the digest of
  the client's secret or by the code the person types.
 */
module DeviceCodes {
  import opened Basics

  const DEVICE_MAX: nat := 256
  const PER_SOURCE: nat := 5
  const TTL_MS: nat := 600000
  const INTERVAL_S: nat := 5
  const UINT32: nat := 0x1_0000_0000
  const UINT64: nat := 0x1_0000_0000_0000_0000

  type Hash = Bytes

  datatype State = Free | Pending | Approved | Denied

  datatype Entry = Entry(st: State, secret: Hash, user: Bytes, challenge: Bytes, source: Bytes, addr: Bytes,
                         created: nat, expires: nat, lastPoll: nat, interval: nat, token: Option<Bytes>)

  const BLANK: Entry := Entry(Free, [], [], [], [], [], 0, 0, 0, 0, None)

  /** A string copied into a field of 46 bytes. */
  function Kept(s: Option<Bytes>): (k: Bytes)
    ensures |k| < 46
  {
    if s.None? then [] else if |s.value| < 46 then s.value else s.value[..45]
  }

  function Named(s: Option<Bytes>): (k: Bytes) {
    if s.None? then [] else s.value
  }

  // ----- the requests, by the digest of their secrets

  type Requests = map<Hash, Entry>

  function Swept(m: Requests, now: nat): (r: Requests) {
    map h | h in m && now < m[h].expires :: m[h]
  }

  /** The request a person's code names. */
  ghost predicate Names(m: Requests, h: Hash, user: Bytes) {
    h in m && m[h].user == user
  }

  ghost predicate Unnamed(m: Requests, user: Bytes) {
    forall h :: h in m ==> m[h].user != user
  }

  predicate TooSoon(e: Entry, now: nat) {
    e.lastPoll != 0 && now < (e.lastPoll + e.interval * 1000) % UINT64
  }

  /** A poll that finds the request still waiting. */
  function PolledEntry(e: Entry, now: nat): (r: Entry) {
    e.(lastPoll := now, interval := if TooSoon(e, now) then (e.interval + 5) % UINT32 else e.interval)
  }

  // ----- the table

  /** `at` is the one slot of each request; live codes are distinct, and only approved requests hold a token. */
  ghost predicate Indexed(es: seq<Entry>, at: map<Hash, nat>, m: Requests) {
    && at.Keys == m.Keys
    && (forall h :: h in m ==> at[h] < |es| && es[at[h]] == m[h] && m[h].secret == h && !m[h].st.Free?)
    && (forall i :: 0 <= i < |es| && !es[i].st.Free? ==> es[i].secret in m && at[es[i].secret] == i)
  }

  ghost predicate Codes(m: Requests) {
    && (forall h, g :: h in m && g in m && h != g ==> m[h].user != m[g].user)
    && (forall h :: h in m ==> !m[h].st.Free? && (m[h].st.Approved? <==> m[h].token.Some?) && |m[h].source| < 46)
  }

  function SweptTable(es: seq<Entry>, now: nat): (r: seq<Entry>)
    ensures |r| == |es|
  {
    seq(|es|, i requires 0 <= i < |es| => if !es[i].st.Free? && now >= es[i].expires then BLANK else es[i])
  }

  function SweptAt(at: map<Hash, nat>, m: Requests, now: nat): (r: map<Hash, nat>) {
    map h | h in at && h in m && now < m[h].expires :: at[h]
  }

  lemma SweepKeeps(es: seq<Entry>, at: map<Hash, nat>, m: Requests, now: nat)
    requires Indexed(es, at, m) && Codes(m)
    ensures Indexed(SweptTable(es, now), SweptAt(at, m, now), Swept(m, now)) && Codes(Swept(m, now))
  {
  }

  lemma RemoveKeeps(es: seq<Entry>, at: map<Hash, nat>, m: Requests, h: Hash)
    requires Indexed(es, at, m) && Codes(m) && h in m
    ensures Indexed(es[at[h] := BLANK], at - {h}, m - {h}) && Codes(m - {h})
  {
  }

  lemma ChangeIndexed(es: seq<Entry>, at: map<Hash, nat>, m: Requests, h: Hash, e: Entry)
    requires Indexed(es, at, m) && h in m && !e.st.Free? && e.secret == h
    ensures Indexed(es[at[h] := e], at, m[h := e])
  {
  }

  lemma ChangeCodes(m: Requests, h: Hash, e: Entry)
    requires Codes(m) && h in m && !e.st.Free? && e.user == m[h].user && e.source == m[h].source
    requires e.st.Approved? <==> e.token.Some?
    ensures Codes(m[h := e])
  {
  }

  lemma AddIndexed(es: seq<Entry>, at: map<Hash, nat>, m: Requests, i: nat, e: Entry)
    requires Indexed(es, at, m) && i < |es| && es[i].st.Free? && e.secret !in m && !e.st.Free?
    ensures Indexed(es[i := e], at[e.secret := i], m[e.secret := e])
  {
  }

  lemma AddCodes(m: Requests, e: Entry)
    requires Codes(m) && e.secret !in m && !e.st.Free? && Unnamed(m, e.user) && |e.source| < 46
    requires e.st.Approved? <==> e.token.Some?
    ensures Codes(m[e.secret := e])
  {
  }

  lemma LiveEntry(es: seq<Entry>, at: map<Hash, nat>, m: Requests, h: Hash)
    requires Indexed(es, at, m) && h in m
    ensures h in at && at[h] < |es| && es[at[h]] == m[h] && m[h].secret == h && !m[h].st.Free?
  {
  }

  ghost predicate HasRoom(es: seq<Entry>) {
    exists i :: 0 <= i < |es| && es[i].st.Free?
  }

  lemma {:induction false} LiveBelow(es: seq<Entry>, at: map<Hash, nat>, m: Requests, n: nat)
    requires Indexed(es, at, m) && n <= |es| && forall i :: 0 <= i < n ==> !es[i].st.Free?
    ensures |set h | h in m && at[h] < n| == n
  {
    var below := set h | h in m && at[h] < n;
    if n > 0 {
      LiveBelow(es, at, m, n - 1);
      var b := set h | h in m && at[h] < n - 1;
      assert below == b + {es[n - 1].secret};
    } else {
      assert below == {};
    }
  }

  lemma FullCount(es: seq<Entry>, at: map<Hash, nat>, m: Requests)
    requires Indexed(es, at, m) && !HasRoom(es)
    ensures |m| == |es|
  {
    LiveBelow(es, at, m, |es|);
    var below := set h | h in m && at[h] < |es|;
    assert below == m.Keys;
  }

  /** A table with fewer requests than slots has room for another. */
  lemma RoomLeft(es: seq<Entry>, at: map<Hash, nat>, m: Requests)
    requires Indexed(es, at, m) && |m| < |es|
    ensures HasRoom(es)
  {
    if !HasRoom(es) {
      FullCount(es, at, m);
    }
  }

  // ----- how many requests a source holds

  predicate From(e: Entry, source: Bytes) {
    !e.st.Free? && e.source == source
  }

  function Held(es: seq<Entry>, source: Bytes): (n: nat) {
    if es == [] then 0 else Held(es[..|es| - 1], source) + (if From(es[|es| - 1], source) then 1 else 0)
  }

  lemma {:induction false} HeldUpdate(es: seq<Entry>, i: nat, e: Entry, source: Bytes)
    requires i < |es|
    ensures Held(es[i := e], source) ==
            Held(es, source) - (if From(es[i], source) then 1 else 0) + (if From(e, source) then 1 else 0)
  {
    var n := |es| - 1;
    if i < n {
      HeldUpdate(es[..n], i, e, source);
      assert es[i := e][..n] == es[..n][i := e];
    } else {
      assert es[i := e][..n] == es[..n];
    }
  }

  lemma {:induction false} HeldSwept(es: seq<Entry>, now: nat, source: Bytes)
    ensures Held(SweptTable(es, now), source) <= Held(es, source)
  {
    if es != [] {
      HeldSwept(es[..|es| - 1], now, source);
      assert SweptTable(es, now)[..|es| - 1] == SweptTable(es[..|es| - 1], now);
    }
  }

  /** A name that does not fit the field is never found in one: its requests go uncounted. */
  lemma {:induction false} LongSourceUncounted(es: seq<Entry>, source: Bytes)
    requires |source| >= 46 && forall i :: 0 <= i < |es| && !es[i].st.Free? ==> |es[i].source| < 46
    ensures Held(es, source) == 0
  {
    if es != [] {
      LongSourceUncounted(es[..|es| - 1], source);
    }
  }

  /** No source holds more than its share. */
  ghost predicate Fair(es: seq<Entry>) {
    forall source :: Held(es, source) <= PER_SOURCE
  }

  /** What each source holds after a request of `from`, if there is one, is added. */
  ghost predicate HeldAfter(es: seq<Entry>, es': seq<Entry>, from: Option<Bytes>) {
    forall source :: Held(es', source) == Held(es, source) + (if from == Some(source) then 1 else 0)
  }

  lemma HeldSame(es: seq<Entry>)
    ensures HeldAfter(es, es, None)
  {
  }

  lemma HeldAdd(es: seq<Entry>, i: nat, e: Entry)
    requires i < |es| && es[i].st.Free? && !e.st.Free?
    ensures HeldAfter(es, es[i := e], Some(e.source))
  {
    var es' := es[i := e];
    forall source ensures Held(es', source) == Held(es, source) + (if Some(e.source) == Some(source) then 1 else 0) {
      HeldUpdate(es, i, e, source);
    }
  }

  /** A new request keeps every source within its share if and only if the name it is filed under held less than that. */
  lemma FairAfter(es: seq<Entry>, es': seq<Entry>, from: Option<Bytes>)
    requires Fair(es) && HeldAfter(es, es', from)
    ensures Fair(es') <==> from.None? || Held(es, from.value) < PER_SOURCE
  {
    if from.Some? {
      assert Held(es', from.value) == Held(es, from.value) + 1;
    }
  }

  lemma {:induction false} FairEmpty(es: seq<Entry>)
    requires forall i :: 0 <= i < |es| ==> es[i].st.Free?
    ensures Fair(es)
  {
    forall source ensures Held(es, source) <= PER_SOURCE {
      HeldNone(es, source);
    }
  }

  lemma {:induction false} HeldNone(es: seq<Entry>, source: Bytes)
    requires forall i :: 0 <= i < |es| ==> es[i].st.Free?
    ensures Held(es, source) == 0
  {
    if es != [] {
      HeldNone(es[..|es| - 1], source);
    }
  }

  lemma FairSwept(es: seq<Entry>, now: nat)
    requires Fair(es)
    ensures Fair(SweptTable(es, now))
  {
    forall source ensures Held(SweptTable(es, now), source) <= PER_SOURCE {
      HeldSwept(es, now, source);
    }
  }

  lemma FairChange(es: seq<Entry>, i: nat, e: Entry)
    requires Fair(es) && i < |es| && (e.st.Free? || (!es[i].st.Free? && e.source == es[i].source))
    ensures Fair(es[i := e])
  {
    var es' := es[i := e];
    forall source ensures Held(es', source) <= PER_SOURCE {
      HeldUpdate(es, i, e, source);
    }
  }

  // ----- the code a person types

  const ALPHA: Bytes := [66, 67, 68, 70, 71, 72, 74, 75, 76, 77, 78, 80, 81, 82, 83, 84, 86, 87, 88, 90]

  /** Eight letters in two groups of four. */
  function Dashed(k: Bytes): (code: Bytes)
    requires |k| == 8
    ensures |code| == 9
  {
    k[..4] + [45] + k[4..]
  }

  function Upper(c: Byte): (u: Byte) {
    if 97 <= c <= 122 then c - 32 else c
  }

  /** What is left of the typed text without dashes and spaces, in upper case. */
  function Letters(typed: Bytes): (k: Bytes) {
    if typed == [] then []
    else
      var c := typed[|typed| - 1];
      Letters(typed[..|typed| - 1]) + (if c == 45 || c == 32 then [] else [Upper(c)])
  }

  predicate Consonant(c: Byte) {
    c in ALPHA
  }

  lemma ConsonantIsUpper(c: Byte)
    requires Consonant(c)
    ensures 66 <= c <= 90
  {
  }

  predicate IsCode(k: Bytes) {
    |k| == 8 && forall i :: 0 <= i < |k| ==> Consonant(k[i])
  }

  lemma {:induction false} LettersGrow(typed: Bytes, n: nat)
    requires n <= |typed|
    ensures |Letters(typed[..n])| <= |Letters(typed)| && Letters(typed)[..|Letters(typed[..n])|] == Letters(typed[..n])
  {
    if n < |typed| {
      LettersGrow(typed[..|typed| - 1], n);
      assert typed[..|typed| - 1][..n] == typed[..n];
    } else {
      assert typed[..n] == typed;
    }
  }

  /** Accepts exactly the eight letters of a code, in either case, however spaced or dashed. */
  method Normalise(typed: Bytes) returns (r: Option<Bytes>)
    ensures r == if IsCode(Letters(typed)) then Some(Dashed(Letters(typed))) else None
  {
    hide Consonant;
    var k: Bytes := [];
    var i := 0;
    while i < |typed|
      invariant i <= |typed| && k == Letters(typed[..i]) && |k| <= 8
      invariant forall j :: 0 <= j < |k| ==> Consonant(k[j])
    {
      var c := typed[i];
      assert typed[..i + 1][..i] == typed[..i];
      if c != 45 && c != 32 {
        c := Upper(c);
        LettersGrow(typed, i + 1);
        if !Consonant(c) || |k| == 8 {
          assert Letters(typed[..i + 1])[|k|] == c;
          assert Letters(typed)[|k|] == c;
          return None;
        }
        k := k + [c];
      }
      i := i + 1;
    }
    assert typed[..i] == typed;
    r := if |k| == 8 then Some(Dashed(k)) else None;
  }

  lemma {:induction false} LettersConcat(a: Bytes, b: Bytes)
    ensures Letters(a + b) == Letters(a) + Letters(b)
  {
    if b == [] {
      assert a + b == a;
    } else {
      LettersConcat(a, b[..|b| - 1]);
      assert (a + b)[..|a + b| - 1] == a + b[..|b| - 1];
    }
  }

  lemma {:induction false} LettersOfCode(k: Bytes)
    requires forall i :: 0 <= i < |k| ==> Consonant(k[i])
    ensures Letters(k) == k
  {
    hide Consonant;
    if k != [] {
      LettersOfCode(k[..|k| - 1]);
      ConsonantIsUpper(k[|k| - 1]);
    }
  }

  /** Every code the table issues is typed back as itself. */
  lemma CodesTypeBack(k: Bytes)
    requires IsCode(k)
    ensures Letters(Dashed(k)) == k
  {
    hide Letters, Consonant;
    var a, b := k[..4], k[4..];
    LettersOfCode(a);
    LettersOfCode(b);
    LettersOfDash();
    LettersConcat(a, [45]);
    LettersConcat(a + [45], b);
    assert a + [] + b == k;
  }

  lemma LettersOfDash()
    ensures Letters([45]) == []
  {
    assert [45 as Byte][..0] == [];
  }

  // ----- choosing a code

  type Draw = d: Bytes | |d| == 8 witness [0, 0, 0, 0, 0, 0, 0, 0]

  function Spelled(d: Draw): (code: Bytes)
    ensures |code| == 9
  {
    Dashed(seq(8, i requires 0 <= i < 8 => ALPHA[d[i] % 20]))
  }

  lemma SpelledIsCode(d: Draw)
    ensures IsCode(Letters(Spelled(d))) && Dashed(Letters(Spelled(d))) == Spelled(d)
  {
    var k := seq(8, i requires 0 <= i < 8 => ALPHA[d[i] % 20]);
    CodesTypeBack(k);
  }
}
