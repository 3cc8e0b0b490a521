/**
  What the relay's participant table and its three indexes mean, and what each
  change to them keeps. Everything here is about values; the relay itself, in
  `Relays`, changes its table and indexes in place.
 */
module RelayTables {
  import opened Basics
  import opened IdMaps
  import opened CallLists

  const MAX_PARTS: nat := 2048
  const TOKEN_RAND: nat := 16
  const TOKEN_MAX: nat := 32

  /** Bytes read as a little-endian number, as the host's memcpy into a uint64_t reads them. */
  function LittleEndian(b: seq<Byte>): (n: nat) {
    if b == [] then 0 else b[0] + 256 * LittleEndian(b[1..])
  }

  lemma {:induction false} LittleEndianBound(b: seq<Byte>, k: nat, bound: nat)
    requires |b| <= k <= 8 && bound == Pow256(k)
    ensures LittleEndian(b) < bound
  {
    if b != [] {
      LittleEndianBound(b[1..], k - 1, Pow256(k - 1));
    }
  }

  /** A token's index key: eight of its random bytes, moved off 0. */
  function TokenKey(token: seq<Byte>): (k: Key)
    ensures k != 0
  {
    if |token| < TOKEN_RAND then 1
    else
      var b := token[|token| - TOKEN_RAND..|token| - TOKEN_RAND + 8];
      var k := LittleEndian(b);
      LittleEndianBound(b, 8, 0x1_0000_0000_0000_0000);
      if k == 0 then 1 else k
  }

  // ----- what the table and its indexes mean

  ghost function Used(parts: seq<Part>): (s: set<nat>) {
    set i | 0 <= i < |parts| && parts[i].used
  }

  /** The live participants by slot, links aside. */
  ghost function Live(parts: seq<Part>): (m: map<nat, Part>) {
    map i | 0 <= i < |parts| && parts[i].used :: parts[i].(next := None, prev := None)
  }

  /** Every token finds its own participant, and only live ones are found. */
  ghost predicate TokensOk(parts: seq<Part>, byToken: map<Key, Ptr>, tokenLen: nat) {
    && (forall k :: k in byToken ==>
          && byToken[k].Some? && byToken[k].value < |parts|
          && parts[byToken[k].value].used && parts[byToken[k].value].tokenKey == k)
    && (forall i :: 0 <= i < |parts| && parts[i].used ==>
          && parts[i].tokenKey in byToken && byToken[parts[i].tokenKey] == Some(i)
          && parts[i].tokenKey == TokenKey(parts[i].token) && |parts[i].token| == tokenLen)
  }

  /** A connection leads to a live participant that joined from it, none of them in `out`. */
  ghost predicate ConnsOk(parts: seq<Part>, byConn: map<Key, Ptr>, out: set<nat>) {
    forall c :: c in byConn ==>
      && c != 0 && byConn[c].Some? && byConn[c].value < |parts| && byConn[c].value !in out
      && parts[byConn[c].value].used && parts[byConn[c].value].connId == c
  }

  /** The connection index without any entry that leads to slot `i`. */
  function Forget(byConn: map<Key, Ptr>, conn: Key, i: nat): (r: map<Key, Ptr>) {
    if conn in byConn && byConn[conn] == Some(i) then byConn - {conn} else byConn
  }

  /** An index whose entries lead to different slots of `s` has no more entries than `s` has slots. */
  lemma {:induction false} IndexSize(m: map<Key, Ptr>, parts: seq<Part>, field: Part -> Key, s: set<nat>)
    requires forall k :: k in m ==> m[k].Some? && m[k].value in s && m[k].value < |parts| && field(parts[m[k].value]) == k
    ensures |m| <= |s|
    decreases m.Keys
  {
    if m.Keys != {} {
      var k :| k in m;
      IndexSize(m - {k}, parts, field, s - {m[k].value});
      RemoveSize(m, k);
    }
  }

  lemma {:induction false} UsedBound(parts: seq<Part>)
    ensures |Used(parts)| <= |parts|
    ensures |Used(parts)| == |parts| <==> forall i :: 0 <= i < |parts| ==> parts[i].used
  {
    if |parts| > 0 {
      var m := |parts| - 1;
      var before := parts[..m];
      UsedBound(before);
      UsedLast(parts, before, m);
      hide Used;
      assert forall i :: 0 <= i < m ==> parts[i] == before[i];
    }
  }

  lemma UsedLast(parts: seq<Part>, before: seq<Part>, m: nat)
    requires |parts| == m + 1 && before == parts[..m]
    ensures |Used(parts)| == |Used(before)| + (if parts[m].used then 1 else 0)
  {
    assert Used(parts) == Used(before) + (if parts[m].used then {m} else {});
  }

  lemma LiveSame(a: seq<Part>, b: seq<Part>)
    requires SameButLinks(a, b)
    ensures Live(a) == Live(b) && Used(a) == Used(b)
    ensures forall t, l :: TokensOk(a, t, l) ==> TokensOk(b, t, l)
    ensures forall c, o :: ConnsOk(a, c, o) ==> ConnsOk(b, c, o)
  {
  }

  /** A participant in no list may be changed without disturbing any list. */
  lemma ListsFrame(parts: seq<Part>, byCall: map<Key, Ptr>, lists: map<Key, seq<nat>>, i: nat, e: Part, out: set<nat>)
    requires ListsOk(parts, byCall, lists, out) && i < |parts|
    requires out == {i} || (out == {} && !parts[i].used)
    ensures ListsOk(parts[i := e], byCall, lists, {i})
  {
    forall c | c in lists ensures Chain(parts[i := e], c, lists[c]) && i !in lists[c] {
      forall p | 0 <= p < |lists[c]| ensures lists[c][p] != i {
        assert LinkedAt(parts, c, lists[c], p);
      }
      ChainFrame(parts, parts[i := e], c, lists[c]);
    }
    hide Chain;
  }

  /** A participant no longer live need not be in any list. */
  lemma ListsDropped(parts: seq<Part>, byCall: map<Key, Ptr>, lists: map<Key, seq<nat>>, i: nat)
    requires ListsOk(parts, byCall, lists, {i}) && i < |parts| && !parts[i].used
    ensures ListsOk(parts, byCall, lists, {})
  {
  }

  lemma ForgetKeeps(parts: seq<Part>, byConn: map<Key, Ptr>, i: nat)
    requires ConnsOk(parts, byConn, {}) && i < |parts|
    ensures ConnsOk(parts, Forget(byConn, parts[i].connId, i), {i})
  {
  }

  /** Changing the call, user or connection of a participant no connection leads to. */
  lemma MoveKeeps(parts: seq<Part>, byToken: map<Key, Ptr>, tokenLen: nat, byConn: map<Key, Ptr>, i: nat, e: Part)
    requires TokensOk(parts, byToken, tokenLen) && ConnsOk(parts, byConn, {i}) && i < |parts|
    requires parts[i].used && e.used && e.token == parts[i].token && e.tokenKey == parts[i].tokenKey
    ensures TokensOk(parts[i := e], byToken, tokenLen) && ConnsOk(parts[i := e], byConn, {i})
    ensures Used(parts[i := e]) == Used(parts)
  {
  }

  lemma SeatKeeps(parts: seq<Part>, byToken: map<Key, Ptr>, tokenLen: nat, byConn: map<Key, Ptr>, i: nat, e: Part)
    requires TokensOk(parts, byToken, tokenLen) && ConnsOk(parts, byConn, {}) && i < |parts|
    requires !parts[i].used && e.used && e.tokenKey == TokenKey(e.token) && |e.token| == tokenLen
    requires e.tokenKey !in byToken
    ensures TokensOk(parts[i := e], byToken[e.tokenKey := Some(i)], tokenLen) && ConnsOk(parts[i := e], byConn, {i})
    ensures |Used(parts[i := e])| == |Used(parts)| + 1
  {
    SeatToken(parts, byToken, tokenLen, i, e);
    SeatConn(parts, byConn, i, e);
    hide TokensOk, ConnsOk, TokenKey;
    assert Used(parts[i := e]) == Used(parts) + {i};
  }

  lemma SeatToken(parts: seq<Part>, byToken: map<Key, Ptr>, tokenLen: nat, i: nat, e: Part)
    requires TokensOk(parts, byToken, tokenLen) && i < |parts| && e.tokenKey !in byToken
    requires !parts[i].used && e.used && e.tokenKey == TokenKey(e.token) && |e.token| == tokenLen
    ensures TokensOk(parts[i := e], byToken[e.tokenKey := Some(i)], tokenLen)
  {
    hide TokenKey;
  }

  lemma SeatConn(parts: seq<Part>, byConn: map<Key, Ptr>, i: nat, e: Part)
    requires ConnsOk(parts, byConn, {}) && i < |parts| && !parts[i].used
    ensures ConnsOk(parts[i := e], byConn, {i})
  {
  }

  lemma UnseatKeeps(parts: seq<Part>, byToken: map<Key, Ptr>, tokenLen: nat, byConn: map<Key, Ptr>, i: nat)
    requires TokensOk(parts, byToken, tokenLen) && ConnsOk(parts, byConn, {i}) && i < |parts| && parts[i].used
    ensures TokensOk(parts[i := parts[i].(used := false)], byToken - {parts[i].tokenKey}, tokenLen)
    ensures ConnsOk(parts[i := parts[i].(used := false)], byConn, {})
  {
    hide TokenKey;
  }

  lemma UnseatLive(parts: seq<Part>, i: nat)
    requires i < |parts| && parts[i].used
    ensures |Used(parts[i := parts[i].(used := false)])| == |Used(parts)| - 1
    ensures Live(parts[i := parts[i].(used := false)]) == Live(parts) - {i}
  {
    UnseatUsed(parts, i);
    hide Used;
  }

  lemma UnseatUsed(parts: seq<Part>, i: nat)
    requires i < |parts| && parts[i].used
    ensures |Used(parts[i := parts[i].(used := false)])| == |Used(parts)| - 1
  {
    assert Used(parts[i := parts[i].(used := false)]) == Used(parts) - {i};
  }

  /** With nobody in the table any token length will do. */
  lemma NobodyLength(parts: seq<Part>, byToken: map<Key, Ptr>, was: nat, len: nat)
    requires TokensOk(parts, byToken, was) && |Used(parts)| == 0
    ensures TokensOk(parts, byToken, len) && byToken == map[]
  {
    forall i | 0 <= i < |parts| ensures !parts[i].used {
      assert i !in Used(parts);
    }
  }

  lemma ConnKeeps(parts: seq<Part>, byConn: map<Key, Ptr>, i: nat)
    requires ConnsOk(parts, byConn, {i}) && i < |parts| && parts[i].used
    ensures ConnsOk(parts, byConn, {})
    ensures parts[i].connId != 0 ==> ConnsOk(parts, byConn[parts[i].connId := Some(i)], {})
  {
  }

  lemma TableSizeOk()
    ensures PowerOfTwo(2 * MAX_PARTS)
  {
    assert PowerOfTwo(16) && PowerOfTwo(256);
  }

  /** Each index has room left for a participant that is not yet in it. */
  lemma CallsFit(parts: seq<Part>, byCall: map<Key, Ptr>, lists: map<Key, seq<nat>>, i: nat)
    requires ListsOk(parts, byCall, lists, {i}) && i < |parts| && parts[i].used
    ensures |byCall| < |parts|
  {
    forall c | c in byCall ensures byCall[c].Some? && byCall[c].value in Used(parts) - {i} && parts[byCall[c].value].callId == c {
      assert LinkedAt(parts, c, lists[c], 0);
      assert lists[c][0] in lists[c];
    }
    IndexSize(byCall, parts, (p: Part) => p.callId, Used(parts) - {i});
    UsedBound(parts);
  }

  lemma ConnsFit(parts: seq<Part>, byConn: map<Key, Ptr>, i: nat)
    requires ConnsOk(parts, byConn, {i}) && i < |parts| && parts[i].used
    ensures |byConn| < |parts|
  {
    IndexSize(byConn, parts, (p: Part) => p.connId, Used(parts) - {i});
    UsedBound(parts);
  }

  lemma TokensFit(parts: seq<Part>, byToken: map<Key, Ptr>, tokenLen: nat, i: nat)
    requires TokensOk(parts, byToken, tokenLen) && i < |parts| && !parts[i].used
    ensures |byToken| < |parts|
  {
    IndexSize(byToken, parts, (p: Part) => p.tokenKey, Used(parts));
    UsedBound(parts);
  }

  lemma LiveUpdate(parts: seq<Part>, i: nat, e: Part)
    requires i < |parts| && e.used
    ensures Live(parts[i := e]) == Live(parts)[i := e.(next := None, prev := None)]
  {
  }

  /** A participant as first seated: known by its token, in no call yet. */
  function Newcomer(token: seq<Byte>): (e: Part)
    ensures e.used && e.token == token && e.tokenKey == TokenKey(token) && e.addr == None
  {
    Part(true, token, TokenKey(token), 0, 0, 0, false, None, None, None, None, 0)
  }

  function Moved(e: Part, call: Key, user: Key, conn: Key, now: nat): (r: Part) {
    e.(callId := call, userId := user, connId := conn, lastSeen := now)
  }

  /** The connection index once connection `conn`, 0 for none, leads to slot `i`. */
  function Seated(byConn: map<Key, Ptr>, conn: Key, i: nat): (r: map<Key, Ptr>) {
    if conn == 0 then byConn else byConn[conn := Some(i)]
  }

  lemma UsedSlot(parts: seq<Part>, i: nat)
    requires i < |parts| && parts[i].used
    ensures |Used(parts)| > 0 && i in Live(parts) && Live(parts)[i] == parts[i].(next := None, prev := None)
  {
    assert i in Used(parts);
  }

  /** Milliseconds since `last`, in 64-bit arithmetic. */
  function Elapsed(now: nat, last: nat): (d: nat) {
    (now - last) % 0x1_0000_0000_0000_0000
  }

  /** The live participants once the slots below `k` have been swept. */
  ghost function Heard(live: map<nat, Part>, now: nat, silenceMs: nat, k: nat): (r: map<nat, Part>) {
    map i | i in live && (i >= k || Elapsed(now, live[i].lastSeen) <= silenceMs) :: live[i]
  }

  ghost function SilentTokens(parts: seq<Part>, now: nat, silenceMs: nat, k: nat): (r: seq<seq<Byte>>)
    requires k <= |parts|
  {
    if k == 0 then []
    else
      var rest := SilentTokens(parts, now, silenceMs, k - 1);
      if parts[k - 1].used && Elapsed(now, parts[k - 1].lastSeen) > silenceMs then rest + [parts[k - 1].token] else rest
  }

  lemma HeardNone(parts: seq<Part>, now: nat, silenceMs: nat)
    ensures |Used(parts)| == 0 ==> Live(parts) == Heard(Live(parts), now, silenceMs, |parts|)
    ensures |Used(parts)| == 0 ==> SilentTokens(parts, now, silenceMs, |parts|) == []
  {
    if |Used(parts)| == 0 {
      forall i | 0 <= i < |parts| ensures !parts[i].used {
        assert i !in Used(parts);
      }
      for k := 0 to |parts|
        invariant SilentTokens(parts, now, silenceMs, k) == []
      {
      }
    }
  }

  lemma HeardStart(live: map<nat, Part>, now: nat, silenceMs: nat)
    ensures live == Heard(live, now, silenceMs, 0)
  {
  }

  /** What sweeping slot `i` does: a silent participant goes, and nothing else changes. */
  lemma HeardStep(was: seq<Part>, parts: seq<Part>, now: nat, silenceMs: nat, i: nat)
    requires Live(parts) == Heard(Live(was), now, silenceMs, i) && i < |was| == |parts|
    ensures parts[i].used == was[i].used
    ensures was[i].used ==> parts[i].token == was[i].token && parts[i].lastSeen == was[i].lastSeen
    ensures Heard(Live(was), now, silenceMs, i + 1) ==
            if was[i].used && Elapsed(now, was[i].lastSeen) > silenceMs then Live(parts) - {i} else Live(parts)
  {
    hide Elapsed;
    assert i in Live(parts) <==> i in Live(was);
    assert i in Live(parts) ==> Live(parts)[i] == Live(was)[i];
  }

  const MAX_PACKET: nat := 1300
  const S2C_HDR: nat := 10
  /** The most datagrams one packet is fanned out to. */
  const MAX_CALL: nat := 32

  datatype Reached = Reached(tcp: seq<nat>, udp: seq<nat>)

  ghost function Plus(tcp: seq<nat>, udp: seq<nat>, r: Reached): Reached {
    Reached(tcp + r.tcp, udp + r.udp)
  }

  /** Whom a walk along list `l` reaches, skipping `skip`, with `k` datagrams already gathered. */
  ghost function Walk(parts: seq<Part>, l: seq<nat>, skip: Ptr, k: nat): (r: Reached)
  {
    if l == [] || k >= MAX_CALL || l[0] >= |parts| then Reached([], [])
    else if skip == Some(l[0]) then Walk(parts, l[1..], skip, k)
    else if parts[l[0]].tcp then Plus([l[0]], [], Walk(parts, l[1..], skip, k))
    else if parts[l[0]].addr.None? then Walk(parts, l[1..], skip, k)
    else Plus([], [l[0]], Walk(parts, l[1..], skip, k + 1))
  }

  /** One stop of the walk, with what has been gathered so far. */
  lemma WalkStep(parts: seq<Part>, l: seq<nat>, q: nat, skip: Ptr, tcp: seq<nat>, udp: seq<nat>)
    requires q < |l| && l[q] < |parts| && |udp| < MAX_CALL
    ensures Plus(tcp, udp, Walk(parts, l[q..], skip, |udp|)) ==
            if skip == Some(l[q]) then Plus(tcp, udp, Walk(parts, l[q + 1..], skip, |udp|))
            else if parts[l[q]].tcp then Plus(tcp + [l[q]], udp, Walk(parts, l[q + 1..], skip, |udp|))
            else if parts[l[q]].addr.None? then Plus(tcp, udp, Walk(parts, l[q + 1..], skip, |udp|))
            else Plus(tcp, udp + [l[q]], Walk(parts, l[q + 1..], skip, |udp| + 1))
  {
    assert l[q..][1..] == l[q + 1..];
  }

  lemma WalkEnd(parts: seq<Part>, l: seq<nat>, skip: Ptr, tcp: seq<nat>, udp: seq<nat>)
    requires l == [] || |udp| >= MAX_CALL
    ensures Plus(tcp, udp, Walk(parts, l, skip, |udp|)) == Reached(tcp, udp)
  {
  }

  /** Whom a packet of `me`'s goes to: nobody if too long, `me` alone if empty, else along its call's list. */
  ghost predicate FansOut(parts: seq<Part>, lists: map<Key, seq<nat>>, me: nat, payload: seq<Byte>, tcp: seq<nat>, udp: seq<nat>) {
    && me < |parts| && parts[me].callId in lists && me in lists[parts[me].callId]
    && Reached(tcp, udp) ==
       if |payload| > MAX_PACKET - S2C_HDR then Reached([], [])
       else if payload == [] then Walk(parts, [me], None, 0)
       else Walk(parts, lists[parts[me].callId], Some(me), 0)
  }

  /** How many of `l`, `skip` aside, are to be sent a datagram. */
  ghost function Datagrams(parts: seq<Part>, l: seq<nat>, skip: Ptr): (n: nat)
    requires forall q :: 0 <= q < |l| ==> l[q] < |parts|
    ensures n <= |l| && (skip.Some? && skip.value in l ==> n < |l|)
  {
    if l == [] then 0
    else (if skip != Some(l[0]) && !parts[l[0]].tcp && parts[l[0]].addr.Some? then 1 else 0) + Datagrams(parts, l[1..], skip)
  }

  /** Short of the limit, the walk misses nobody and reaches each by the transport it is on. */
  lemma {:induction false} WalkReaches(parts: seq<Part>, l: seq<nat>, skip: Ptr, k: nat, e: nat)
    requires forall q :: 0 <= q < |l| ==> l[q] < |parts|
    requires k + Datagrams(parts, l, skip) < MAX_CALL
    ensures e in Walk(parts, l, skip, k).tcp <==> e in l && skip != Some(e) && parts[e].tcp
    ensures e in Walk(parts, l, skip, k).udp <==> e in l && skip != Some(e) && !parts[e].tcp && parts[e].addr.Some?
  {
    if l != [] {
      var k' := if skip != Some(l[0]) && !parts[l[0]].tcp && parts[l[0]].addr.Some? then k + 1 else k;
      WalkReaches(parts, l[1..], skip, k', e);
      assert e in l <==> e == l[0] || e in l[1..];
    }
  }

  ghost predicate NoRepeats(l: seq<nat>) {
    forall p, q :: 0 <= p < q < |l| ==> l[p] != l[q]
  }

  lemma PrependFresh(x: nat, l: seq<nat>)
    requires NoRepeats(l) && x !in l
    ensures NoRepeats([x] + l)
  {
  }

  /** The walk reaches nobody twice. */
  lemma {:induction false} WalkOnce(parts: seq<Part>, l: seq<nat>, skip: Ptr, k: nat)
    requires NoRepeats(l)
    ensures forall e :: e in Walk(parts, l, skip, k).tcp || e in Walk(parts, l, skip, k).udp ==> e in l
    ensures NoRepeats(Walk(parts, l, skip, k).tcp) && NoRepeats(Walk(parts, l, skip, k).udp)
  {
    if l != [] && k < MAX_CALL && l[0] < |parts| {
      var k' := if skip != Some(l[0]) && !parts[l[0]].tcp && parts[l[0]].addr.Some? then k + 1 else k;
      WalkOnce(parts, l[1..], skip, k');
      var r := Walk(parts, l[1..], skip, k');
      assert l[0] !in l[1..];
      PrependFresh(l[0], r.tcp);
      PrependFresh(l[0], r.udp);
      hide NoRepeats;
      assert [] + r.tcp == r.tcp && [] + r.udp == r.udp;
    }
  }

  /** In a call of at most `MAX_CALL` a packet reaches every other participant that can be reached, once, and nobody else. */
  lemma PacketReachesCall(parts: seq<Part>, byCall: map<Key, Ptr>, lists: map<Key, seq<nat>>, me: nat,
                          payload: seq<Byte>, tcp: seq<nat>, udp: seq<nat>, e: nat)
    requires ListsOk(parts, byCall, lists, {}) && FansOut(parts, lists, me, payload, tcp, udp)
    requires 0 < |payload| <= MAX_PACKET - S2C_HDR && |lists[parts[me].callId]| <= MAX_CALL
    ensures e in tcp <==> e < |parts| && parts[e].used && parts[e].callId == parts[me].callId && e != me && parts[e].tcp
    ensures e in udp <==> && e < |parts| && parts[e].used && parts[e].callId == parts[me].callId && e != me
                          && !parts[e].tcp && parts[e].addr.Some?
    ensures NoRepeats(tcp) && NoRepeats(udp)
  {
    var c := parts[me].callId;
    var l := lists[c];
    forall q | 0 <= q < |l| ensures l[q] < |parts| && parts[l[q]].used && parts[l[q]].callId == c {
      assert LinkedAt(parts, c, l, q);
    }
    WalkReaches(parts, l, Some(me), 0, e);
    WalkOnce(parts, l, Some(me), 0);
  }

  lemma WalkStart(parts: seq<Part>, l: seq<nat>, skip: Ptr)
    ensures Plus([], [], Walk(parts, l[0..], skip, 0)) == Walk(parts, l, skip, 0)
  {
    assert l[0..] == l;
  }

  ghost predicate Links(parts: seq<Part>, l: seq<nat>) {
    forall q :: 0 <= q < |l| ==> l[q] < |parts| && parts[l[q]].next == if q + 1 == |l| then None else Some(l[q + 1])
  }

  lemma ChainLinks(parts: seq<Part>, c: Key, l: seq<nat>)
    requires Chain(parts, c, l)
    ensures Links(parts, l) && forall q :: 0 <= q < |l| ==> l[q] < |parts|
  {
    forall q | 0 <= q < |l|
      ensures l[q] < |parts| && parts[l[q]].next == if q + 1 == |l| then None else Some(l[q + 1])
    {
      assert LinkedAt(parts, c, l, q);
    }
  }

  lemma LinksNext(parts: seq<Part>, l: seq<nat>, q: nat)
    requires Links(parts, l) && q < |l|
    ensures l[q] < |parts| && parts[l[q]].next == if q + 1 == |l| then None else Some(l[q + 1])
  {
  }

  /** A live participant's call has a list, from the head the index gives, and the participant is in it. */
  lemma CallOf(parts: seq<Part>, byCall: map<Key, Ptr>, lists: map<Key, seq<nat>>, i: nat)
    requires ListsOk(parts, byCall, lists, {}) && i < |parts| && parts[i].used
    ensures var c := parts[i].callId;
            && c in lists && i in lists[c] && Chain(parts, c, lists[c])
            && c in byCall && byCall[c] == Some(lists[c][0])
  {
  }

  ghost predicate SameSeat(a: Part, b: Part) {
    && a.used && b.used && a.token == b.token && a.tokenKey == b.tokenKey && a.callId == b.callId
    && a.connId == b.connId && a.next == b.next && a.prev == b.prev
  }

  lemma TouchLists(parts: seq<Part>, byCall: map<Key, Ptr>, lists: map<Key, seq<nat>>, i: nat, e: Part)
    requires ListsOk(parts, byCall, lists, {}) && i < |parts| && SameSeat(parts[i], e)
    ensures ListsOk(parts[i := e], byCall, lists, {})
  {
    forall c | c in lists ensures Chain(parts[i := e], c, lists[c]) {
      TouchChain(parts, c, lists[c], i, e);
    }
    hide Chain;
  }

  lemma TouchChain(parts: seq<Part>, c: Key, l: seq<nat>, i: nat, e: Part)
    requires Chain(parts, c, l) && i < |parts| && SameSeat(parts[i], e)
    ensures Chain(parts[i := e], c, l)
  {
    var parts' := parts[i := e];
    forall p | 0 <= p < |l| ensures LinkedAt(parts', c, l, p) {
      assert LinkedAt(parts, c, l, p);
    }
  }

  lemma TouchIndexes(parts: seq<Part>, byToken: map<Key, Ptr>, tokenLen: nat, byConn: map<Key, Ptr>, i: nat, e: Part)
    requires TokensOk(parts, byToken, tokenLen) && ConnsOk(parts, byConn, {}) && i < |parts| && SameSeat(parts[i], e)
    ensures TokensOk(parts[i := e], byToken, tokenLen) && ConnsOk(parts[i := e], byConn, {})
    ensures Used(parts[i := e]) == Used(parts)
  {
    hide TokenKey;
  }

  predicate SamePeer(a: Address, b: Address) {
    a.length == b.length && a.family == b.family && a.port == b.port && a.host == b.host
  }

  /** A datagram is slot `i`'s when it leads with the slot's token and comes from the address the slot is bound to. */
  ghost predicate Accepts(parts: seq<Part>, tokenLen: nat, i: nat, pkt: seq<Byte>, src: Address) {
    && i < |parts| && parts[i].used && |pkt| >= tokenLen + 2 && pkt[..tokenLen] == parts[i].token
    && (parts[i].addr.None? || SamePeer(parts[i].addr.value, src))
  }

  /** The sender once a datagram of its own is taken: its address is bound only if it was not yet. */
  function Greeted(e: Part, src: Address, local: Option<seq<Byte>>, now: nat): (r: Part)
    ensures e.addr.Some? ==> r.addr == e.addr
  {
    if e.addr.None? then e.(addr := Some(src), local := local, lastSeen := now, tcp := false)
    else e.(lastSeen := now, tcp := false)
  }

  lemma NobodyUsed(parts: seq<Part>)
    ensures |Used(parts)| == 0 ==> forall i :: 0 <= i < |parts| ==> !parts[i].used
  {
    if i :| 0 <= i < |parts| && parts[i].used {
      assert i in Used(parts);
    }
  }

  lemma OnlyOne(parts: seq<Part>, byToken: map<Key, Ptr>, tokenLen: nat, i: nat)
    requires TokensOk(parts, byToken, tokenLen) && i < |parts| && parts[i].used
    ensures forall j :: 0 <= j < |parts| && parts[j].used && parts[j].token == parts[i].token ==> j == i
  {
  }

  lemma TwoBytes(a: Byte, b: Byte)
    ensures Digits(a * 256 + b, 2) == [a, b]
  {
    assert (a * 256 + b) / 256 == a && (a * 256 + b) % 256 == b;
    assert Digits(a, 1) == [a] by {
      assert Digits(a / 256, 0) == [];
    }
  }

  ghost predicate Known(parts: seq<Part>, token: seq<Byte>) {
    exists i :: 0 <= i < |parts| && parts[i].used && parts[i].token == token
  }

  lemma EmptyTable(parts: seq<Part>)
    requires forall i :: 0 <= i < |parts| ==> !parts[i].used
    ensures ListsOk(parts, map[], map[], {}) && TokensOk(parts, map[], 0) && ConnsOk(parts, map[], {}) && Used(parts) == {}
  {
  }
}
