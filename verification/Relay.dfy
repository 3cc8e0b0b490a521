/**
  The call media relay: a fixed table of participants found by token, by call
  and by connection, whose packets are forwarded to the rest of their call.
 */
module Relays {
  import opened Basics
  import opened IdMaps
  import opened CallLists
  import opened RelayTables

  class Relay {
    const byToken: IdMap<nat>
    const byCall: IdMap<nat>
    const byConn: IdMap<nat>
    const parts: array<Part>
    var tokenLen: nat
    var n: nat
    var silenceMs: nat
    var received: nat
    /** Each call's participants, newest first. */
    ghost var lists: map<Key, seq<nat>>

    ghost function Repr(): (r: set<object>) {
      {this, parts, byToken, byToken.keys, byToken.vals, byCall, byCall.keys, byCall.vals, byConn, byConn.keys, byConn.vals}
    }

    /** The three indexes are apart from each other and each is twice the size of the table. */
    ghost predicate Shape()
      reads Repr()
    {
      && parts.Length == MAX_PARTS
      && byToken.cap == byCall.cap == byConn.cap == 2 * MAX_PARTS
      && byToken != byCall && byToken != byConn && byCall != byConn
      && byToken.keys != byCall.keys && byToken.keys != byConn.keys && byCall.keys != byConn.keys
      && byToken.vals != byCall.vals && byToken.vals != byConn.vals && byCall.vals != byConn.vals
      && byToken.Valid() && byCall.Valid() && byConn.Valid()
    }

    ghost predicate Valid()
      reads Repr()
    {
      && Shape()
      && ListsOk(parts[..], byCall.Contents, lists, {})
      && TokensOk(parts[..], byToken.Contents, tokenLen)
      && ConnsOk(parts[..], byConn.Contents, {})
      && n == |Used(parts[..])|
      && (n == 0 ==> tokenLen == 0)
      && (n > 0 ==> TOKEN_RAND <= tokenLen <= TOKEN_MAX)
    }

    constructor ()
      ensures Valid() && Used(parts[..]) == {} && lists == map[]
    {
      hide IdMap.Valid, PowerOfTwo, Fibonacci, ListsOk, TokensOk, ConnsOk, Used;
      TableSizeOk();
      var seats := new Part[MAX_PARTS](_ => Part(false, [], 0, 0, 0, 0, false, None, None, None, None, 0));
      EmptyTable(seats[..]);
      parts := seats;
      byToken := new IdMap<nat>(2 * MAX_PARTS, Fibonacci);
      byCall := new IdMap<nat>(2 * MAX_PARTS, Fibonacci);
      byConn := new IdMap<nat>(2 * MAX_PARTS, Fibonacci);
      tokenLen, n, silenceMs, received := 0, 0, 20000, 0;
      lists := map[];
      new;
      assert parts[..] == seats[..];
    }

    /** The live participant with this token, if there is one. */
    method FindToken(token: seq<Byte>) returns (r: Ptr)
      requires Shape() && TokensOk(parts[..], byToken.Contents, tokenLen)
      ensures r.Some? ==> r.value < MAX_PARTS && parts[r.value].used && parts[r.value].token == token
      ensures r.None? && (|token| >= TOKEN_RAND || |token| != tokenLen) ==> !Known(parts[..], token)
    {
      hide IdMap.Valid, TokenKey;
      if |token| != tokenLen || |token| < TOKEN_RAND {
        return None;
      }
      var p := byToken.Get(TokenKey(token));
      return if p.Some? && parts[p.value].token == token then p else None;
    }

    method CallUnlink(i: nat)
      requires Shape() && i < MAX_PARTS && parts[i].used && ListsOk(parts[..], byCall.Contents, lists, {})
      modifies parts, byCall, byCall.keys, byCall.vals, this`lists
      ensures Shape() && SameButLinks(old(parts[..]), parts[..])
      ensures ListsOk(parts[..], byCall.Contents, lists, {i})
      ensures old(parts[i].callId in lists) && lists == Without(old(lists), old(parts[i].callId), i)
    {
      hide IdMap.Valid, ListsOk, LinkedAt;
      UnlinkKeeps(parts[..], byCall.Contents, lists, i);
      var p := parts[i];
      lists := Without(lists, p.callId, i);
      if p.prev.Some? {
        parts[p.prev.value] := parts[p.prev.value].(next := p.next);
      } else if p.next.Some? {
        var _ := byCall.Put(p.callId, p.next);
      } else {
        byCall.Del(p.callId);
      }
      if p.next.Some? {
        parts[p.next.value] := parts[p.next.value].(prev := p.prev);
      }
      parts[i] := parts[i].(next := None, prev := None);
      assert parts[..] == UnlinkParts(old(parts[..]), i);
    }

    /** Put at the head of its call's list; there is always room in the index of calls. */
    method CallLink(i: nat) returns (ok: bool)
      requires Shape() && i < MAX_PARTS && parts[i].used && parts[i].callId != 0
      requires ListsOk(parts[..], byCall.Contents, lists, {i})
      modifies parts, byCall, byCall.keys, byCall.vals, this`lists
      ensures ok
      ensures Shape() && SameButLinks(old(parts[..]), parts[..])
      ensures ListsOk(parts[..], byCall.Contents, lists, {})
      ensures lists == Joined(old(lists), parts[i].callId, i)
    {
      hide IdMap.Valid, ListsOk, LinkedAt;
      LinkKeeps(parts[..], byCall.Contents, lists, i);
      CallsFit(parts[..], byCall.Contents, lists, i);
      var c := parts[i].callId;
      var head := byCall.Get(c);
      lists := Joined(lists, c, i);
      ok := byCall.Put(c, Some(i));
      parts[i] := parts[i].(prev := None, next := head);
      if head.Some? {
        parts[head.value] := parts[head.value].(prev := Some(i));
      }
      assert parts[..] == LinkParts(old(parts[..]), head, i);
    }

    /** No connection leads to slot `i` any more. */
    method ForgetConn(i: nat)
      requires Shape() && i < MAX_PARTS && ConnsOk(parts[..], byConn.Contents, {})
      modifies byConn, byConn.keys, byConn.vals
      ensures Shape() && ConnsOk(parts[..], byConn.Contents, {i})
      ensures byConn.Contents == Forget(old(byConn.Contents), parts[i].connId, i)
    {
      hide IdMap.Valid, ConnsOk;
      ForgetKeeps(parts[..], byConn.Contents, i);
      var c := byConn.Get(parts[i].connId);
      if c == Some(i) {
        byConn.Del(parts[i].connId);
      }
    }

    method Drop(i: nat)
      requires Valid() && i < MAX_PARTS && parts[i].used
      modifies Repr()
      ensures Valid() && silenceMs == old(silenceMs) && received == old(received)
      ensures Live(parts[..]) == old(Live(parts[..])) - {i}
      ensures old(parts[i].callId in lists) && lists == Without(old(lists), old(parts[i].callId), i)
      ensures byConn.Contents == Forget(old(byConn.Contents), old(parts[i].connId), i)
      ensures byToken.Contents == old(byToken.Contents) - {old(parts[i].tokenKey)}
    {
      hide IdMap.Valid, ListsOk, TokensOk, ConnsOk, Used, Live, LinkedAt;
      CallUnlink(i);
      LiveSame(old(parts[..]), parts[..]);
      ForgetConn(i);
      UnseatKeeps(parts[..], byToken.Contents, tokenLen, byConn.Contents, i);
      UnseatLive(parts[..], i);
      ListsFrame(parts[..], byCall.Contents, lists, i, parts[i].(used := false), {i});
      byToken.Del(parts[i].tokenKey);
      ghost var before := parts[..];
      parts[i] := parts[i].(used := false);
      assert parts[..] == before[i := before[i].(used := false)];
      ListsDropped(parts[..], byCall.Contents, lists, i);
      n := n - 1;
      if n == 0 {
        NobodyLength(parts[..], byToken.Contents, tokenLen, 0);
        tokenLen := 0;
      }
    }

    /** Take a free slot for a token not seen before; none when its key is taken or the table is full. */
    method Seat(token: seq<Byte>) returns (r: Ptr)
      requires Shape() && n == |Used(parts[..])| && |token| == tokenLen >= TOKEN_RAND
      requires ListsOk(parts[..], byCall.Contents, lists, {}) && ConnsOk(parts[..], byConn.Contents, {})
      requires TokensOk(parts[..], byToken.Contents, tokenLen)
      modifies parts, byToken, byToken.keys, byToken.vals, this`n
      ensures Shape() && n == |Used(parts[..])| && TokensOk(parts[..], byToken.Contents, tokenLen)
      ensures r.Some? <==> TokenKey(token) !in old(byToken.Contents) && old(n) < MAX_PARTS
      ensures r.None? ==> parts[..] == old(parts[..]) && byToken.Contents == old(byToken.Contents) && n == old(n)
      ensures r.Some? ==>
                && r.value < MAX_PARTS && !old(parts[..])[r.value].used
                && parts[..] == old(parts[..])[r.value := Newcomer(token)]
                && ListsOk(parts[..], byCall.Contents, lists, {r.value})
                && ConnsOk(parts[..], byConn.Contents, {r.value})
                && n == old(n) + 1
    {
      hide IdMap.Valid, ListsOk, ConnsOk, LinkedAt, TokenKey, Used;
      UsedBound(parts[..]);
      var key := TokenKey(token);
      var taken := byToken.Get(key);
      if taken.Some? {
        return None;
      }
      var i: nat := 0;
      while i < MAX_PARTS && parts[i].used
        invariant i <= MAX_PARTS && forall j :: 0 <= j < i ==> parts[j].used
      {
        i := i + 1;
      }
      if i == MAX_PARTS {
        return None;
      }
      SeatKeeps(parts[..], byToken.Contents, tokenLen, byConn.Contents, i, Newcomer(token));
      ListsFrame(parts[..], byCall.Contents, lists, i, Newcomer(token), {});
      TokensFit(parts[..], byToken.Contents, tokenLen, i);
      hide TokensOk;
      var put := byToken.Put(key, Some(i));
      parts[i] := Newcomer(token);
      assert parts[..] == old(parts[..])[i := Newcomer(token)];
      n := n + 1;
      return Some(i);
    }

    /** Put a participant that is in no call and on no connection where it now belongs. */
    method Place(i: nat, call: Key, user: Key, conn: Key, now: nat)
      requires Shape() && i < MAX_PARTS && parts[i].used && call != 0
      requires ListsOk(parts[..], byCall.Contents, lists, {i}) && ConnsOk(parts[..], byConn.Contents, {i})
      requires TokensOk(parts[..], byToken.Contents, tokenLen)
      modifies parts, byCall, byCall.keys, byCall.vals, byConn, byConn.keys, byConn.vals, this`lists
      ensures Shape() && ListsOk(parts[..], byCall.Contents, lists, {}) && ConnsOk(parts[..], byConn.Contents, {})
      ensures TokensOk(parts[..], byToken.Contents, tokenLen) && Used(parts[..]) == old(Used(parts[..]))
      ensures Live(parts[..]) == old(Live(parts[..]))[i := Moved(old(parts[i]), call, user, conn, now).(next := None, prev := None)]
      ensures lists == Joined(old(lists), call, i)
      ensures byConn.Contents == Seated(old(byConn.Contents), conn, i)
    {
      hide IdMap.Valid, ListsOk, ConnsOk, TokensOk, LinkedAt, Used, Live;
      ghost var e := Moved(parts[i], call, user, conn, now);
      MoveKeeps(parts[..], byToken.Contents, tokenLen, byConn.Contents, i, e);
      LiveUpdate(parts[..], i, e);
      ListsFrame(parts[..], byCall.Contents, lists, i, e, {i});
      parts[i] := parts[i].(callId := call, userId := user, connId := conn, lastSeen := now);
      ghost var placed := parts[..];
      assert placed == old(parts[..])[i := e];
      var ok := CallLink(i);
      LiveSame(placed, parts[..]);
      ConnKeeps(parts[..], byConn.Contents, i);
      ConnsFit(parts[..], byConn.Contents, i);
      if conn != 0 {
        var put := byConn.Put(conn, Some(i));
      }
    }

    /** When a token is taken: usable, in a call, of the one length, and already known or with a key and a slot free. */
    ghost predicate Admits(call: Key, token: seq<Byte>)
      reads Repr()
    {
      && TOKEN_RAND <= |token| <= TOKEN_MAX && call != 0
      && (n == 0 || |token| == tokenLen)
      && (Known(parts[..], token) || (TokenKey(token) !in byToken.Contents && n < MAX_PARTS))
    }

    /** Register a participant, or move one whose token is already known. */
    method Authorize(call: Key, user: Key, conn: Key, token: seq<Byte>, now: nat) returns (ok: bool, ghost slot: nat)
      requires Valid()
      modifies Repr()
      ensures Valid()
      ensures ok <==> old(Admits(call, token))
      ensures !ok ==>
                && parts[..] == old(parts[..]) && lists == old(lists) && tokenLen == old(tokenLen)
                && byToken.Contents == old(byToken.Contents) && byCall.Contents == old(byCall.Contents)
                && byConn.Contents == old(byConn.Contents)
      ensures ok ==> slot < MAX_PARTS && tokenLen == |token|
      ensures ok ==> old(Known(parts[..], token)) == old(parts[..])[slot].used
      ensures ok && old(parts[..])[slot].used ==>
                && old(parts[..])[slot].token == token && old(parts[..])[slot].callId in old(lists)
                && Live(parts[..]) == old(Live(parts[..]))[slot :=
                     Moved(old(parts[..])[slot], call, user, conn, now).(next := None, prev := None)]
                && lists == Joined(Without(old(lists), old(parts[..])[slot].callId, slot), call, slot)
                && byConn.Contents == Seated(Forget(old(byConn.Contents), old(parts[..])[slot].connId, slot), conn, slot)
      ensures ok && !old(parts[..])[slot].used ==>
                && Live(parts[..]) == old(Live(parts[..]))[slot := Moved(Newcomer(token), call, user, conn, now)]
                && lists == Joined(old(lists), call, slot)
                && byConn.Contents == Seated(old(byConn.Contents), conn, slot)
    {
      hide IdMap.Valid, ListsOk, ConnsOk, TokensOk, LinkedAt, Used, Live, TokenKey;
      slot := 0;
      if |token| < TOKEN_RAND || |token| > TOKEN_MAX || call == 0 || (n != 0 && |token| != tokenLen) {
        return false, 0;
      }
      if n == 0 {
        NobodyLength(parts[..], byToken.Contents, tokenLen, |token|);
        tokenLen := |token|;
      }
      var p := FindToken(token);
      if p.Some? {
        slot := p.value;
        UsedSlot(parts[..], slot);
        Take(p.value);
        Place(p.value, call, user, conn, now);
      } else {
        p := Seat(token);
        if p.None? {
          return false, 0;
        }
        slot := p.value;
        LiveUpdate(old(parts[..]), slot, Newcomer(token));
        Place(p.value, call, user, conn, now);
      }
      return true, slot;
    }

    /** Take a participant out of its call and off its connection, to be placed again. */
    method Take(i: nat)
      requires Shape() && i < MAX_PARTS && parts[i].used && ConnsOk(parts[..], byConn.Contents, {})
      requires ListsOk(parts[..], byCall.Contents, lists, {}) && TokensOk(parts[..], byToken.Contents, tokenLen)
      modifies parts, byCall, byCall.keys, byCall.vals, byConn, byConn.keys, byConn.vals, this`lists
      ensures Shape() && ListsOk(parts[..], byCall.Contents, lists, {i}) && ConnsOk(parts[..], byConn.Contents, {i})
      ensures TokensOk(parts[..], byToken.Contents, tokenLen) && SameButLinks(old(parts[..]), parts[..])
      ensures Used(parts[..]) == old(Used(parts[..])) && Live(parts[..]) == old(Live(parts[..]))
      ensures old(parts[i].callId in lists) && lists == Without(old(lists), old(parts[i].callId), i)
      ensures byConn.Contents == Forget(old(byConn.Contents), old(parts[i].connId), i)
    {
      hide IdMap.Valid, ListsOk, ConnsOk, TokensOk, LinkedAt, Used, Live;
      CallUnlink(i);
      LiveSame(old(parts[..]), parts[..]);
      ForgetConn(i);
    }

    method Revoke(token: seq<Byte>) returns (ghost gone: Ptr)
      requires Valid()
      modifies Repr()
      ensures Valid()
      ensures gone.None? <==> !old(Known(parts[..], token))
      ensures gone.None? ==> Live(parts[..]) == old(Live(parts[..])) && lists == old(lists)
      ensures gone.Some? ==>
                && gone.value in old(Live(parts[..])) && old(Live(parts[..]))[gone.value].token == token
                && Live(parts[..]) == old(Live(parts[..])) - {gone.value}
                && byConn.Contents == Forget(old(byConn.Contents), old(parts[..])[gone.value].connId, gone.value)
    {
      hide IdMap.Valid, ListsOk, ConnsOk, TokensOk, Used, Live;
      var p := FindToken(token);
      gone := p;
      if p.None? {
        if exists i :: 0 <= i < MAX_PARTS && parts[i].used {
          var i :| 0 <= i < MAX_PARTS && parts[i].used;
          UsedSlot(parts[..], i);
        }
      } else {
        UsedSlot(parts[..], p.value);
        Drop(p.value);
      }
    }

    /** Drop every participant silent for longer than the interval, and name their tokens. */
    method Sweep(now: nat) returns (gone: seq<seq<Byte>>)
      requires Valid()
      modifies Repr()
      ensures Valid()
      ensures Live(parts[..]) == Heard(old(Live(parts[..])), now, silenceMs, MAX_PARTS)
      ensures gone == SilentTokens(old(parts[..]), now, silenceMs, MAX_PARTS)
      ensures silenceMs == old(silenceMs)
    {
      hide IdMap.Valid, ListsOk, ConnsOk, TokensOk, Used, Live, Heard, Elapsed;
      gone := [];
      HeardNone(parts[..], now, silenceMs);
      if n == 0 {
        return;
      }
      ghost var was := parts[..];
      HeardStart(Live(was), now, silenceMs);
      for i := 0 to MAX_PARTS
        invariant Valid() && silenceMs == old(silenceMs)
        invariant Live(parts[..]) == Heard(Live(was), now, silenceMs, i)
        invariant gone == SilentTokens(was, now, silenceMs, i)
      {
        HeardStep(was, parts[..], now, silenceMs, i);
        if parts[i].used && Elapsed(now, parts[i].lastSeen) > silenceMs {
          gone := gone + [parts[i].token];
          Drop(i);
        }
      }
    }

    /**
      Relay a packet of `me`'s to the rest of its call, each by its own transport:
      the slots handed to the connection hook, those sent a datagram, and the
      datagram itself. An empty payload is answered to its sender alone.
     */
    method Forward(me: nat, seqNo: nat, payload: seq<Byte>) returns (tcp: seq<nat>, udp: seq<nat>, frame: seq<Byte>)
      requires Valid() && me < MAX_PARTS && parts[me].used && seqNo < 0x1_0000
      ensures FansOut(parts[..], lists, me, payload, tcp, udp)
      ensures |payload| <= MAX_PACKET - S2C_HDR ==>
                frame == Digits(parts[me].userId, 8) + Digits(seqNo, 2) + payload
    {
      hide IdMap.Valid, ListsOk, ConnsOk, TokensOk, Used, Digits, Walk, Chain, LinkedAt;
      CallOf(parts[..], byCall.Contents, lists, me);
      tcp, udp, frame := [], [], [];
      if |payload| > MAX_PACKET - S2C_HDR {
        return;
      }
      frame := Digits(parts[me].userId, 8) + Digits(seqNo, 2) + payload;
      if payload == [] {
        tcp, udp := Gather(Some(me), None, false, [me]);
      } else {
        var head := byCall.Get(parts[me].callId);
        ChainLinks(parts[..], parts[me].callId, lists[parts[me].callId]);
        tcp, udp := Gather(head, Some(me), true, lists[parts[me].callId]);
      }
    }

    /** The walk from `start` along the links, or of `start` alone, until enough datagrams are gathered. */
    method Gather(start: Ptr, skip: Ptr, follow: bool, ghost l: seq<nat>) returns (tcp: seq<nat>, udp: seq<nat>)
      requires parts.Length == MAX_PARTS && l != [] && start == Some(l[0])
      requires forall q :: 0 <= q < |l| ==> l[q] < MAX_PARTS
      requires if follow then Links(parts[..], l) else |l| == 1
      ensures Reached(tcp, udp) == Walk(parts[..], l, skip, 0)
    {
      hide Walk, Links, Plus;
      tcp, udp := [], [];
      ghost var q := 0;
      var e := start;
      WalkStart(parts[..], l, skip);
      while e.Some? && |udp| < MAX_CALL
        invariant 0 <= q <= |l| && e == (if q == |l| then None else Some(l[q]))
        invariant Walk(parts[..], l, skip, 0) == Plus(tcp, udp, Walk(parts[..], l[q..], skip, |udp|))
        decreases |l| - q
      {
        if follow {
          LinksNext(parts[..], l, q);
        }
        WalkStep(parts[..], l, q, skip, tcp, udp);
        var p := parts[e.value];
        if e == skip {
        } else if p.tcp {
          tcp := tcp + [e.value];
        } else if p.addr.Some? {
          udp := udp + [e.value];
        }
        e := if follow then p.next else None;
        q := q + 1;
      }
      WalkEnd(parts[..], l[q..], skip, tcp, udp);
    }

    /** A packet connection `conn` carried: its participant is now on the connection transport. */
    method FromTcp(conn: Key, seqNo: nat, payload: seq<Byte>, now: nat)
      returns (me: Ptr, tcp: seq<nat>, udp: seq<nat>, frame: seq<Byte>)
      requires Valid() && seqNo < 0x1_0000
      modifies parts
      ensures Valid()
      ensures me == if conn in byConn.Contents then byConn.Contents[conn] else None
      ensures me.None? ==> parts[..] == old(parts[..]) && tcp == [] && udp == []
      ensures me.Some? ==>
                && me.value < MAX_PARTS && old(parts[..])[me.value].connId == conn
                && parts[..] == old(parts[..])[me.value := old(parts[..])[me.value].(tcp := true, lastSeen := now)]
                && FansOut(parts[..], lists, me.value, payload, tcp, udp)
                && (|payload| <= MAX_PACKET - S2C_HDR ==>
                      frame == Digits(parts[me.value].userId, 8) + Digits(seqNo, 2) + payload)
    {
      hide IdMap.Valid, ListsOk, TokensOk, Used, Digits, Walk;
      tcp, udp, frame := [], [], [];
      me := None;
      if conn != 0 {
        me := byConn.Get(conn);
      }
      if me.None? {
        return;
      }
      Touch(me.value, parts[me.value].(tcp := true, lastSeen := now));
      tcp, udp, frame := Forward(me.value, seqNo, payload);
    }

    /** Change only what no index or list looks at. */
    method Touch(i: nat, e: Part)
      requires Valid() && i < MAX_PARTS && SameSeat(parts[i], e)
      modifies parts
      ensures Valid() && parts[..] == old(parts[..])[i := e]
    {
      hide IdMap.Valid, ListsOk, TokensOk, ConnsOk, Used;
      TouchIndexes(parts[..], byToken.Contents, tokenLen, byConn.Contents, i, e);
      TouchLists(parts[..], byCall.Contents, lists, i, e);
      parts[i] := e;
      assert parts[..] == old(parts[..])[i := e];
    }

    /** The participant a datagram is from, if there is one whose token leads it and who may send from there. */
    method Recognise(pkt: seq<Byte>, src: Address) returns (me: Ptr)
      requires Valid()
      ensures me.None? ==> forall i :: 0 <= i < MAX_PARTS ==> !Accepts(parts[..], tokenLen, i, pkt, src)
      ensures me.Some? ==> me.value < MAX_PARTS && Accepts(parts[..], tokenLen, me.value, pkt, src)
    {
      hide IdMap.Valid, ListsOk, ConnsOk, TokensOk, Used;
      NobodyUsed(parts[..]);
      if tokenLen == 0 || |pkt| < tokenLen + 2 {
        return None;
      }
      me := FindToken(pkt[..tokenLen]);
      if me.Some? {
        OnlyOne(parts[..], byToken.Contents, tokenLen, me.value);
        var p := parts[me.value];
        if p.addr.Some? && !SamePeer(p.addr.value, src) {
          me := None;
        }
      }
    }

    /**
      One datagram off the socket, from `src`, sent to local address `local`. The
      address is bound by the first packet and never learned again: a packet with
      the token from anywhere else is dropped.
     */
    method OnDatagram(pkt: seq<Byte>, src: Address, local: Option<seq<Byte>>, now: nat)
      returns (me: Ptr, tcp: seq<nat>, udp: seq<nat>, frame: seq<Byte>)
      requires Valid()
      modifies parts, this`received
      ensures Valid() && received == old(received) + 1
      ensures me.None? ==> forall i :: 0 <= i < MAX_PARTS ==> !Accepts(old(parts[..]), tokenLen, i, pkt, src)
      ensures me.None? ==> parts[..] == old(parts[..]) && tcp == [] && udp == []
      ensures me.Some? ==> me.value < MAX_PARTS && Accepts(old(parts[..]), tokenLen, me.value, pkt, src)
      ensures me.Some? ==> parts[..] == old(parts[..])[me.value := Greeted(old(parts[..])[me.value], src, local, now)]
      ensures me.Some? ==> FansOut(parts[..], lists, me.value, pkt[tokenLen + 2..], tcp, udp)
      ensures me.Some? && |pkt| - tokenLen - 2 <= MAX_PACKET - S2C_HDR ==>
                frame == Digits(parts[me.value].userId, 8) + pkt[tokenLen..]
    {
      hide IdMap.Valid, ListsOk, ConnsOk, TokensOk, Used, Walk, Digits, SamePeer;
      received := received + 1;
      tcp, udp, frame := [], [], [];
      me := Recognise(pkt, src);
      if me.None? {
        return;
      }
      Touch(me.value, Greeted(parts[me.value], src, local, now));
      var hi: nat, lo: nat := pkt[tokenLen], pkt[tokenLen + 1];
      TwoBytes(hi, lo);
      tcp, udp, frame := Forward(me.value, hi * 256 + lo, pkt[tokenLen + 2..]);
      assert pkt[tokenLen..] == [hi, lo] + pkt[tokenLen + 2..];
    }
  }
}
