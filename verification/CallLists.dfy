/**
  The participant table of the call media relay and the doubly linked list each
  call threads through it. A pointer to a participant is its slot, or None for
  null.
 */
module CallLists {
  import opened Basics
  import opened IdMaps

  type Ptr = Option<nat>

  /** A peer's socket address; `extra` is what the relay does not compare. */
  datatype Address = Address(length: nat, family: nat, port: nat, host: seq<Byte>, extra: seq<Byte>)

  datatype Part = Part(
    used: bool, token: seq<Byte>, tokenKey: Key, callId: Key, userId: Key, connId: Key,
    tcp: bool, next: Ptr, prev: Ptr, addr: Option<Address>, local: Option<seq<Byte>>, lastSeen: nat)

  /** Slots `l` are the participants of call `c`, each linked to its neighbours both ways. */
  ghost predicate Chain(parts: seq<Part>, c: Key, l: seq<nat>) {
    && (forall p :: 0 <= p < |l| ==> LinkedAt(parts, c, l, p))
    && (forall p, q :: 0 <= p < q < |l| ==> l[p] != l[q])
  }

  ghost predicate LinkedAt(parts: seq<Part>, c: Key, l: seq<nat>, p: nat)
    requires p < |l|
  {
    && l[p] < |parts|
    && var e := parts[l[p]];
    && e.used && e.callId == c
    && e.prev == (if p == 0 then None else Some(l[p - 1]))
    && e.next == (if p + 1 == |l| then None else Some(l[p + 1]))
  }

  /**
    The index of calls leads to the head of each call's list, and every live
    participant but those in `out` is in the list of its own call, and in no other.
   */
  ghost predicate ListsOk(parts: seq<Part>, byCall: map<Key, Ptr>, lists: map<Key, seq<nat>>, out: set<nat>) {
    && lists.Keys == byCall.Keys
    && (forall c :: c in lists ==> c != 0 && lists[c] != [] && byCall[c] == Some(lists[c][0]) && Chain(parts, c, lists[c]))
    && (forall i :: 0 <= i < |parts| && parts[i].used && i !in out ==> parts[i].callId in lists && i in lists[parts[i].callId])
    && (forall c, i :: c in lists && i in lists[c] ==> i !in out)
  }

  /** The list without its member `i`. */
  function Minus(l: seq<nat>, i: nat): (r: seq<nat>) {
    if l == [] then [] else if l[0] == i then l[1..] else [l[0]] + Minus(l[1..], i)
  }

  lemma {:induction false} MinusAt(l: seq<nat>, p: nat)
    requires p < |l| && forall q, r :: 0 <= q < r < |l| ==> l[q] != l[r]
    ensures Minus(l, l[p]) == l[..p] + l[p + 1..]
  {
    if p > 0 {
      MinusAt(l[1..], p - 1);
      assert l[..p] + l[p + 1..] == [l[0]] + (l[1..][..p - 1] + l[1..][p..]);
    }
  }

  /** A call with nobody left has no list. */
  function Without(lists: map<Key, seq<nat>>, c: Key, i: nat): (r: map<Key, seq<nat>>)
    requires c in lists
  {
    if Minus(lists[c], i) == [] then lists - {c} else lists[c := Minus(lists[c], i)]
  }

  function Joined(lists: map<Key, seq<nat>>, c: Key, i: nat): (r: map<Key, seq<nat>>) {
    lists[c := [i] + if c in lists then lists[c] else []]
  }

  // ----- taking a participant out of its list

  /** The table once slot `i` is unlinked. */
  function UnlinkParts(parts: seq<Part>, i: nat): (r: seq<Part>)
    requires i < |parts|
    requires parts[i].prev.Some? ==> parts[i].prev.value < |parts|
    requires parts[i].next.Some? ==> parts[i].next.value < |parts|
    ensures |r| == |parts|
  {
    var p := parts[i];
    var a := if p.prev.Some? then parts[p.prev.value := parts[p.prev.value].(next := p.next)] else parts;
    var b := if p.next.Some? then a[p.next.value := a[p.next.value].(prev := p.prev)] else a;
    b[i := b[i].(next := None, prev := None)]
  }

  /** The index of calls once slot `i` is unlinked. */
  function UnlinkCalls(parts: seq<Part>, byCall: map<Key, Ptr>, i: nat): (r: map<Key, Ptr>)
    requires i < |parts|
  {
    if parts[i].prev.Some? then byCall
    else if parts[i].next.Some? then byCall[parts[i].callId := parts[i].next]
    else byCall - {parts[i].callId}
  }

  /** Nothing but links changes, and those only for `i` and its neighbours. */
  ghost predicate SameButLinks(a: seq<Part>, b: seq<Part>) {
    && |a| == |b|
    && forall j :: 0 <= j < |a| ==> b[j] == a[j].(next := b[j].next, prev := b[j].prev)
  }

  /** What unlinking the member at `p` does to the one at `q`. */
  lemma UnlinkMember(parts: seq<Part>, c: Key, l: seq<nat>, p: nat, q: nat)
    requires Chain(parts, c, l) && p < |l| && q < |l| && p != q
    ensures UnlinkParts.requires(parts, l[p]) && l[q] < |parts|
    ensures UnlinkParts(parts, l[p])[l[q]] == parts[l[q]].(
              next := if q + 1 == p then parts[l[p]].next else parts[l[q]].next,
              prev := if q == p + 1 then parts[l[p]].prev else parts[l[q]].prev)
  {
    assert LinkedAt(parts, c, l, p) && LinkedAt(parts, c, l, q);
    assert p > 0 ==> LinkedAt(parts, c, l, p - 1);
    assert p + 1 < |l| ==> LinkedAt(parts, c, l, p + 1);
  }

  lemma ChainMinus(parts: seq<Part>, c: Key, l: seq<nat>, p: nat)
    requires Chain(parts, c, l) && p < |l|
    ensures UnlinkParts.requires(parts, l[p]) && SameButLinks(parts, UnlinkParts(parts, l[p]))
    ensures Chain(UnlinkParts(parts, l[p]), c, l[..p] + l[p + 1..])
    ensures LinkedAt(parts, c, l, p) && l[p] !in l[..p] + l[p + 1..]
  {
    assert LinkedAt(parts, c, l, p);
    assert p > 0 ==> LinkedAt(parts, c, l, p - 1);
    assert p + 1 < |l| ==> LinkedAt(parts, c, l, p + 1);
    var parts' := UnlinkParts(parts, l[p]);
    var m := l[..p] + l[p + 1..];
    forall q | 0 <= q < |m| ensures LinkedAt(parts', c, m, q) {
      var o := if q < p then q else q + 1;
      UnlinkMember(parts, c, l, p, o);
      hide UnlinkParts;
      assert LinkedAt(parts, c, l, o);
    }
  }

  /** A list is untouched by changes to participants not in it. */
  lemma ChainFrame(a: seq<Part>, b: seq<Part>, c: Key, l: seq<nat>)
    requires Chain(a, c, l) && |a| == |b|
    requires forall p :: 0 <= p < |l| && l[p] < |a| ==> b[l[p]] == a[l[p]]
    ensures Chain(b, c, l)
  {
    forall p | 0 <= p < |l| ensures LinkedAt(b, c, l, p) {
      assert LinkedAt(a, c, l, p);
    }
  }

  /** Unlinking touches only members of the same call. */
  lemma UnlinkElsewhere(parts: seq<Part>, c: Key, l: seq<nat>, p: nat, d: Key, m: seq<nat>)
    requires Chain(parts, c, l) && p < |l| && d != c && Chain(parts, d, m)
    ensures UnlinkParts.requires(parts, l[p])
    ensures Chain(UnlinkParts(parts, l[p]), d, m)
    ensures l[p] !in m
  {
    assert LinkedAt(parts, c, l, p);
    assert p > 0 ==> LinkedAt(parts, c, l, p - 1);
    assert p + 1 < |l| ==> LinkedAt(parts, c, l, p + 1);
    forall q | 0 <= q < |m| ensures m[q] < |parts| && parts[m[q]].callId == d {
      assert LinkedAt(parts, d, m, q);
    }
    ChainFrame(parts, UnlinkParts(parts, l[p]), d, m);
  }

  lemma ListsMinus(parts: seq<Part>, parts': seq<Part>, byCall: map<Key, Ptr>, lists: map<Key, seq<nat>>, i: nat, p: nat)
    requires ListsOk(parts, byCall, lists, {}) && i < |parts| && parts[i].used && SameButLinks(parts, parts')
    requires var c := parts[i].callId; c in lists && p < |lists[c]| && lists[c][p] == i && LinkedAt(parts, c, lists[c], p)
    requires Chain(parts', parts[i].callId, Minus(lists[parts[i].callId], i))
    requires Minus(lists[parts[i].callId], i) == lists[parts[i].callId][..p] + lists[parts[i].callId][p + 1..]
    requires i !in Minus(lists[parts[i].callId], i)
    requires forall d :: d in lists && d != parts[i].callId ==> Chain(parts', d, lists[d]) && i !in lists[d]
    ensures ListsOk(parts', UnlinkCalls(parts, byCall, i), Without(lists, parts[i].callId, i), {i})
  {
    hide Chain;
    var c, lists', byCall' := parts[i].callId, Without(lists, parts[i].callId, i), UnlinkCalls(parts, byCall, i);
    assert lists'.Keys == byCall'.Keys;
    forall j | 0 <= j < |parts| && parts'[j].used && j != i ensures parts'[j].callId in lists' && j in lists'[parts'[j].callId] {
      assert j in lists[parts[j].callId];
      if parts[j].callId == c {
        assert j in Minus(lists[c], i);
      }
    }
  }

  lemma UnlinkKeeps(parts: seq<Part>, byCall: map<Key, Ptr>, lists: map<Key, seq<nat>>, i: nat)
    requires ListsOk(parts, byCall, lists, {}) && i < |parts| && parts[i].used
    ensures UnlinkParts.requires(parts, i) && parts[i].callId in lists && parts[i].callId in byCall && parts[i].callId != 0
    ensures SameButLinks(parts, UnlinkParts(parts, i))
    ensures ListsOk(UnlinkParts(parts, i), UnlinkCalls(parts, byCall, i), Without(lists, parts[i].callId, i), {i})
  {
    var c := parts[i].callId;
    var l := lists[c];
    var p :| 0 <= p < |l| && l[p] == i;
    ChainMinus(parts, c, l, p);
    MinusAt(l, p);
    hide UnlinkParts, Chain, LinkedAt;
    forall d | d in lists && d != c ensures Chain(UnlinkParts(parts, i), d, lists[d]) && i !in lists[d] {
      UnlinkElsewhere(parts, c, l, p, d, lists[d]);
    }
    ListsMinus(parts, UnlinkParts(parts, i), byCall, lists, i, p);
  }

  // ----- putting a participant at the head of its call's list

  function LinkParts(parts: seq<Part>, head: Ptr, i: nat): (r: seq<Part>)
    requires i < |parts| && (head.Some? ==> head.value < |parts|)
    ensures |r| == |parts|
  {
    var a := parts[i := parts[i].(prev := None, next := head)];
    if head.Some? then a[head.value := a[head.value].(prev := Some(i))] else a
  }

  lemma ChainJoined(parts: seq<Part>, c: Key, l: seq<nat>, i: nat)
    requires Chain(parts, c, l) && i < |parts| && i !in l && parts[i].used && parts[i].callId == c
    ensures var head := if l == [] then None else Some(l[0]);
            LinkParts.requires(parts, head, i) && Chain(LinkParts(parts, head, i), c, [i] + l)
  {
    var head := if l == [] then None else Some(l[0]);
    assert l != [] ==> LinkedAt(parts, c, l, 0);
    var parts', l' := LinkParts(parts, head, i), [i] + l;
    forall q | 0 <= q < |l'| ensures LinkedAt(parts', c, l', q) {
      assert q > 0 ==> LinkedAt(parts, c, l, q - 1);
    }
  }

  lemma LinkElsewhere(parts: seq<Part>, c: Key, head: Ptr, i: nat, d: Key, m: seq<nat>)
    requires i < |parts| && i !in m && d != c && Chain(parts, d, m)
    requires head.Some? ==> head.value < |parts| && parts[head.value].callId == c
    ensures Chain(LinkParts(parts, head, i), d, m)
  {
    forall q | 0 <= q < |m| ensures m[q] < |parts| && parts[m[q]].callId == d {
      assert LinkedAt(parts, d, m, q);
    }
    ChainFrame(parts, LinkParts(parts, head, i), d, m);
  }

  lemma LinkKeeps(parts: seq<Part>, byCall: map<Key, Ptr>, lists: map<Key, seq<nat>>, i: nat)
    requires ListsOk(parts, byCall, lists, {i}) && i < |parts| && parts[i].used && parts[i].callId != 0
    ensures var c := parts[i].callId;
            var head := if c in byCall then byCall[c] else None;
            && LinkParts.requires(parts, head, i)
            && SameButLinks(parts, LinkParts(parts, head, i))
            && ListsOk(LinkParts(parts, head, i), byCall[c := Some(i)], Joined(lists, c, i), {})
  {
    var c := parts[i].callId;
    var l := if c in lists then lists[c] else [];
    var head := if c in byCall then byCall[c] else None;
    assert Chain(parts, c, l);
    assert l != [] ==> LinkedAt(parts, c, l, 0);
    ChainJoined(parts, c, l, i);
    forall d | d in lists && d != c ensures Chain(LinkParts(parts, head, i), d, lists[d]) {
      LinkElsewhere(parts, c, head, i, d, lists[d]);
    }
    assert SameButLinks(parts, LinkParts(parts, head, i));
    hide LinkParts, Chain;
  }
}
