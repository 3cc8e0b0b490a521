/**
  The CBOR reader, against section 3 of RFC 8949: items of definite length,
  nested a bounded depth.
 */
module Cbor {
  import opened Basics

  const MAX_DEPTH: nat := 8
  const INT64_MAX: int := 0x7FFF_FFFF_FFFF_FFFF

  // ----- the format

  /** An item's first bytes: its major type, and its argument in the initial byte or in `width` more. */
  datatype Head = Head(major: nat, width: nat, arg: nat)

  predicate HeadOk(h: Head) {
    && h.major < 8
    && if h.width == 0 then h.arg < 24
       else (h.width == 1 || h.width == 2 || h.width == 4 || h.width == 8) && h.arg < Pow256(h.width)
  }

  function AdditionalInfo(h: Head): (ai: nat)
    requires HeadOk(h)
    ensures ai < 28
  {
    if h.width == 0 then h.arg else if h.width == 1 then 24 else if h.width == 2 then 25 else if h.width == 4 then 26 else 27
  }

  function HeadBytes(h: Head): (b: Bytes)
    requires HeadOk(h)
    ensures |b| == 1 + h.width
  {
    [32 * h.major + AdditionalInfo(h)] + Digits(h.arg, h.width)
  }

  /** An item; a map's keys and values alternate. */
  datatype Item = Plain(h: Head) | Text(h: Head, bytes: Bytes) | Group(h: Head, items: Items)
  datatype Items = Nil | Cons(first: Item, rest: Items)

  function Count(l: Items): (n: nat) {
    if l.Nil? then 0 else 1 + Count(l.rest)
  }

  /** How many items an array's, a map's or a tag's head is followed by. */
  function Members(h: Head): (n: Option<nat>) {
    if h.major == 4 then Some(h.arg) else if h.major == 5 then Some(2 * h.arg) else if h.major == 6 then Some(1) else None
  }

  /** Integers and simple values; byte and text strings; arrays, maps and tags. */
  predicate Ok(i: Item) {
    && HeadOk(i.h)
    && match i
       case Plain(h) => h.major == 0 || h.major == 1 || h.major == 7
       case Text(h, bytes) => (h.major == 2 || h.major == 3) && |bytes| == h.arg
       case Group(h, items) => Members(h) == Some(Count(items)) && AllOk(items)
  }

  predicate AllOk(l: Items) {
    l.Cons? ==> Ok(l.first) && AllOk(l.rest)
  }

  function Ser(i: Item): (b: Bytes)
    requires Ok(i)
  {
    HeadBytes(i.h) +
    match i
    case Plain(_) => []
    case Text(_, bytes) => bytes
    case Group(_, items) => SerAll(items)
  }

  function SerAll(l: Items): (b: Bytes)
    requires AllOk(l)
  {
    if l.Nil? then [] else Ser(l.first) + SerAll(l.rest)
  }

  /** How many levels an item has below its own. */
  function Depth(i: Item): (d: nat) {
    match i
    case Group(_, items) => if items.Nil? then 0 else 1 + DepthAll(items)
    case _ => 0
  }

  function DepthAll(l: Items): (d: nat) {
    if l.Nil? then 0 else if Depth(l.first) >= DepthAll(l.rest) then Depth(l.first) else DepthAll(l.rest)
  }

  // ----- what the reader does, as a function

  datatype HeadRead = HeadRead(h: Head, next: nat)

  /** The head at `p`: None at the end of the input, for an indefinite length, and for a reserved form. */
  function HeadAt(data: Bytes, p: nat): (r: Option<HeadRead>)
    ensures r.Some? ==> p < r.value.next <= |data| && HeadOk(r.value.h)
  {
    if p >= |data| then None
    else
      var major, ai := data[p] / 32, data[p] % 32;
      if ai < 24 then Some(HeadRead(Head(major, 0, ai), p + 1))
      else if ai > 27 then None
      else
        var n := if ai == 24 then 1 else if ai == 25 then 2 else if ai == 26 then 4 else 8;
        if |data| - p - 1 < n then None
        else
          var field := data[p + 1..p + 1 + n];
          BigEndianBound(field);
          Some(HeadRead(Head(major, n, BigEndian(field)), p + 1 + n))
  }

  /** The position after the item at `p`, itself `depth` levels down. */
  function SkipAt(data: Bytes, p: nat, depth: nat): (r: Option<nat>)
    ensures r.Some? ==> p < r.value <= |data|
    decreases |data| - p, 0, 0
  {
    if depth > MAX_DEPTH then None
    else
      var hr := HeadAt(data, p);
      if hr.None? then None
      else
        var HeadRead(h, q) := hr.value;
        if h.major == 0 || h.major == 1 || h.major == 7 then Some(q)
        else if h.major == 2 || h.major == 3 then (if |data| - q < h.arg then None else Some(q + h.arg))
        else SkipMany(data, q, if h.major == 4 then h.arg else if h.major == 5 then 2 * h.arg else 1, depth + 1)
  }

  /** The position after `count` items from `p`. */
  function SkipMany(data: Bytes, p: nat, count: nat, depth: nat): (r: Option<nat>)
    requires p <= |data|
    ensures r.Some? ==> p <= r.value <= |data|
    decreases |data| - p, 1, count
  {
    if count == 0 then Some(p)
    else
      var q := SkipAt(data, p, depth);
      if q.None? then None else SkipMany(data, q.value, count - 1, depth)
  }

  lemma {:induction false} SkipManyConcat(data: Bytes, p: nat, a: nat, b: nat, depth: nat)
    requires p <= |data|
    ensures SkipMany(data, p, a + b, depth) ==
            var q := SkipMany(data, p, a, depth); if q.None? then None else SkipMany(data, q.value, b, depth)
    decreases a
  {
    if a > 0 {
      var q := SkipAt(data, p, depth);
      if q.Some? {
        SkipManyConcat(data, q.value, a - 1, b, depth);
      }
    }
  }

  lemma SkipOne(data: Bytes, p: nat, depth: nat)
    requires p <= |data|
    ensures SkipMany(data, p, 1, depth) == SkipAt(data, p, depth)
  {
    var q := SkipAt(data, p, depth);
    assert q.Some? ==> SkipMany(data, q.value, 0, depth) == q;
  }

  // ----- the reader itself

  /** A reader's place in its input. */
  class Cursor {
    const data: Bytes
    var p: nat

    ghost predicate Valid()
      reads this
    {
      p <= |data|
    }

    constructor (data: Bytes, p: nat)
      requires p <= |data|
      ensures this.data == data && this.p == p && Valid()
    {
      this.data, this.p := data, p;
    }

    method Read() returns (r: Option<Head>)
      requires Valid()
      modifies this
      ensures Valid()
      ensures r == if HeadAt(data, old(p)).None? then None else Some(HeadAt(data, old(p)).value.h)
      ensures r.Some? ==> p == HeadAt(data, old(p)).value.next
    {
      if p >= |data| {
        return None;
      }
      var b := data[p];
      ghost var start := p;
      p := p + 1;
      var major, ai := b / 32, b % 32;
      if ai < 24 {
        return Some(Head(major, 0, ai));
      }
      if ai > 27 {
        return None;
      }
      var n := if ai == 24 then 1 else if ai == 25 then 2 else if ai == 26 then 4 else 8;
      if |data| - p < n {
        return None;
      }
      var v: nat := 0;
      for i := 0 to n
        invariant p == start + 1 + i && v == BigEndian(data[start + 1..start + 1 + i])
      {
        assert data[start + 1..start + 2 + i][..i] == data[start + 1..start + 1 + i];
        v := v * 256 + data[p];
        p := p + 1;
      }
      return Some(Head(major, n, v));
    }

    /** Skip one whole item. */
    method Skip(depth: nat) returns (ok: bool)
      requires Valid()
      modifies this
      ensures Valid()
      ensures ok <==> SkipAt(data, old(p), depth).Some?
      ensures ok ==> p == SkipAt(data, old(p), depth).value
      decreases |data| - p, 0
    {
      if depth > MAX_DEPTH {
        return false;
      }
      var start := p;
      var h := Read();
      if h.None? {
        return false;
      }
      match h.value.major {
        case 0 => return true;
        case 1 => return true;
        case 7 => return true;
        case 4 => ok := SkipArray(h.value.arg, depth + 1);
        case 5 => ok := SkipMap(h.value.arg, depth + 1);
        case 6 =>
          ok := Skip(depth + 1);
          OneMore(data, start, depth);
        case _ =>
          if |data| - p < h.value.arg {
            return false;
          }
          p := p + h.value.arg;
          ok := true;
      }
    }

    /** The members of an array. */
    method SkipArray(count: nat, depth: nat) returns (ok: bool)
      requires Valid()
      modifies this
      ensures Valid()
      ensures ok <==> SkipMany(data, old(p), count, depth).Some?
      ensures ok ==> p == SkipMany(data, old(p), count, depth).value
      decreases |data| - p, 2
    {
      var i := 0;
      while i < count
        invariant Valid() && p >= old(p) && 0 <= i <= count && SkipMany(data, old(p), i, depth) == Some(p)
        decreases count - i
      {
        hide SkipAt, SkipMany;
        SkipManyConcat(data, old(p), i, 1, depth);
        SkipOne(data, p, depth);
        ok := Skip(depth);
        if !ok {
          SkipManyConcat(data, old(p), i + 1, count - i - 1, depth);
          return;
        }
        i := i + 1;
      }
      ok := true;
    }

    /** The keys and values of a map. */
    method SkipMap(count: nat, depth: nat) returns (ok: bool)
      requires Valid()
      modifies this
      ensures Valid()
      ensures ok <==> SkipMany(data, old(p), 2 * count, depth).Some?
      ensures ok ==> p == SkipMany(data, old(p), 2 * count, depth).value
      decreases |data| - p, 2
    {
      var i := 0;
      while i < count
        invariant Valid() && p >= old(p) && 0 <= i <= count && SkipMany(data, old(p), 2 * i, depth) == Some(p)
        decreases count - i
      {
        hide SkipAt, SkipMany;
        ok := SkipPair(old(p), 2 * i, 2 * count, depth);
        if !ok {
          return;
        }
        i := i + 1;
      }
      ok := true;
    }

    /** A key and its value, after `done` of the `total` items from `q`. */
    method SkipPair(ghost q: nat, ghost done: nat, ghost total: nat, depth: nat) returns (ok: bool)
      requires Valid() && q <= p && done + 2 <= total && SkipMany(data, q, done, depth) == Some(p)
      modifies this
      ensures Valid() && (ok ==> SkipMany(data, q, done + 2, depth) == Some(p) && p > old(p))
      ensures !ok ==> SkipMany(data, q, total, depth).None?
      decreases |data| - p, 1
    {
      hide SkipAt, SkipMany;
      SkipManyConcat(data, q, done, 1, depth);
      SkipOne(data, p, depth);
      ok := Skip(depth);
      if !ok {
        SkipManyConcat(data, q, done + 1, total - done - 1, depth);
        return;
      }
      SkipManyConcat(data, q, done + 1, 1, depth);
      SkipOne(data, p, depth);
      ok := Skip(depth);
      if !ok {
        SkipManyConcat(data, q, done + 2, total - done - 2, depth);
      }
    }
  }

  lemma OneMore(data: Bytes, p: nat, depth: nat)
    requires depth <= MAX_DEPTH && HeadAt(data, p).Some? && HeadAt(data, p).value.h.major == 6
    ensures SkipAt(data, p, depth) == SkipAt(data, HeadAt(data, p).value.next, depth + 1)
  {
    SkipOne(data, HeadAt(data, p).value.next, depth + 1);
  }

  // ----- the reader against the format

  lemma HeadReads(h: Head, data: Bytes, p: nat)
    requires HeadOk(h) && Begins(data, p, HeadBytes(h))
    ensures HeadAt(data, p) == Some(HeadRead(h, p + 1 + h.width))
  {
    hide Digits, BigEndian, Pow256, Begins;
    var ib, field := 32 * h.major + AdditionalInfo(h), Digits(h.arg, h.width);
    BeginsSplit(data, p, [ib], field);
    BeginsAt(data, p, [ib]);
    BeginsAt(data, p + 1, field);
    assert data[p] == data[p..p + 1][0] == ib;
    DigitsBack0(h);
  }

  lemma DigitsBack0(h: Head)
    requires HeadOk(h)
    ensures h.width > 0 ==> BigEndian(Digits(h.arg, h.width)) == h.arg
  {
    if h.width > 0 {
      DigitsBack(h.arg, h.width);
    }
  }

  lemma HeadIsBytes(data: Bytes, p: nat)
    requires HeadAt(data, p).Some?
    ensures var HeadRead(h, q) := HeadAt(data, p).value; HeadBytes(h) == data[p..q]
  {
    var HeadRead(h, q) := HeadAt(data, p).value;
    var field := data[p + 1..q];
    assert Digits(h.arg, h.width) == field by {
      if h.width > 0 {
        BigEndianDigits(field);
      }
    }
    hide Digits, BigEndian, Pow256;
    assert 32 * h.major + AdditionalInfo(h) == data[p];
    assert data[p..q] == [data[p]] + field;
  }

  /** Every item is skipped whole, unless it is nested too deep, and then it is refused. */
  lemma {:induction false} SkipsItem(i: Item, data: Bytes, p: nat, depth: nat)
    requires Ok(i) && Begins(data, p, Ser(i))
    ensures SkipAt(data, p, depth) == if depth + Depth(i) <= MAX_DEPTH then Some(p + |Ser(i)|) else None
    decreases i
  {
    hide HeadAt, HeadBytes, Begins, SkipMany, SerAll, DepthAll;
    var q := p + 1 + i.h.width;
    match i {
      case Plain(h) =>
        BeginsSplit(data, p, HeadBytes(h), []);
        HeadReads(h, data, p);
      case Text(h, bytes) =>
        BeginsSplit(data, p, HeadBytes(h), bytes);
        HeadReads(h, data, p);
      case Group(h, items) =>
        BeginsSplit(data, p, HeadBytes(h), SerAll(items));
        HeadReads(h, data, p);
        SkipsItems(items, data, q, depth + 1);
        if items.Nil? {
          NoItems(data, q, depth + 1);
        }
    }
  }

  lemma NoItems(data: Bytes, p: nat, depth: nat)
    requires p <= |data|
    ensures SkipMany(data, p, 0, depth) == Some(p) && SerAll(Nil) == []
  {
  }

  lemma {:induction false} SkipsItems(l: Items, data: Bytes, p: nat, depth: nat)
    requires AllOk(l) && Begins(data, p, SerAll(l))
    ensures p + |SerAll(l)| <= |data|
    ensures SkipMany(data, p, Count(l), depth) ==
            if l.Nil? || depth + DepthAll(l) <= MAX_DEPTH then Some(p + |SerAll(l)|) else None
    decreases l
  {
    hide Begins, SkipAt, Ser, Depth, Ok;
    if l.Cons? {
      BeginsSplit(data, p, Ser(l.first), SerAll(l.rest));
      SkipsItem(l.first, data, p, depth);
      SkipsItems(l.rest, data, p + |Ser(l.first)|, depth);
    } else {
      BeginsAt(data, p, []);
    }
  }

  /** And whatever is skipped is one item, no deeper than allowed. */
  lemma {:induction false} SkippedIsItem(data: Bytes, p: nat, depth: nat) returns (i: Item)
    requires SkipAt(data, p, depth).Some?
    ensures Ok(i) && depth + Depth(i) <= MAX_DEPTH && Ser(i) == data[p..SkipAt(data, p, depth).value]
    decreases |data| - p, 0, 0
  {
    var HeadRead(h, q) := HeadAt(data, p).value;
    var end := SkipAt(data, p, depth).value;
    HeadIsBytes(data, p);
    assert data[p..end] == data[p..q] + data[q..end];
    if h.major == 0 || h.major == 1 || h.major == 7 {
      i := Plain(h);
    } else if h.major == 2 || h.major == 3 {
      i := Text(h, data[q..end]);
    } else {
      hide HeadAt, HeadBytes;
      var items := SkippedAreItems(data, q, if h.major == 4 then h.arg else if h.major == 5 then 2 * h.arg else 1, depth + 1);
      i := Group(h, items);
    }
  }

  lemma {:induction false} SkippedAreItems(data: Bytes, p: nat, count: nat, depth: nat) returns (l: Items)
    requires p <= |data| && SkipMany(data, p, count, depth).Some?
    ensures Count(l) == count && AllOk(l) && SerAll(l) == data[p..SkipMany(data, p, count, depth).value]
    ensures l.Nil? || depth + DepthAll(l) <= MAX_DEPTH
    decreases |data| - p, 1, count
  {
    hide SkipAt, Ser, Depth, Ok;
    if count == 0 {
      l := Nil;
    } else {
      var q := SkipAt(data, p, depth).value;
      var end := SkipMany(data, p, count, depth).value;
      var first := SkippedIsItem(data, p, depth);
      var rest := SkippedAreItems(data, q, count - 1, depth);
      l := Cons(first, rest);
      assert data[p..end] == data[p..q] + data[q..end];
    }
  }

  /** So skipping succeeds exactly on items nested at most eight deep, and takes exactly the item. */
  lemma SkipIsExact(data: Bytes, p: nat, q: nat)
    requires p <= q <= |data|
    ensures SkipAt(data, p, 0) == Some(q) <==> exists i :: Ok(i) && Depth(i) <= MAX_DEPTH && Ser(i) == data[p..q]
  {
    hide SkipAt, Ser, Depth;
    if SkipAt(data, p, 0) == Some(q) {
      var i := SkippedIsItem(data, p, 0);
    }
    forall i | Ok(i) && Depth(i) <= MAX_DEPTH && Ser(i) == data[p..q] ensures SkipAt(data, p, 0) == Some(q) {
      SkipsItem(i, data, p, 0);
    }
  }

  // ----- a map's value for a key

  datatype Wanted = TextKey(name: Bytes) | IntKey(number: int)
  datatype Got = Found(at: nat) | Missing | Malformed

  /** The string of type `want` at `p`, if that is what is there. */
  function StringAt(data: Bytes, p: nat, want: nat): (r: Option<Bytes>) {
    var hr := HeadAt(data, p);
    if hr.None? || hr.value.h.major != want || |data| - hr.value.next < hr.value.h.arg then None
    else Some(data[hr.value.next..hr.value.next + hr.value.h.arg])
  }

  /** The integer at `p`, if it is one and fits in 64 bits with its sign. */
  function IntAt(data: Bytes, p: nat): (r: Option<int>)
    ensures r.Some? ==> -INT64_MAX - 1 <= r.value <= INT64_MAX
  {
    var hr := HeadAt(data, p);
    if hr.None? || hr.value.h.arg > INT64_MAX then None
    else if hr.value.h.major == 0 then Some(hr.value.h.arg)
    else if hr.value.h.major == 1 then Some(-1 - hr.value.h.arg)
    else None
  }

  predicate Hit(data: Bytes, p: nat, key: Wanted) {
    match key
    case TextKey(name) => StringAt(data, p, 3) == Some(name)
    case IntKey(number) => IntAt(data, p) == Some(number)
  }

  function EntriesAt(data: Bytes, p: nat, n: nat, key: Wanted): (r: Got)
    requires p <= |data|
    decreases n
  {
    if n == 0 then Missing
    else
      var k := SkipAt(data, p, 0);
      if k.None? then Malformed
      else if Hit(data, p, key) then Found(k.value)
      else
        var v := SkipAt(data, k.value, 0);
        if v.None? then Malformed else EntriesAt(data, v.value, n - 1, key)
  }

  function MapGetAt(data: Bytes, p: nat, key: Wanted): (r: Got) {
    var hr := HeadAt(data, p);
    if hr.None? || hr.value.h.major != 5 then Malformed else EntriesAt(data, hr.value.next, hr.value.h.arg, key)
  }

  /** In the map at `p`, the place of the value for `key`. */
  method MapGet(data: Bytes, p: nat, key: Wanted) returns (r: Got)
    requires p <= |data|
    ensures r == MapGetAt(data, p, key)
  {
    hide HeadAt, SkipAt, Hit;
    var c := new Cursor(data, p);
    var h := c.Read();
    if h.None? || h.value.major != 5 {
      return Malformed;
    }
    var at: nat, i := c.p, 0;
    while i < h.value.arg
      invariant at <= |data| && 0 <= i <= h.value.arg
      invariant EntriesAt(data, at, h.value.arg - i, key) == MapGetAt(data, p, key)
      decreases h.value.arg - i
    {
      var k := new Cursor(data, at);
      var hit := Hit(data, at, key);
      var ok := k.Skip(0);
      if !ok {
        return Malformed;
      }
      if hit {
        return Found(k.p);
      }
      ok := k.Skip(0);
      if !ok {
        return Malformed;
      }
      at := k.p;
      i := i + 1;
    }
    return Missing;
  }

  /** What a key of the format must be to be the one wanted. */
  predicate IsKey(i: Item, key: Wanted) {
    match key
    case TextKey(name) => i.Text? && i.h.major == 3 && i.bytes == name
    case IntKey(number) =>
      i.Plain? && i.h.arg <= INT64_MAX && ((i.h.major == 0 && number == i.h.arg) || (i.h.major == 1 && number == -1 - i.h.arg))
  }

  lemma HitIsKey(i: Item, data: Bytes, p: nat, key: Wanted)
    requires Ok(i) && Begins(data, p, Ser(i))
    ensures Hit(data, p, key) <==> IsKey(i, key)
  {
    hide HeadAt, HeadBytes, Begins, SerAll;
    var q := p + 1 + i.h.width;
    match i {
      case Plain(h) =>
        BeginsSplit(data, p, HeadBytes(h), []);
      case Text(h, bytes) =>
        BeginsSplit(data, p, HeadBytes(h), bytes);
        BeginsAt(data, q, bytes);
      case Group(h, items) =>
        BeginsSplit(data, p, HeadBytes(h), SerAll(items));
    }
    HeadReads(i.h, data, p);
  }

  datatype Lookup = Absent | TooDeep | Value(item: Item)

  /** The value of the first key that is the one wanted, unless something too deep to skip comes before it. */
  function FirstValue(l: Items, key: Wanted): (r: Lookup) {
    if l.Nil? || l.rest.Nil? then Absent
    else if IsKey(l.first, key) then Value(l.rest.first)
    else if Depth(l.first) > MAX_DEPTH || Depth(l.rest.first) > MAX_DEPTH then TooDeep
    else FirstValue(l.rest.rest, key)
  }

  lemma {:induction false} EntriesFind(l: Items, data: Bytes, p: nat, n: nat, key: Wanted)
    requires AllOk(l) && Count(l) == 2 * n && Begins(data, p, SerAll(l))
    ensures p <= |data|
    ensures match FirstValue(l, key)
            case Absent => EntriesAt(data, p, n, key) == Missing
            case TooDeep => EntriesAt(data, p, n, key) == Malformed
            case Value(v) => EntriesAt(data, p, n, key).Found? && Ok(v) && Begins(data, EntriesAt(data, p, n, key).at, Ser(v))
    decreases l
  {
    hide Ser, Begins, SkipAt, Hit, IsKey, Ok, Depth;
    BeginsAt(data, p, SerAll(l));
    if n > 0 {
      var k, v := l.first, l.rest.first;
      BeginsSplit(data, p, Ser(k), SerAll(l.rest));
      BeginsSplit(data, p + |Ser(k)|, Ser(v), SerAll(l.rest.rest));
      SkipsItem(k, data, p, 0);
      SkipsItem(v, data, p + |Ser(k)|, 0);
      HitIsKey(k, data, p, key);
      if IsKey(k, key) {
        KeyIsFlat(k, key);
      }
      EntriesFind(l.rest.rest, data, p + |Ser(k)| + |Ser(v)|, n - 1, key);
    }
  }

  lemma KeyIsFlat(i: Item, key: Wanted)
    requires IsKey(i, key)
    ensures Depth(i) == 0
  {
  }

  /**
    On every map, the lookup lands on the value of the first key equal to the one
    wanted, or says there is none, or gives up on a member too deep to skip before it.
   */
  lemma MapGetFindsFirst(i: Item, data: Bytes, p: nat, key: Wanted)
    requires Ok(i) && i.Group? && i.h.major == 5 && Begins(data, p, Ser(i))
    ensures match FirstValue(i.items, key)
            case Absent => MapGetAt(data, p, key) == Missing
            case TooDeep => MapGetAt(data, p, key) == Malformed
            case Value(v) => MapGetAt(data, p, key).Found? && Ok(v) && Begins(data, MapGetAt(data, p, key).at, Ser(v))
  {
    hide HeadAt, HeadBytes, Begins, EntriesAt, FirstValue, SerAll, AllOk;
    BeginsSplit(data, p, HeadBytes(i.h), SerAll(i.items));
    HeadReads(i.h, data, p);
    EntriesFind(i.items, data, p + 1 + i.h.width, i.h.arg, key);
  }
}
