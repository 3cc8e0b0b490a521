/** The device-code table in place, and what holds over every run of it. */
module Devices {
  import opened Basics
  import opened DeviceCodes
  import Base64Url

  /** What a poll hears: still pending, asked too soon, no such request, refused, or the token. */
  datatype Poll = Waiting(interval: nat) | Slow(interval: nat) | Gone | Refused | Token(token: Bytes)

  datatype Begun = Started(device: Bytes, user: Bytes) | Failed | TooMany

  datatype Info = Info(user: Bytes, challenge: Bytes, addr: Bytes, created: nat)

  /** What a poll does to the requests that have not expired. */
  function Polled(m: Requests, h: Option<Hash>, now: nat): (r: (Requests, Poll))
    requires Codes(m)
  {
    if h.None? || h.value !in m then (m, Gone)
    else
      var e := m[h.value];
      if e.st.Denied? then (m - {h.value}, Refused)
      else if e.st.Approved? then (m - {h.value}, Token(e.token.value))
      else
        var e' := PolledEntry(e, now);
        (m[h.value := e'], if TooSoon(e, now) then Slow(e'.interval) else Waiting(e'.interval))
  }

  function Verdict(e: Entry, token: Option<Bytes>): (r: Entry) {
    e.(st := if token.Some? then Approved else Denied, token := token)
  }

  ghost predicate PendingAs(m: Requests, h: Hash, user: Bytes) {
    h in m && m[h].st.Pending? && m[h].user == user
  }

  function Answered(m: Requests, h: Hash, token: Option<Bytes>): (r: Requests)
    requires h in m
  {
    m[h := Verdict(m[h], token)]
  }

  ghost predicate Shown(m: Requests, h: Hash, user: Bytes, info: Info) {
    PendingAs(m, h, user) && info == Info(user, m[h].challenge, m[h].addr, m[h].created)
  }

  /** The first drawn code no live request has, if the generator does not fail before it. */
  ghost function Picked(m: Requests, draws: seq<Option<Draw>>): (code: Option<Bytes>)
    ensures code.Some? ==> Unnamed(m, code.value)
  {
    if draws == [] || draws[0].None? then None
    else if Unnamed(m, Spelled(draws[0].value)) then Some(Spelled(draws[0].value))
    else Picked(m, draws[1..])
  }

  lemma NamedIs(m: Requests, h: Hash, user: Bytes)
    requires Names(m, h, user)
    ensures !Unnamed(m, user)
  {
  }

  /** The digest a request is filed under: of the secret as the client will send it. */
  function DigestOf(digest: Bytes -> Option<Hash>, secret: Option<Bytes>): (h: Option<Hash>) {
    if secret.None? then None else digest(Base64Url.Encoded(secret.value))
  }

  function Fresh(h: Hash, user: Bytes, challenge: Bytes, source: Option<Bytes>, addr: Option<Bytes>,
                 now: nat, ttl: nat, interval: nat): (e: Entry)
  {
    Entry(Pending, h, user, challenge, Kept(source), Kept(addr), now, (now + ttl) % UINT64, 0, interval, None)
  }

  class Table {
    const digest: Bytes -> Option<Hash>
    const ttl: nat
    const interval: nat
    const entries: array<Entry>
    ghost var at: map<Hash, nat>
    ghost var requests: Requests
    ghost var issued: set<Hash>

    ghost predicate Valid()
      reads this, entries
    {
      && entries.Length == DEVICE_MAX
      && Indexed(entries[..], at, requests)
      && Codes(requests)
      && requests.Keys <= issued
    }

    constructor (digest: Bytes -> Option<Hash>, ttl: nat, interval: nat)
      ensures Valid() && requests == map[] && issued == {} && fresh(entries) && Fair(entries[..])
      ensures this.digest == digest
      ensures this.ttl == if ttl == 0 then TTL_MS else ttl
      ensures this.interval == if interval == 0 then INTERVAL_S else interval
    {
      this.digest := digest;
      this.ttl := if ttl == 0 then TTL_MS else ttl;
      this.interval := if interval == 0 then INTERVAL_S else interval;
      entries := new Entry[DEVICE_MAX](i => BLANK);
      at, requests, issued := map[], map[], {};
      new;
      FairEmpty(entries[..]);
    }

    method Expire(now: nat)
      modifies entries
      ensures entries[..] == SweptTable(old(entries[..]), now)
    {
      ghost var was := entries[..];
      var i := 0;
      while i < entries.Length
        invariant i <= entries.Length
        invariant forall j :: 0 <= j < i ==> entries[j] == SweptTable(was, now)[j]
        invariant forall j :: i <= j < entries.Length ==> entries[j] == was[j]
      {
        if !entries[i].st.Free? && now >= entries[i].expires {
          entries[i] := BLANK;
        }
        i := i + 1;
      }
    }

    /** Expired requests are gone, whatever their state. */
    method Sweep(now: nat)
      requires Valid()
      modifies this, entries
      ensures Valid() && issued == old(issued)
      ensures entries[..] == SweptTable(old(entries[..]), now)
      ensures requests == Swept(old(requests), now)
      ensures old(Fair(entries[..])) ==> Fair(entries[..])
    {
      hide Indexed, Codes, Fair, SweptTable;
      ghost var was := entries[..];
      Expire(now);
      SweepKeeps(was, at, requests, now);
      if Fair(was) {
        FairSwept(was, now);
      }
      at, requests := SweptAt(at, requests, now), Swept(requests, now);
    }

    method ByUser(code: Bytes) returns (r: Option<nat>)
      requires Valid()
      ensures r.None? ==> Unnamed(requests, code)
      ensures r.Some? ==>
                && r.value < entries.Length && Names(requests, entries[r.value].secret, code)
                && at[entries[r.value].secret] == r.value
    {
      hide Codes;
      var i := 0;
      while i < entries.Length
        invariant i <= entries.Length
        invariant forall j :: 0 <= j < i ==> entries[..][j].st.Free? || entries[..][j].user != code
      {
        assert entries[..][i] == entries[i];
        if !entries[i].st.Free? && entries[i].user == code {
          return Some(i);
        }
        i := i + 1;
      }
      return None;
    }

    method BySecret(h: Hash) returns (r: Option<nat>)
      requires Valid()
      ensures r.Some? <==> h in requests
      ensures r.Some? ==> r.value < entries.Length && at[h] == r.value && entries[r.value] == requests[h]
    {
      hide Codes;
      var i := 0;
      while i < entries.Length
        invariant i <= entries.Length
        invariant forall j :: 0 <= j < i ==> entries[..][j].st.Free? || entries[..][j].secret != h
      {
        assert entries[..][i] == entries[i];
        if !entries[i].st.Free? && entries[i].secret == h {
          return Some(i);
        }
        i := i + 1;
      }
      return None;
    }

    /** Puts the changed entry of a live request back. */
    method Change(i: nat, h: Hash, e: Entry)
      requires Valid() && h in requests && h in at && at[h] == i < entries.Length
      requires !e.st.Free? && e.secret == h && e.user == requests[h].user && e.source == requests[h].source
      requires e.st.Approved? <==> e.token.Some?
      modifies this, entries
      ensures Valid() && issued == old(issued) && requests == old(requests)[h := e]
      ensures old(Fair(entries[..])) ==> Fair(entries[..])
    {
      hide Indexed, Codes, Fair;
      ghost var was := entries[..];
      LiveEntry(was, at, requests, h);
      ChangeIndexed(was, at, requests, h, e);
      ChangeCodes(requests, h, e);
      if Fair(was) {
        FairChange(was, i, e);
      }
      entries[i] := e;
      assert entries[..] == was[i := e];
      requests := requests[h := e];
    }

    method Clear(i: nat, h: Hash)
      requires Valid() && h in requests && h in at && at[h] == i < entries.Length
      modifies this, entries
      ensures Valid() && issued == old(issued) && requests == old(requests) - {h}
      ensures old(Fair(entries[..])) ==> Fair(entries[..])
    {
      hide Indexed, Codes, Fair;
      ghost var was := entries[..];
      LiveEntry(was, at, requests, h);
      RemoveKeeps(was, at, requests, h);
      if Fair(was) {
        FairChange(was, i, BLANK);
      }
      entries[i] := BLANK;
      assert entries[..] == was[i := BLANK];
      at, requests := at - {h}, requests - {h};
    }

    /** A poll by the client's secret: a verdict is heard once, and the request is then gone. */
    method PollFor(code: Option<Bytes>, now: nat) returns (r: Poll)
      requires Valid()
      modifies this, entries
      ensures Valid() && issued == old(issued)
      ensures Codes(Swept(old(requests), now))
      ensures (requests, r) ==
              Polled(Swept(old(requests), now), if code.None? then None else digest(code.value), now)
      ensures old(Fair(entries[..])) ==> Fair(entries[..])
    {
      hide Indexed, Fair;
      Sweep(now);
      if code.None? {
        return Gone;
      }
      var h := digest(code.value);
      if h.None? {
        return Gone;
      }
      var found := BySecret(h.value);
      if found.None? {
        return Gone;
      }
      var i := found.value;
      var e := entries[i];
      LiveEntry(entries[..], at, requests, h.value);
      if e.st.Denied? {
        Clear(i, h.value);
        r := Refused;
      } else if e.st.Approved? {
        r := Token(e.token.value);
        Clear(i, h.value);
      } else {
        var polled := PolledEntry(e, now);
        Change(i, h.value, polled);
        r := if TooSoon(e, now) then Slow(polled.interval) else Waiting(polled.interval);
      }
    }

    /** What the page shows for a code a person typed, if it is pending. */
    method Find(typed: Bytes, now: nat) returns (r: Option<Info>)
      requires Valid()
      modifies this, entries
      ensures Valid() && issued == old(issued) && requests == Swept(old(requests), now)
      ensures r.None? ==> forall h :: h in requests && requests[h].st.Pending? && IsCode(Letters(typed)) ==>
                requests[h].user != Dashed(Letters(typed))
      ensures r.Some? ==> IsCode(Letters(typed)) && exists h :: Shown(requests, h, Dashed(Letters(typed)), r.value)
      ensures old(Fair(entries[..])) ==> Fair(entries[..])
    {
      hide Indexed, Fair, IsCode, Letters;
      Sweep(now);
      var code := Normalise(typed);
      if code.None? {
        return None;
      }
      var found := ByUser(code.value);
      if found.None? {
        return None;
      }
      var e := entries[found.value];
      LiveEntry(entries[..], at, requests, e.secret);
      if !e.st.Pending? {
        return None;
      }
      assert Shown(requests, e.secret, code.value, Info(e.user, e.challenge, e.addr, e.created));
      return Some(Info(e.user, e.challenge, e.addr, e.created));
    }

    /** The page's approval: exactly the pending request of that code is given the token. */
    method Approve(user: Option<Bytes>, token: Option<Bytes>, now: nat) returns (ok: bool)
      requires Valid()
      modifies this, entries
      ensures Valid() && issued == old(issued)
      ensures !ok ==> requests == Swept(old(requests), now)
      ensures ok ==> user.Some? && token.Some? && exists h ::
                && PendingAs(Swept(old(requests), now), h, user.value)
                && requests == Answered(Swept(old(requests), now), h, token)
      ensures user.Some? && token.Some? && !ok ==> forall h :: !PendingAs(requests, h, user.value)
      ensures old(Fair(entries[..])) ==> Fair(entries[..])
    {
      ok := Answer(user, token, now, token.Some?);
    }

    method Deny(user: Option<Bytes>, now: nat) returns (ok: bool)
      requires Valid()
      modifies this, entries
      ensures Valid() && issued == old(issued)
      ensures !ok ==> requests == Swept(old(requests), now)
      ensures ok ==> user.Some? && exists h ::
                && PendingAs(Swept(old(requests), now), h, user.value)
                && requests == Answered(Swept(old(requests), now), h, None)
      ensures user.Some? && !ok ==> forall h :: !PendingAs(requests, h, user.value)
      ensures old(Fair(entries[..])) ==> Fair(entries[..])
    {
      ok := Answer(user, None, now, true);
    }

    /** Approval with a token, denial without one. */
    method Answer(user: Option<Bytes>, token: Option<Bytes>, now: nat, given: bool) returns (ok: bool)
      requires Valid()
      modifies this, entries
      ensures Valid() && issued == old(issued)
      ensures !ok ==> requests == Swept(old(requests), now)
      ensures ok ==> user.Some? && given && exists h ::
                && PendingAs(Swept(old(requests), now), h, user.value)
                && requests == Answered(Swept(old(requests), now), h, token)
      ensures user.Some? && given && !ok ==> forall h :: !PendingAs(requests, h, user.value)
      ensures old(Fair(entries[..])) ==> Fair(entries[..])
    {
      hide Indexed, Fair;
      Sweep(now);
      if user.None? {
        return false;
      }
      var found := ByUser(user.value);
      if found.None? {
        return false;
      }
      var e := entries[found.value];
      LiveEntry(entries[..], at, requests, e.secret);
      if !e.st.Pending? || !given {
        return false;
      }
      assert PendingAs(requests, e.secret, user.value);
      Change(found.value, e.secret, Verdict(e, token));
      return true;
    }

    /** The first free slot, and how many requests the source holds. */
    method Survey(source: Bytes) returns (slot: Option<nat>, n: nat)
      ensures n == Held(entries[..], source)
      ensures slot.Some? <==> HasRoom(entries[..])
      ensures slot.Some? ==> slot.value < entries.Length && entries[slot.value].st.Free?
    {
      slot, n := None, 0;
      var i := 0;
      while i < entries.Length
        invariant i <= entries.Length && n == Held(entries[..i], source)
        invariant slot.Some? ==> slot.value < entries.Length && entries[slot.value].st.Free?
        invariant slot.None? ==> forall j :: 0 <= j < i ==> !entries[..][j].st.Free?
      {
        assert entries[..i + 1][..i] == entries[..i] && entries[..][i] == entries[i];
        if entries[i].st.Free? {
          if slot.None? {
            slot := Some(i);
          }
        } else if entries[i].source == source {
          n := n + 1;
        }
        i := i + 1;
      }
      assert entries[..i] == entries[..];
      assert slot.Some? ==> entries[..][slot.value].st.Free?;
    }

    /** At most eight tries at a code no live request has. */
    method Pick(draws: seq<Option<Draw>>) returns (code: Option<Bytes>)
      requires Valid() && |draws| == 8
      ensures code == Picked(requests, draws)
    {
      hide Indexed, Codes, Unnamed, Spelled;
      var tries := 0;
      while true
        invariant tries <= 8 && Picked(requests, draws) == Picked(requests, draws[tries..])
        decreases 8 - tries
      {
        if tries == 8 || draws[tries].None? {
          return None;
        }
        var user := Spelled(draws[tries].value);
        var found := ByUser(user);
        if found.None? {
          return Some(user);
        }
        NamedIs(requests, entries[found.value].secret, user);
        assert draws[tries..][1..] == draws[tries + 1..];
        tries := tries + 1;
      }
    }

    /** A new request, under a secret never issued before. */
    method Begin(source: Option<Bytes>, addr: Option<Bytes>, challenge: Option<Bytes>, now: nat,
                 draws: seq<Option<Draw>>, secret: Option<Bytes>) returns (r: Begun)
      requires Valid() && |draws| == 8
      requires DigestOf(digest, secret).Some? ==> DigestOf(digest, secret).value !in issued
      modifies this, entries
      ensures Valid()
      ensures r.TooMany? <==> Held(SweptTable(old(entries[..]), now), Named(source)) >= PER_SOURCE
      ensures r.Started? <==>
              && !r.TooMany? && HasRoom(SweptTable(old(entries[..]), now))
              && challenge.Some? && |challenge.value| < 48
              && Picked(Swept(old(requests), now), draws).Some? && DigestOf(digest, secret).Some?
      ensures r.Started? ==>
              && Some(r.user) == Picked(Swept(old(requests), now), draws)
              && r.device == Base64Url.Encoded(secret.value)
              && var h := DigestOf(digest, secret).value;
              && issued == old(issued) + {h}
              && requests == Swept(old(requests), now)
                 [h := Fresh(h, r.user, challenge.value, source, addr, now, ttl, interval)]
      ensures !r.Started? ==> requests == Swept(old(requests), now) && issued == old(issued)
      ensures HeldAfter(SweptTable(old(entries[..]), now), entries[..], if r.Started? then Some(Kept(source)) else None)
      ensures old(Fair(entries[..])) ==>
                (Fair(entries[..]) <==> !r.Started? || Held(SweptTable(old(entries[..]), now), Kept(source)) < PER_SOURCE)
      ensures old(Fair(entries[..])) && |Named(source)| < 46 ==> Fair(entries[..])
    {
      hide Indexed, Codes, Fair, Picked, Spelled, SweptTable, Held, HasRoom, HeldAfter;
      Sweep(now);
      ghost var es := entries[..];
      HeldSame(es);
      var slot, n := Survey(Named(source));
      if n >= PER_SOURCE {
        return TooMany;
      }
      if slot.None? || challenge.None? || |challenge.value| >= 48 {
        return Failed;
      }
      var code := Pick(draws);
      if code.None? || secret.None? {
        return Failed;
      }
      var device := Base64Url.Encode(secret.value);
      var h := digest(device);
      if h.None? {
        return Failed;
      }
      Add(slot.value, Fresh(h.value, code.value, challenge.value, source, addr, now, ttl, interval));
      if Fair(es) {
        FairAfter(es, entries[..], Some(Kept(source)));
      }
      return Started(device, code.value);
    }

    method Add(i: nat, e: Entry)
      requires Valid() && i < entries.Length && entries[i].st.Free? && e.st.Pending? && e.token.None?
      requires e.secret !in issued && Unnamed(requests, e.user) && |e.source| < 46
      modifies this, entries
      ensures Valid() && issued == old(issued) + {e.secret} && requests == old(requests)[e.secret := e]
      ensures HeldAfter(old(entries[..]), entries[..], Some(e.source))
    {
      hide Indexed, Codes, Held, Unnamed, HeldAfter;
      ghost var was := entries[..];
      AddIndexed(was, at, requests, i, e);
      AddCodes(requests, e);
      HeldAdd(was, i, e);
      entries[i] := e;
      assert entries[..] == was[i := e];
      at, requests := at[e.secret := i], requests[e.secret := e];
      issued := issued + {e.secret};
    }
  }
}
