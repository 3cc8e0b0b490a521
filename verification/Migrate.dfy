/**
  The migration runner: every step in a transaction of its own, resumed after a
  crash from the version recorded, and step 64's move of the box's identity
  between two databases whose joint commit is not atomic.
 */
module Migrate {
  import opened Basics

  datatype Table = ServerIdentity | Enrollment | AcmeAccount | TlsCertificate | LocalIssuer | FactorKey

  /** The tables step 64 moves; `factor_key` only ever was the identity's. */
  const MOVED: set<Table> := {ServerIdentity, Enrollment, AcmeAccount, TlsCertificate, LocalIssuer}

  /** A table's one row, or none. */
  type Row = nat
  type Tables = map<Table, Option<Row>>

  /** The data: `schema` is everything but the tables that hold the identity. */
  datatype Main = Main(schema: nat, tables: Tables)

  /** A step: what its SQL makes of the data, None when it fails. */
  datatype Migration = Migration(version: nat, effect: Main -> Option<Main>)

  /** A step's effect on the data; step 64 reads every table it moves and drops them. */
  function Apply(m: Main, g: Migration): (r: Option<Main>) {
    var r := g.effect(m);
    if g.version != 64 || r.None? then r
    else if !(MOVED <= m.tables.Keys) then None
    else Some(r.value.(tables := r.value.tables - MOVED))
  }

  /** The data after the first `p` steps of the set. */
  function Fold(start: Main, steps: seq<Migration>, p: nat): (r: Option<Main>)
    requires p <= |steps|
  {
    if p == 0 then Some(start)
    else
      var before := Fold(start, steps, p - 1);
      if before.None? then None else Apply(before.value, steps[p - 1])
  }

  lemma {:induction false} FoldDefined(start: Main, steps: seq<Migration>, p: nat, q: nat)
    requires p <= q <= |steps| && Fold(start, steps, q).Some?
    ensures Fold(start, steps, p).Some?
  {
    if p < q {
      FoldDefined(start, steps, p, q - 1);
    }
  }

  /** Strictly increasing, from 1. */
  ghost predicate Ascending(steps: seq<Migration>) {
    && (forall i :: 0 <= i < |steps| ==> steps[i].version >= 1)
    && (forall i, j :: 0 <= i < j < |steps| ==> steps[i].version < steps[j].version)
  }

  function Versions(steps: seq<Migration>, p: nat): (v: seq<nat>)
    requires p <= |steps|
    ensures |v| == p && forall i :: 0 <= i < p ==> v[i] == steps[i].version
  {
    seq(p, i requires 0 <= i < p => steps[i].version)
  }

  /** The highest version recorded, 0 for none. */
  method SchemaVersion(recorded: seq<nat>) returns (v: nat)
    ensures forall x :: x in recorded ==> x <= v
    ensures v == 0 || v in recorded
  {
    v := 0;
    for i := 0 to |recorded|
      invariant forall j :: 0 <= j < i ==> recorded[j] <= v
      invariant v == 0 || v in recorded
    {
      if recorded[i] > v {
        v := recorded[i];
      }
    }
  }

  function RowOf(tables: Tables, t: Table): (r: Option<Row>) {
    if t in tables then tables[t] else None
  }

  /** Rows copied only into a table that has none. */
  function Take(ident: Tables, from: Tables): (r: Tables)
    ensures r.Keys == ident.Keys
    ensures forall t :: RowOf(ident, t).Some? ==> RowOf(r, t) == RowOf(ident, t)
    ensures forall t :: t in ident && RowOf(ident, t).None? ==> RowOf(r, t) == if t in MOVED then RowOf(from, t) else None
  {
    map t | t in ident :: if t in MOVED && ident[t].None? then RowOf(from, t) else ident[t]
  }

  /** No row is overwritten or lost, and whatever is taken afterwards finds only tables still empty to fill. */
  lemma TakeTwice(ident: Tables, from: Tables, later: Tables)
    ensures forall t :: RowOf(ident, t).Some? ==> RowOf(Take(ident, from), t) == RowOf(ident, t)
    ensures forall t :: t in ident && t in MOVED && RowOf(from, t).Some? ==> RowOf(Take(ident, from), t).Some?
    ensures Take(Take(ident, from), from) == Take(ident, from)
    ensures forall t :: RowOf(Take(ident, from), t).Some? ==> RowOf(Take(Take(ident, from), later), t) == RowOf(Take(ident, from), t)
  {
    var once := Take(ident, from);
    var twice := Take(once, from);
    forall t | t in ident ensures twice[t] == once[t] {
      assert RowOf(twice, t) == RowOf(once, t);
    }
  }

  /** How many steps come before step 64. */
  function Cut(steps: seq<Migration>): (q: nat)
    ensures q <= |steps| && (forall i :: 0 <= i < q ==> steps[i].version < 64) && (q < |steps| ==> steps[q].version >= 64)
  {
    if steps == [] || steps[0].version >= 64 then 0 else 1 + Cut(steps[1..])
  }

  /** The row an identity table is to end with: the one it had, else the one the data had when step 64 was reached. */
  function Due(start: Main, ident0: Tables, steps: seq<Migration>, t: Table): (r: Option<Row>) {
    var kept := RowOf(ident0, t);
    var data := Fold(start, steps, Cut(steps));
    if kept.Some? || data.None? then kept else RowOf(data.value.tables, t)
  }

  /**
    Where a box that began with data `start` and identity `ident0` can be found,
    however often it crashed: the data is the fold of the first `p` steps, those
    steps are recorded, and each identity table holds the row it began with, or
    the row it is due, and the latter for certain once step 64 is recorded.
   */
  ghost predicate Reached(main: Main, recorded: seq<nat>, ident: Tables, start: Main, ident0: Tables,
                          steps: seq<Migration>, p: nat)
  {
    && p <= |steps| && Fold(start, steps, p) == Some(main) && recorded == Versions(steps, p)
    && forall t :: t in MOVED ==> RowReached(ident, start, ident0, steps, p, t)
  }

  ghost predicate RowReached(ident: Tables, start: Main, ident0: Tables, steps: seq<Migration>, p: nat, t: Table)
    requires p <= |steps|
  {
    if p <= Cut(steps) then
      || RowOf(ident, t) == RowOf(ident0, t)
      || (p == Cut(steps) < |steps| && steps[p].version == 64 && RowOf(ident, t) == Due(start, ident0, steps, t))
    else
      || (steps[Cut(steps)].version == 64 && RowOf(ident, t) == Due(start, ident0, steps, t))
      || (steps[Cut(steps)].version != 64 && RowOf(ident, t) == RowOf(ident0, t))
  }

  /** The version a box is at. */
  function VersionAt(steps: seq<Migration>, p: nat): (v: nat)
    requires p <= |steps|
  {
    if p == 0 then 0 else steps[p - 1].version
  }

  lemma Within(main: Main, recorded: seq<nat>, ident: Tables, start: Main, ident0: Tables, steps: seq<Migration>, p: nat)
    requires Reached(main, recorded, ident, start, ident0, steps, p)
    ensures p <= |steps| && Fold(start, steps, p) == Some(main) && recorded == Versions(steps, p)
  {
  }

  lemma Current(main: Main, recorded: seq<nat>, ident: Tables, start: Main, ident0: Tables,
                steps: seq<Migration>, p: nat, v: nat)
    requires Ascending(steps) && Reached(main, recorded, ident, start, ident0, steps, p)
    requires (forall x :: x in recorded ==> x <= v) && (v == 0 || v in recorded)
    ensures v == VersionAt(steps, p)
  {
    if p > 0 {
      assert recorded[p - 1] in recorded;
    }
  }

  datatype Outcome = Done | Failed | Crashed

  /** What is durable of the two databases. */
  class Databases {
    var hasVersions: bool
    var recorded: seq<nat>
    var main: Main
    var ident: Tables

    constructor (main: Main, ident: Tables)
      ensures !hasVersions && recorded == [] && this.main == main && this.ident == ident
    {
      hasVersions, recorded := false, [];
      this.main, this.ident := main, ident;
    }
  }

  const ALL: seq<Table> := [ServerIdentity, Enrollment, AcmeAccount, TlsCertificate, LocalIssuer, FactorKey]

  /** Each identity table made if it is not there, one durable write apiece; `ticks` writes land before the crash. */
  method MakeTables(db: Databases, ticks: nat) returns (rc: Outcome, left: nat)
    modifies db`ident
    ensures forall t :: RowOf(db.ident, t) == RowOf(old(db.ident), t)
    ensures rc == Done ==> forall t: Table :: t in db.ident
    ensures rc != Failed && left <= ticks && (rc == Crashed ==> ticks < 6) && (rc == Done ==> left + 6 >= ticks)
  {
    left := ticks;
    for i := 0 to |ALL|
      invariant forall t :: RowOf(db.ident, t) == RowOf(old(db.ident), t)
      invariant forall j :: 0 <= j < i ==> ALL[j] in db.ident
      invariant left <= ticks <= left + i
    {
      if ALL[i] !in db.ident {
        if left == 0 {
          return Crashed, 0;
        }
        left := left - 1;
        db.ident := db.ident[ALL[i] := None];
      }
    }
    rc := Done;
    forall t: Table ensures t in db.ident {
      match t {
        case ServerIdentity => assert ALL[0] == t;
        case Enrollment => assert ALL[1] == t;
        case AcmeAccount => assert ALL[2] == t;
        case TlsCertificate => assert ALL[3] == t;
        case LocalIssuer => assert ALL[4] == t;
        case FactorKey => assert ALL[5] == t;
      }
    }
  }

  /** The copy made before step 64 and committed on its own. */
  method TakeIdentity(db: Databases, ticks: nat) returns (rc: Outcome, left: nat)
    modifies db`ident
    ensures rc == Failed <==> !(MOVED <= db.main.tables.Keys) && rc != Crashed
    ensures rc == Done ==> forall t :: t in MOVED ==> RowOf(db.ident, t) == Copied(old(db.ident), db.main.tables, t)
    ensures rc != Done ==> forall t :: RowOf(db.ident, t) == RowOf(old(db.ident), t)
    ensures left <= ticks && (rc == Crashed ==> ticks < 7) && (rc == Done ==> left + 7 >= ticks)
  {
    rc, left := MakeTables(db, ticks);
    if rc != Done {
      return;
    }
    if !(MOVED <= db.main.tables.Keys) {
      return Failed, left;
    }
    if left == 0 {
      return Crashed, 0;
    }
    left := left - 1;
    db.ident := Take(db.ident, db.main.tables);
  }

  function Copied(ident: Tables, from: Tables, t: Table): (r: Option<Row>) {
    if RowOf(ident, t).Some? then RowOf(ident, t) else RowOf(from, t)
  }

  /** Copying is harmless to repeat: what step 64 is due is what is already there. */
  lemma TakeReached(main: Main, recorded: seq<nat>, ident: Tables, ident': Tables, start: Main, ident0: Tables,
                    steps: seq<Migration>, p: nat)
    requires Ascending(steps) && Reached(main, recorded, ident, start, ident0, steps, p)
    requires p < |steps| && steps[p].version == 64
    requires forall t :: t in MOVED ==> RowOf(ident', t) == Copied(ident, main.tables, t)
    ensures p == Cut(steps)
    ensures forall t :: t in MOVED ==> RowOf(ident', t) == Due(start, ident0, steps, t)
    ensures Reached(main, recorded, ident', start, ident0, steps, p)
  {
    forall t | t in MOVED ensures RowOf(ident', t) == Due(start, ident0, steps, t) {
      assert RowReached(ident, start, ident0, steps, p, t);
    }
  }

  /** One more step recorded. */
  lemma StepReached(main: Main, recorded: seq<nat>, ident: Tables, start: Main, ident0: Tables,
                    steps: seq<Migration>, p: nat, main': Main)
    requires Ascending(steps) && Reached(main, recorded, ident, start, ident0, steps, p)
    requires p < |steps| && Apply(main, steps[p]) == Some(main')
    requires steps[p].version == 64 ==> forall t :: t in MOVED ==> RowOf(ident, t) == Due(start, ident0, steps, t)
    ensures Reached(main', recorded + [steps[p].version], ident, start, ident0, steps, p + 1)
  {
    assert Versions(steps, p + 1) == Versions(steps, p) + [steps[p].version];
    forall t | t in MOVED ensures RowReached(ident, start, ident0, steps, p + 1, t) {
      assert RowReached(ident, start, ident0, steps, p, t);
    }
  }

  /** Tables made, or a copy that finds nothing to copy, change no row. */
  lemma RowsReached(main: Main, recorded: seq<nat>, ident: Tables, ident': Tables, start: Main, ident0: Tables,
                    steps: seq<Migration>, p: nat)
    requires Reached(main, recorded, ident, start, ident0, steps, p)
    requires forall t :: t in MOVED ==> RowOf(ident', t) == RowOf(ident, t)
    ensures Reached(main, recorded, ident', start, ident0, steps, p)
  {
    forall t | t in MOVED ensures RowReached(ident', start, ident0, steps, p, t) {
      assert RowReached(ident, start, ident0, steps, p, t);
    }
  }

  /** One step, in its transaction: `main` commits first, and for step 64 the identity after it. */
  method Step(db: Databases, steps: seq<Migration>, i: nat, ticks: nat, ghost start: Main, ghost ident0: Tables)
    returns (rc: Outcome, left: nat, ghost p: nat)
    requires Ascending(steps) && i < |steps| && Reached(db.main, db.recorded, db.ident, start, ident0, steps, i)
    modifies db`main, db`recorded, db`ident
    ensures Reached(db.main, db.recorded, db.ident, start, ident0, steps, p)
    ensures p == i + 1 || (p == i && rc != Done)
    ensures rc == Failed ==> p == i && Fold(start, steps, i + 1).None?
    ensures left <= ticks
    ensures rc == Done ==> ticks <= left + if steps[i].version == 64 then 9 else 1
    ensures rc == Crashed ==> ticks < if steps[i].version == 64 then 9 else 1
  {
    hide Reached, Due;
    left, p := ticks, i;
    Within(db.main, db.recorded, db.ident, start, ident0, steps, p);
    if steps[i].version == 64 && ServerIdentity in db.main.tables {
      ghost var before := db.ident;
      rc, left := TakeIdentity(db, left);
      if rc != Done {
        RowsReached(db.main, db.recorded, before, db.ident, start, ident0, steps, p);
        return;
      }
      TakeReached(db.main, db.recorded, before, db.ident, start, ident0, steps, p);
    }
    var next := Apply(db.main, steps[i]);
    if next.None? {
      rc := Failed;
      return;
    }
    if left == 0 {
      rc := Crashed;
      return;
    }
    left := left - 1;
    StepReached(db.main, db.recorded, db.ident, start, ident0, steps, p, next.value);
    var was := db.main;
    db.main, db.recorded := next.value, db.recorded + [steps[i].version];
    p := i + 1;
    if steps[i].version == 64 {
      if left == 0 {
        rc := Crashed;
        return;
      }
      left := left - 1;
      ghost var before := db.ident;
      db.ident := Take(db.ident, was.tables);
      RowsReached(db.main, db.recorded, before, db.ident, start, ident0, steps, p);
    }
    rc := Done;
  }

  /** Enough durable writes for a run not to be cut short. */
  function Enough(steps: seq<Migration>): (n: nat) {
    |steps| + 15
  }

  /**
    One run of the runner, in which `ticks` durable writes land before the box
    goes down. Whatever the box had been through, it is left further on along
    the same way.
   */
  method Run(db: Databases, steps: seq<Migration>, ticks: nat, ghost start: Main, ghost ident0: Tables, ghost p0: nat)
    returns (rc: Outcome, ghost p: nat)
    requires Ascending(steps) && Reached(db.main, db.recorded, db.ident, start, ident0, steps, p0)
    modifies db
    ensures p >= p0 && Reached(db.main, db.recorded, db.ident, start, ident0, steps, p)
    ensures rc == Done ==> p == |steps|
    ensures rc == Failed ==> p < |steps| && Fold(start, steps, p + 1).None?
    ensures rc == Crashed ==> ticks < Enough(steps)
    ensures rc == Done && p > 0 && steps[p - 1].version >= 64 ==> forall t: Table :: t in db.ident
  {
    hide Reached, RowReached, Due, Fold;
    var left: nat := ticks;
    p := p0;
    Within(db.main, db.recorded, db.ident, start, ident0, steps, p);
    if !db.hasVersions {
      if left == 0 {
        return Crashed, p;
      }
      left := left - 1;
      db.hasVersions := true;
    }
    var cur := SchemaVersion(db.recorded);
    Current(db.main, db.recorded, db.ident, start, ident0, steps, p, cur);
    for i := 0 to |steps|
      invariant Reached(db.main, db.recorded, db.ident, start, ident0, steps, p) && p <= |steps|
      invariant p == (if i < p0 then p0 else i) && cur == VersionAt(steps, p)
      invariant left <= ticks <= left + i + 1 + if cur >= 64 then 8 else 0
    {
      if steps[i].version <= cur {
        continue;
      }
      rc, left, p := Step(db, steps, i, left, start, ident0);
      if rc != Done {
        return rc, p;
      }
      cur := steps[i].version;
    }
    if cur >= 64 {
      ghost var before := db.ident;
      rc, left := MakeTables(db, left);
      RowsReached(db.main, db.recorded, before, db.ident, start, ident0, steps, p);
      return rc, p;
    }
    rc := Done;
  }

  /** A run that refuses, before anything is written, a database a newer daemon wrote. */
  method RunDefault(db: Databases, steps: seq<Migration>, ticks: nat, ghost start: Main, ghost ident0: Tables, ghost p0: nat)
    returns (tooNew: bool, rc: Outcome, ghost p: nat)
    requires Ascending(steps) && steps != []
    requires (exists v :: v in db.recorded && v > steps[|steps| - 1].version)
             || Reached(db.main, db.recorded, db.ident, start, ident0, steps, p0)
    modifies db
    ensures tooNew <==> old(exists v :: v in db.recorded && v > steps[|steps| - 1].version)
    ensures tooNew ==> && db.main == old(db.main) && db.recorded == old(db.recorded)
                       && db.ident == old(db.ident) && db.hasVersions == old(db.hasVersions)
    ensures !tooNew ==> p >= p0 && Reached(db.main, db.recorded, db.ident, start, ident0, steps, p)
    ensures !tooNew && rc == Done ==> p == |steps|
  {
    hide Reached;
    var cur := SchemaVersion(db.recorded);
    p := p0;
    if cur > steps[|steps| - 1].version {
      return true, Failed, p;
    }
    tooNew := false;
    rc, p := Run(db, steps, ticks, start, ident0, p0);
  }

  /** Runs one after another, each cut short where the schedule says. */
  method RunAll(db: Databases, steps: seq<Migration>, schedule: seq<nat>, ghost start: Main, ghost ident0: Tables)
    returns (rc: Outcome, ghost p: nat)
    requires Ascending(steps) && Reached(db.main, db.recorded, db.ident, start, ident0, steps, 0)
    requires schedule != []
    modifies db
    ensures Reached(db.main, db.recorded, db.ident, start, ident0, steps, p)
    ensures rc == Done ==> p == |steps|
    ensures rc == Crashed ==> schedule[|schedule| - 1] < Enough(steps)
    ensures rc == Failed ==> p < |steps| && Fold(start, steps, p + 1).None?
  {
    hide Reached;
    p, rc := 0, Crashed;
    for i := 0 to |schedule|
      invariant Reached(db.main, db.recorded, db.ident, start, ident0, steps, p)
      invariant i > 0 && rc == Crashed ==> schedule[i - 1] < Enough(steps)
      invariant rc == Done ==> p == |steps|
      invariant rc == Failed ==> p < |steps| && Fold(start, steps, p + 1).None?
    {
      rc, p := Run(db, steps, schedule[i], start, ident0, p);
    }
  }

  /** Wherever two boxes that began alike are done, they are alike: the data, the record, and every identity row. */
  lemma EndsAlike(main: Main, recorded: seq<nat>, ident: Tables, main': Main, recorded': seq<nat>, ident': Tables,
                  start: Main, ident0: Tables, steps: seq<Migration>)
    requires Ascending(steps)
    requires Reached(main, recorded, ident, start, ident0, steps, |steps|)
    requires Reached(main', recorded', ident', start, ident0, steps, |steps|)
    ensures main == main' && recorded == recorded'
    ensures forall t :: t in MOVED ==> RowOf(ident, t) == RowOf(ident', t)
  {
    forall t | t in MOVED ensures RowOf(ident, t) == RowOf(ident', t) {
      assert RowReached(ident, start, ident0, steps, |steps|, t) && RowReached(ident', start, ident0, steps, |steps|, t);
    }
  }

  /**
    Once step 64 is recorded, and even if the box went down between the two
    commits, the data has none of the moved tables and the identity has, for
    each, the row it had before, or else the row the data had.
   */
  lemma IdentityIsKept(main: Main, recorded: seq<nat>, ident: Tables, start: Main, ident0: Tables,
                       steps: seq<Migration>, p: nat, q: nat, t: Table)
    requires Ascending(steps) && Reached(main, recorded, ident, start, ident0, steps, p)
    requires q < p && steps[q].version == 64 && t in MOVED
    ensures Fold(start, steps, q).Some? && t in Fold(start, steps, q).value.tables
    ensures p == q + 1 ==> t !in main.tables
    ensures RowOf(ident, t) == if RowOf(ident0, t).Some? then RowOf(ident0, t) else RowOf(Fold(start, steps, q).value.tables, t)
  {
    FoldDefined(start, steps, q, p);
    FoldDefined(start, steps, q + 1, p);
    assert RowReached(ident, start, ident0, steps, p, t);
  }
}
