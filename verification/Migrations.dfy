/**
  What the migration manager does to the database: the meaning of its steps, as
  functions and relations on values. A run of the manager meets any sequence of
  failing database calls.
 */
module Migrations {
  import opened Wrappers
  import opened Strings

  datatype Migration = Migration(version: string, description: string, owner: string, up: string, down: string)

  /** A row of the tracking table, keyed by version. */
  datatype Row = Row(owner: string, description: string, dirty: bool)

  datatype Event = Applied(m: Migration) | Reverted(m: Migration)

  /** The database: the tracking table, everything the migrations change, and the commits made. */
  datatype Db<S> = Db(rows: map<string, Row>, schema: S, log: seq<Event>)

  datatype Phase = Begin | Exec | Record | Remove | Commit

  datatype Error =
    | Closed
    | NotInitialized
    | QueryFailed
    | Dirty(versions: seq<string>)
    | Duplicate(version: string)
    | NotRegistered(version: string)
    | NotDirty(version: string)
    | PendingLeft(count: nat)
    | Stopped(phase: Phase, version: string, marked: bool)

  datatype Manager<S> = Manager(
    migrations: map<string, seq<Migration>>,
    closed: bool,
    initialized: bool,
    db: Db<S>)

  // ---------------------------------------------------------------------------
  // Registered migrations
  // ---------------------------------------------------------------------------

  /** What the services of names registered, service by service. */
  ghost function Visited(reg: map<string, seq<Migration>>, names: seq<string>): seq<Migration> {
    if names == [] then []
    else
      var n := names[|names| - 1];
      Visited(reg, names[..|names| - 1]) + if n in reg then reg[n] else []
  }

  /** Every registered migration, by service name and then in registration order. */
  ghost function Registered(reg: map<string, seq<Migration>>): seq<Migration> {
    Visited(reg, Listed(reg.Keys))
  }

  /** x has the version of an earlier entry of ms but differs from it. */
  ghost predicate Conflicts(ms: seq<Migration>, x: Migration) {
    exists m :: m in ms && m.version == x.version && m != x
  }

  /** The version of the first entry that conflicts with an earlier one. */
  ghost function Clash(ms: seq<Migration>): Option<string> {
    if ms == [] then None
    else
      var x := ms[|ms| - 1];
      var c := Clash(ms[..|ms| - 1]);
      if c.Some? then c
      else if Conflicts(ms[..|ms| - 1], x) then Some(x.version)
      else None
  }

  ghost predicate Consistent(ms: seq<Migration>) {
    forall a, b :: a in ms && b in ms && a.version == b.version ==> a == b
  }

  /** Registration is refused exactly when two registrations share a version and differ. */
  lemma {:induction false} ClashIff(ms: seq<Migration>)
    ensures Clash(ms).None? <==> Consistent(ms)
  {
    if ms != [] {
      var rest, x := ms[..|ms| - 1], ms[|ms| - 1];
      assert ms == rest + [x];
      ClashIff(rest);
    }
  }

  /** The first conflict of a prefix is the first conflict of the whole. */
  lemma {:induction false} ClashPrefix(ms: seq<Migration>, whole: seq<Migration>)
    requires ms <= whole && Clash(ms).Some?
    ensures Clash(whole) == Clash(ms)
    decreases |whole|
  {
    if ms != whole {
      ClashPrefix(ms, whole[..|whole| - 1]);
    }
  }

  lemma {:induction false} VisitedPrefix(reg: map<string, seq<Migration>>, names: seq<string>, i: nat)
    requires i <= |names|
    ensures Visited(reg, names[..i]) <= Visited(reg, names)
    decreases |names|
  {
    if i == |names| {
      assert names[..i] == names;
    } else {
      VisitedPrefix(reg, names[..|names| - 1], i);
      assert names[..|names| - 1][..i] == names[..i];
    }
  }

  ghost function Versions(ms: seq<Migration>): set<string> {
    set m | m in ms :: m.version
  }

  ghost function Order(ms: seq<Migration>): seq<string> {
    seq(|ms|, i requires 0 <= i < |ms| => ms[i].version)
  }

  /** all lists every migration of ms once, in version order. */
  ghost predicate IsPlan(ms: seq<Migration>, all: seq<Migration>) {
    && Sorted(Order(all))
    && (forall m :: m in all <==> m in ms)
  }

  ghost function Pick(ms: seq<Migration>, v: string): (m: Migration)
    requires v in Versions(ms)
    ensures m in ms && m.version == v
  {
    var m :| m in ms && m.version == v;
    m
  }

  /** The plan of ms. */
  ghost function Plan(ms: seq<Migration>): seq<Migration> {
    var vs := Listed(Versions(ms));
    ListedIs(Versions(ms));
    assert forall i :: 0 <= i < |vs| ==> vs[i] in Elements(vs);
    seq(|vs|, i requires 0 <= i < |vs| => Pick(ms, vs[i]))
  }

  lemma PlanOrder(ms: seq<Migration>)
    ensures Order(Plan(ms)) == Listed(Versions(ms))
    ensures forall m :: m in Plan(ms) ==> m in ms
  {
  }

  lemma PlanIs(ms: seq<Migration>)
    requires Consistent(ms)
    ensures IsPlan(ms, Plan(ms))
  {
    var all := Plan(ms);
    PlanOrder(ms);
    ListedIs(Versions(ms));
    forall m | m in ms
      ensures m in all
    {
      assert m.version in Versions(ms);
      OrderHas(all, m.version);
    }
  }

  lemma SortedOrder(all: seq<Migration>)
    requires Sorted(Order(all))
    ensures forall i, j :: 0 <= i < j < |all| ==> all[i].version != all[j].version
  {
    forall i, j | 0 <= i < j < |all|
      ensures all[i].version != all[j].version
    {
      assert LessAt(Order(all), i, j);
      LessTotal(all[i].version, all[j].version);
    }
  }

  /** A consistent set of registrations has only one plan. */
  lemma PlanUnique(ms: seq<Migration>, all: seq<Migration>)
    requires Consistent(ms) && IsPlan(ms, all)
    ensures all == Plan(ms)
  {
    var q := Plan(ms);
    PlanIs(ms);
    forall v
      ensures v in Elements(Order(all)) <==> v in Elements(Order(q))
    {
      OrderHas(all, v);
      OrderHas(q, v);
    }
    SortedUnique(Order(all), Order(q));
    forall i | 0 <= i < |all|
      ensures all[i] == q[i]
    {
      assert Order(all)[i] == Order(q)[i];
      assert all[i] in ms && q[i] in ms;
    }
    assert |all| == |Order(all)| == |q|;
  }

  lemma OrderHas(ms: seq<Migration>, v: string)
    ensures v in Elements(Order(ms)) <==> exists m :: m in ms && m.version == v
  {
    if v in Elements(Order(ms)) {
      var i :| 0 <= i < |Order(ms)| && Order(ms)[i] == v;
      assert ms[i] in ms;
    }
    forall m | m in ms && m.version == v
      ensures v in Elements(Order(ms))
    {
      var i :| 0 <= i < |ms| && ms[i] == m;
      assert Order(ms)[i] == v;
    }
  }

  // ---------------------------------------------------------------------------
  // Effects on the database
  // ---------------------------------------------------------------------------

  ghost function DirtySet(rows: map<string, Row>): set<string> {
    set v | v in rows && rows[v].dirty
  }

  /** The up SQL and the clean row of m, committed together. */
  function Up<S>(exec: (string, S) -> S, db: Db<S>, m: Migration): Db<S> {
    Db(db.rows[m.version := Row(m.owner, m.description, false)], exec(m.up, db.schema), db.log + [Applied(m)])
  }

  /** The down SQL of m and the deletion of its row, committed together. */
  function Undo<S>(exec: (string, S) -> S, db: Db<S>, m: Migration): Db<S> {
    Db(db.rows - {m.version}, exec(m.down, db.schema), db.log + [Reverted(m)])
  }

  /** The dirty mark of m: a new row, or the mark set on an existing one. */
  function Mark<S>(db: Db<S>, m: Migration): Db<S> {
    var row := if m.version in db.rows then db.rows[m.version].(dirty := true) else Row(m.owner, m.description, true);
    db.(rows := db.rows[m.version := row])
  }

  ghost function UpAll<S>(exec: (string, S) -> S, db: Db<S>, ms: seq<Migration>): Db<S> {
    if ms == [] then db
    else Up(exec, UpAll(exec, db, ms[..|ms| - 1]), ms[|ms| - 1])
  }

  lemma {:induction false} UpAllKeys<S>(exec: (string, S) -> S, db: Db<S>, ms: seq<Migration>)
    ensures UpAll(exec, db, ms).rows.Keys == db.rows.Keys + Versions(ms)
  {
    if ms != [] {
      UpAllKeys(exec, db, ms[..|ms| - 1]);
      VersionsAppend(ms[..|ms| - 1], ms[|ms| - 1]);
      assert ms == ms[..|ms| - 1] + [ms[|ms| - 1]];
    }
  }

  ghost function UndoAll<S>(exec: (string, S) -> S, db: Db<S>, ms: seq<Migration>): Db<S> {
    if ms == [] then db
    else Undo(exec, UndoAll(exec, db, ms[..|ms| - 1]), ms[|ms| - 1])
  }

  /** The entries of all whose version is not in done. */
  ghost function Pending(all: seq<Migration>, done: set<string>): seq<Migration> {
    if all == [] then []
    else
      Pending(all[..|all| - 1], done) + if all[|all| - 1].version in done then [] else [all[|all| - 1]]
  }

  lemma {:induction false} PendingHas(all: seq<Migration>, done: set<string>)
    ensures forall m :: m in Pending(all, done) <==> m in all && m.version !in done
  {
    if all != [] {
      assert all == all[..|all| - 1] + [all[|all| - 1]];
      PendingHas(all[..|all| - 1], done);
    }
  }

  lemma {:induction false} PendingPrefix(all: seq<Migration>, done: set<string>, i: nat)
    requires i <= |all|
    ensures Pending(all[..i], done) <= Pending(all, done)
    decreases |all|
  {
    if i == |all| {
      assert all[..i] == all;
    } else {
      PendingPrefix(all[..|all| - 1], done, i);
      assert all[..|all| - 1][..i] == all[..i];
    }
  }

  /** Once the first k pending migrations are in the table, the rest are what is pending. */
  lemma {:induction false} PendingRest(all: seq<Migration>, done: set<string>, k: nat)
    requires Sorted(Order(all))
    requires k <= |Pending(all, done)|
    ensures Pending(all, done + Versions(Pending(all, done)[..k])) == Pending(all, done)[k..]
  {
    if all != [] {
      var rest, x := all[..|all| - 1], all[|all| - 1];
      var p, q := Pending(all, done), Pending(rest, done);
      SortedOrder(all);
      SortedFront(all);
      PendingHas(rest, done);
      NotAmong(all, q);
      if k <= |q| {
        PendingRest(rest, done, k);
        assert p[..k] == q[..k];
        assert x.version !in Versions(q[..k]);
      } else {
        assert p == q + [x] && p[..k] == p;
        VersionsAppend(q, x);
        PendingRest(rest, done, |q|);
        assert q[..|q|] == q;
        forall m | m in rest
          ensures m.version != x.version
        {
          NotAmong(all, rest);
        }
        PendingSame(rest, done + Versions(q), done + Versions(p));
      }
    }
  }

  lemma SortedFront(all: seq<Migration>)
    requires all != [] && Sorted(Order(all))
    ensures Sorted(Order(all[..|all| - 1]))
  {
    var rest := all[..|all| - 1];
    forall i, j | 0 <= i < j < |rest|
      ensures LessAt(Order(rest), i, j)
    {
      assert LessAt(Order(all), i, j);
    }
  }

  lemma NotAmong(all: seq<Migration>, q: seq<Migration>)
    requires all != [] && Sorted(Order(all))
    requires forall m :: m in q ==> m in all[..|all| - 1]
    ensures forall m :: m in q ==> m.version != all[|all| - 1].version
  {
    SortedOrder(all);
  }

  lemma VersionsAppend(ms: seq<Migration>, x: Migration)
    ensures Versions(ms + [x]) == Versions(ms) + {x.version}
  {
    forall m
      ensures m in ms + [x] <==> m in ms || m == x
    {
    }
  }

  /** The pending part of a prefix of the plan, and the pending migration right after it. */
  lemma NextPending(all: seq<Migration>, done: set<string>, i: nat)
    requires Sorted(Order(all)) && i < |all| && all[i].version !in done
    ensures var p, n := Pending(all, done), |Pending(all[..i], done)|;
      && n < |p| && p[..n] == Pending(all[..i], done) && p[n] == all[i]
      && Pending(all[..i + 1], done) == Pending(all[..i], done) + [all[i]]
      && all[i].version !in done + Versions(Pending(all[..i], done))
  {
    assert all[..i + 1][..i] == all[..i];
    PendingPrefix(all, done, i + 1);
    PendingHas(all[..i], done);
    SortedOrder(all);
  }

  lemma {:induction false} PendingSame(all: seq<Migration>, a: set<string>, b: set<string>)
    requires forall m :: m in all ==> (m.version in a <==> m.version in b)
    ensures Pending(all, a) == Pending(all, b)
  {
    if all != [] {
      assert all[|all| - 1] in all;
      PendingSame(all[..|all| - 1], a, b);
    }
  }

  /** The first i entries of the plan all have been dealt with, starting from d. */
  ghost predicate Midway<S>(exec: (string, S) -> S, d: Db<S>, all: seq<Migration>, i: int, d': Db<S>)
    requires 0 <= i <= |all|
  {
    d' == UpAll(exec, d, Pending(all[..i], d.rows.Keys))
  }

  lemma Skipped<S>(exec: (string, S) -> S, d: Db<S>, all: seq<Migration>, i: nat, d': Db<S>)
    requires i < |all| && Midway(exec, d, all, i, d') && all[i].version in d.rows
    ensures Midway(exec, d, all, i + 1, d') && Count(d, all, i + 1) == Count(d, all, i)
  {
    var next := all[..i + 1];
    assert next[..|next| - 1] == all[..i] && next[|next| - 1] == all[i];
    assert Pending(next, d.rows.Keys) == Pending(all[..i], d.rows.Keys);
  }

  /** How many of the first i entries of the plan all were pending in d. */
  ghost function Count<S>(d: Db<S>, all: seq<Migration>, i: int): nat
    requires 0 <= i <= |all|
  {
    |Pending(all[..i], d.rows.Keys)|
  }

  lemma Stepped<S>(exec: (string, S) -> S, d: Db<S>, all: seq<Migration>, i: nat, d': Db<S>)
    requires i < |all| && Sorted(Order(all)) && Midway(exec, d, all, i, d') && all[i].version !in d.rows
    ensures all[i].version !in d'.rows
    ensures Midway(exec, d, all, i + 1, Up(exec, d', all[i])) && Count(d, all, i + 1) == Count(d, all, i) + 1
    ensures var p, n := Pending(all, d.rows.Keys), Count(d, all, i);
      n < |p| && p[n] == all[i] && d' == UpAll(exec, d, p[..n])
  {
    assert all[..i + 1][..i] == all[..i];
    NextPending(all, d.rows.Keys, i);
    UpAllKeys(exec, d, Pending(all[..i], d.rows.Keys));
    assert Pending(all[..i + 1], d.rows.Keys)[..Count(d, all, i)] == Pending(all[..i], d.rows.Keys);
  }

  // ---------------------------------------------------------------------------
  // What each call of the manager may do
  // ---------------------------------------------------------------------------

  /** Init makes the manager usable when it knows the driver, even if its own call then fails. */
  ghost function Initing<S>(m: Manager<S>, known: bool): Manager<S> {
    m.(initialized := m.initialized || known)
  }

  ghost function Closing<S>(m: Manager<S>): Manager<S> {
    m.(closed := true)
  }

  ghost function Registering<S>(m: Manager<S>, owner: string, x: Migration): Manager<S> {
    var before := if owner in m.migrations then m.migrations[owner] else [];
    m.(migrations := m.migrations[owner := before + [x.(owner := owner)]])
  }

  /** Which database calls fail, by number. */
  type Faults = nat -> bool

  /** No call from number at on fails. */
  ghost predicate NoFaults(f: Faults, at: nat) {
    forall k: nat :: at <= k ==> !f(k)
  }

  /** No call from number from up to number to, which is left out, fails. */
  ghost predicate Quiet(f: Faults, from: nat, to: nat) {
    forall k: nat :: from <= k < to ==> !f(k)
  }

  /** How applying version v ends: it stops at the first call that fails. */
  ghost function UpResult(f: Faults, at: nat, v: string): (e: Option<Error>)
    ensures e.None? <==> Quiet(f, at, at + 4)
  {
    if f(at) then Some(Stopped(Begin, v, false))
    else if f(at + 1) then Some(Stopped(Exec, v, !f(at + 2)))
    else if f(at + 2) then Some(Stopped(Record, v, !f(at + 3)))
    else if f(at + 3) then Some(Stopped(Commit, v, !f(at + 4)))
    else None
  }

  /** How reverting version v ends. A failed revert is not marked. */
  ghost function DownResult(f: Faults, at: nat, v: string): (e: Option<Error>)
    ensures e.None? <==> Quiet(f, at, at + 4)
  {
    if f(at) then Some(Stopped(Begin, v, false))
    else if f(at + 1) then Some(Stopped(Exec, v, false))
    else if f(at + 2) then Some(Stopped(Remove, v, false))
    else if f(at + 3) then Some(Stopped(Commit, v, false))
    else None
  }

  /** Why the manager does nothing at all, checked in this order. */
  ghost function Refusal<S>(m: Manager<S>, f: Faults, at: nat): Option<Error> {
    if m.closed then Some(Closed)
    else if !m.initialized then Some(NotInitialized)
    else if f(at) then Some(QueryFailed)
    else if DirtySet(m.db.rows) != {} then Some(Dirty(Listed(DirtySet(m.db.rows))))
    else if f(at + 1) then Some(QueryFailed)
    else
      var c := Clash(Registered(m.migrations));
      if c.Some? then Some(Duplicate(c.value)) else None
  }

  ghost function Todo<S>(m: Manager<S>): seq<Migration> {
    Pending(Plan(Registered(m.migrations)), m.db.rows.Keys)
  }

  /** A call of RunPending that ends with e after committing the first n pending migrations. */
  ghost predicate RanPending<S>(
      exec: (string, S) -> S, m: Manager<S>, f: Faults, at: nat, m': Manager<S>, e: Option<Error>, n: nat) {
    var p := Todo(m);
    && m' == m.(db := m'.db)
    && (Refusal(m, f, at).Some? ==> e == Refusal(m, f, at) && m'.db == m.db)
    && (Refusal(m, f, at).None? ==> Progress(exec, m.db, p, f, at + 2, m'.db, e, n))
  }

  /** The first n migrations of p are committed, with four calls each, and if more follow the next one failed. */
  ghost predicate Progress<S>(
      exec: (string, S) -> S, d: Db<S>, p: seq<Migration>, f: Faults, at: nat, d': Db<S>, e: Option<Error>, n: nat) {
    && n <= |p| && Quiet(f, at, at + 4 * n)
    && (n == |p| ==> e.None? && d' == UpAll(exec, d, p))
    && (n < |p| ==> e == UpResult(f, at + 4 * n, p[n].version) && StoppedAt(UpAll(exec, d, p[..n]), d', p[n], e))
  }

  lemma Finished<S>(exec: (string, S) -> S, m: Manager<S>, f: Faults, at: nat, d': Db<S>, e: Option<Error>, n: nat)
    requires Refusal(m, f, at).None?
    requires Progress(exec, m.db, Todo(m), f, at + 2, d', e, n)
    ensures RanPending(exec, m, f, at, m.(db := d'), e, n)
  {
  }

  lemma Refused<S>(exec: (string, S) -> S, m: Manager<S>, f: Faults, at: nat)
    requires Refusal(m, f, at).Some?
    ensures RanPending(exec, m, f, at, m, Refusal(m, f, at), 0)
  {
  }

  /** The migration next failed: nothing of it is committed, and it may be marked. */
  ghost predicate StoppedAt<S>(d: Db<S>, d': Db<S>, next: Migration, e: Option<Error>) {
    && e.Some? && e.value.Stopped? && e.value.version == next.version
    && d' == (if e.value.marked then Mark(d, next) else d)
  }

  /** The last n of vs, the last one first. */
  ghost function Top(vs: seq<string>, n: int): seq<string> {
    var count := if n < 0 then 0 else if n < |vs| then n else |vs|;
    seq(count, i requires 0 <= i < count => vs[|vs| - 1 - i])
  }

  /** The entries of the table that Down(n) is to revert, highest first. */
  ghost function Highest(rows: map<string, Row>, n: int): seq<string> {
    Top(Listed(rows.Keys), n)
  }

  /** A call of Down(n) that ends with e after reverting done. */
  ghost predicate RanDown<S>(
      exec: (string, S) -> S, m: Manager<S>, f: Faults, at: nat, n: int, m': Manager<S>, e: Option<Error>,
      done: seq<Migration>) {
    && m' == m.(db := m'.db)
    && (Refusal(m, f, at).Some? ==> e == Refusal(m, f, at) && m'.db == m.db)
    && (Refusal(m, f, at).None? ==>
          Descent(exec, m.db, Registered(m.migrations), Highest(m.db.rows, n), f, at + 2, m'.db, e, done))
  }

  lemma DownRefused<S>(exec: (string, S) -> S, m: Manager<S>, f: Faults, at: nat, n: int)
    requires Refusal(m, f, at).Some?
    ensures RanDown(exec, m, f, at, n, m, Refusal(m, f, at), [])
  {
  }

  lemma DownFinished<S>(
      exec: (string, S) -> S, m: Manager<S>, f: Faults, at: nat, n: int, d': Db<S>, e: Option<Error>,
      done: seq<Migration>)
    requires Refusal(m, f, at).None?
    requires Descent(exec, m.db, Registered(m.migrations), Highest(m.db.rows, n), f, at + 2, d', e, done)
    ensures RanDown(exec, m, f, at, n, m.(db := d'), e, done)
  {
  }

  /** The first versions of top are reverted, and if more follow the next one failed. */
  ghost predicate Descent<S>(
      exec: (string, S) -> S, d: Db<S>, all: seq<Migration>, top: seq<string>, f: Faults, at: nat, d': Db<S>,
      e: Option<Error>, done: seq<Migration>) {
    && Reverts(exec, d, all, top, d', done)
    && Quiet(f, at, at + 4 * |done|)
    && (e.None? <==> |done| == |top|)
    && (|done| < |top| ==> DownStopped(f, at + 4 * |done|, all, top[|done|], e))
  }

  lemma RevertsMore<S>(
      exec: (string, S) -> S, d: Db<S>, all: seq<Migration>, top: seq<string>, d': Db<S>, done: seq<Migration>,
      m: Migration)
    requires Reverts(exec, d, all, top, d', done)
    requires |done| < |top| && m in all && m.version == top[|done|]
    ensures Reverts(exec, d, all, top, Undo(exec, d', m), done + [m])
  {
    var more := done + [m];
    assert more[..|more| - 1] == done;
    assert Order(more) == Order(done) + [m.version];
  }

  /** done is what is registered under the first versions of top, reverted in that order. */
  ghost predicate Reverts<S>(
      exec: (string, S) -> S, d: Db<S>, all: seq<Migration>, top: seq<string>, d': Db<S>, done: seq<Migration>) {
    && (forall x :: x in done ==> x in all)
    && Order(done) <= top
    && d' == UndoAll(exec, d, done)
  }

  ghost predicate DownStopped(f: Faults, at: nat, all: seq<Migration>, v: string, e: Option<Error>) {
    e == if v in Versions(all) then DownResult(f, at, v) else Some(NotRegistered(v))
  }

  /** How deleting the row of v in a transaction ends. */
  ghost function ClearResult(f: Faults, at: nat, v: string): Option<Error> {
    if f(at) then Some(Stopped(Begin, v, false))
    else if f(at + 1) then Some(Stopped(Remove, v, false))
    else if f(at + 2) then Some(Stopped(Commit, v, false))
    else None
  }

  ghost predicate RanClear<S>(m: Manager<S>, f: Faults, at: nat, v: string, m': Manager<S>, e: Option<Error>) {
    && m' == m.(db := m'.db)
    && m'.db == (if e.None? then m.db.(rows := m.db.rows - {v}) else m.db)
    && (e.None? <==>
      !m.closed && m.initialized && v in DirtySet(m.db.rows) && !(f(at) || f(at + 1) || f(at + 2) || f(at + 3)))
    && (m.closed ==> e == Some(Closed))
    && (!m.closed && !m.initialized ==> e == Some(NotInitialized))
    && (!m.closed && m.initialized ==>
          if f(at) then e == Some(QueryFailed)
          else if v !in DirtySet(m.db.rows) then e == Some(NotDirty(v))
          else e == ClearResult(f, at + 1, v))
  }

  ghost function Readiness<S>(m: Manager<S>, f: Faults, at: nat): Option<Error> {
    if Refusal(m, f, at).Some? then Refusal(m, f, at)
    else if |Todo(m)| > 0 then Some(PendingLeft(|Todo(m)|))
    else None
  }
}
