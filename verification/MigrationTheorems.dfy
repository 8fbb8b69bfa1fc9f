/**
  Runs of the migration manager, in which any database call may fail.
 */
module MigrationTheorems {
  import opened Wrappers
  import opened Strings
  import opened Migrations

  // ---------------------------------------------------------------------------
  // The table tells what is in effect
  // ---------------------------------------------------------------------------

  datatype Action =
    | RunPending(f: Faults, at: nat, e: Option<Error>, n: nat)
    | Down(f: Faults, at: nat, count: int, e: Option<Error>, done: seq<Migration>)
    | ClearDirty(f: Faults, at: nat, v: string, e: Option<Error>)
    | CheckReady(f: Faults, at: nat, e: Option<Error>)
    | Init(known: bool)
    | Close
    | Register(owner: string, x: Migration)

  /** One call on the manager. */
  ghost predicate Step<S>(exec: (string, S) -> S, m: Manager<S>, a: Action, m': Manager<S>) {
    match a
    case RunPending(f, at, e, n) => RanPending(exec, m, f, at, m', e, n)
    case Down(f, at, count, e, done) => RanDown(exec, m, f, at, count, m', e, done)
    case ClearDirty(f, at, v, e) => RanClear(m, f, at, v, m', e)
    case CheckReady(f, at, e) => m' == m && e == Readiness(m, f, at)
    case Init(known) => m' == Initing(m, known)
    case Close => m' == Closing(m)
    case Register(owner, x) => m' == Registering(m, owner, x)
  }

  /** v was in effect in base and not reverted since, or applied since and not reverted after that. */
  ghost predicate InEffect(base: set<string>, log: seq<Event>, v: string) {
    if log == [] then v in base
    else if log[|log| - 1].m.version == v then log[|log| - 1].Applied?
    else InEffect(base, log[..|log| - 1], v)
  }

  /** The schema after the SQL of the events of log. */
  ghost function Replay<S>(exec: (string, S) -> S, schema: S, log: seq<Event>): S {
    if log == [] then schema
    else
      var s := Replay(exec, schema, log[..|log| - 1]);
      match log[|log| - 1]
      case Applied(m) => exec(m.up, s)
      case Reverted(m) => exec(m.down, s)
  }

  ghost predicate Clean(rows: map<string, Row>, v: string) {
    v in rows && !rows[v].dirty
  }

  ghost function CleanSet(rows: map<string, Row>): set<string> {
    set v | v in rows && Clean(rows, v)
  }

  /**
    Since base, whose log is empty, the schema has seen the committed SQL and nothing
    else, a version is in effect exactly when its row exists and is clean, and at most
    one row is dirty.
   */
  ghost predicate Faithful<S>(exec: (string, S) -> S, base: Db<S>, db: Db<S>) {
    && db.schema == Replay(exec, base.schema, db.log)
    && (forall v :: InEffect(CleanSet(base.rows), db.log, v) <==> Clean(db.rows, v))
    && AtMostOneDirty(db.rows)
  }

  ghost predicate AtMostOneDirty(rows: map<string, Row>) {
    forall v, w :: v in rows && w in rows && rows[v].dirty && rows[w].dirty ==> v == w
  }

  lemma UpFaithful<S>(exec: (string, S) -> S, base: Db<S>, db: Db<S>, m: Migration)
    requires Faithful(exec, base, db)
    ensures Faithful(exec, base, Up(exec, db, m))
  {
    var d := Up(exec, db, m);
    assert d.log[..|d.log| - 1] == db.log;
    forall v
      ensures InEffect(CleanSet(base.rows), d.log, v) <==> Clean(d.rows, v)
    {
      assert InEffect(CleanSet(base.rows), db.log, v) <==> Clean(db.rows, v);
    }
  }

  lemma UndoFaithful<S>(exec: (string, S) -> S, base: Db<S>, db: Db<S>, m: Migration)
    requires Faithful(exec, base, db)
    ensures Faithful(exec, base, Undo(exec, db, m))
  {
    var d := Undo(exec, db, m);
    assert d.log[..|d.log| - 1] == db.log;
    forall v
      ensures InEffect(CleanSet(base.rows), d.log, v) <==> Clean(d.rows, v)
    {
      assert InEffect(CleanSet(base.rows), db.log, v) <==> Clean(db.rows, v);
    }
  }

  lemma {:induction false} UpAllFaithful<S>(exec: (string, S) -> S, base: Db<S>, db: Db<S>, ms: seq<Migration>)
    requires Faithful(exec, base, db)
    ensures Faithful(exec, base, UpAll(exec, db, ms))
    ensures DirtySet(db.rows) == {} ==> DirtySet(UpAll(exec, db, ms).rows) == {}
  {
    if ms != [] {
      UpAllFaithful(exec, base, db, ms[..|ms| - 1]);
      UpFaithful(exec, base, UpAll(exec, db, ms[..|ms| - 1]), ms[|ms| - 1]);
    }
  }

  lemma {:induction false} UndoAllFaithful<S>(exec: (string, S) -> S, base: Db<S>, db: Db<S>, ms: seq<Migration>)
    requires Faithful(exec, base, db)
    ensures Faithful(exec, base, UndoAll(exec, db, ms))
  {
    if ms != [] {
      UndoAllFaithful(exec, base, db, ms[..|ms| - 1]);
      UndoFaithful(exec, base, UndoAll(exec, db, ms[..|ms| - 1]), ms[|ms| - 1]);
    }
  }

  lemma MarkFaithful<S>(exec: (string, S) -> S, base: Db<S>, db: Db<S>, m: Migration)
    requires Faithful(exec, base, db)
    requires m.version !in db.rows && DirtySet(db.rows) == {}
    ensures Faithful(exec, base, Mark(db, m))
  {
    var d := Mark(db, m);
    forall v
      ensures InEffect(CleanSet(base.rows), d.log, v) <==> Clean(d.rows, v)
    {
      assert InEffect(CleanSet(base.rows), db.log, v) <==> Clean(db.rows, v);
    }
    assert forall v :: v in db.rows && db.rows[v].dirty ==> v in DirtySet(db.rows);
  }

  lemma ClearFaithful<S>(exec: (string, S) -> S, base: Db<S>, db: Db<S>, v: string)
    requires Faithful(exec, base, db)
    requires v in DirtySet(db.rows)
    ensures Faithful(exec, base, db.(rows := db.rows - {v}))
  {
    var d := db.(rows := db.rows - {v});
    forall w
      ensures InEffect(CleanSet(base.rows), d.log, w) <==> Clean(d.rows, w)
    {
      assert InEffect(CleanSet(base.rows), db.log, w) <==> Clean(db.rows, w);
    }
  }

  /** The migration that failed is not in the table when the others before it are. */
  lemma StoppedFresh<S>(exec: (string, S) -> S, m: Manager<S>, n: nat)
    requires Clash(Registered(m.migrations)).None? && n < |Todo(m)|
    ensures Todo(m)[n].version !in UpAll(exec, m.db, Todo(m)[..n]).rows
  {
    var all, keys := Plan(Registered(m.migrations)), m.db.rows.Keys;
    ClashIff(Registered(m.migrations));
    PlanIs(Registered(m.migrations));
    TodoDistinct(all, keys);
    PendingHas(all, keys);
    UpAllKeys(exec, m.db, Todo(m)[..n]);
    assert Todo(m)[n] in Todo(m);
  }

  lemma {:induction false} TodoDistinct(all: seq<Migration>, done: set<string>)
    requires Sorted(Order(all))
    ensures Sorted(Order(Pending(all, done)))
    ensures forall i, j :: 0 <= i < j < |Pending(all, done)| ==>
      Pending(all, done)[i].version != Pending(all, done)[j].version
  {
    if all != [] {
      var rest, x := all[..|all| - 1], all[|all| - 1];
      var q := Pending(rest, done);
      SortedFront(all);
      TodoDistinct(rest, done);
      PendingHas(rest, done);
      forall i, j | 0 <= i < j < |Pending(all, done)|
        ensures LessAt(Order(Pending(all, done)), i, j)
      {
        if j < |q| {
          assert LessAt(Order(q), i, j);
        } else {
          assert q[i] in rest;
          var k :| 0 <= k < |rest| && rest[k] == q[i];
          assert LessAt(Order(all), k, |all| - 1);
        }
      }
      SortedOrder(Pending(all, done));
    }
  }

  /** Every call keeps the table faithful, whatever fails in it. */
  lemma StepFaithful<S>(exec: (string, S) -> S, base: Db<S>, m: Manager<S>, a: Action, m': Manager<S>)
    requires Faithful(exec, base, m.db) && Step(exec, m, a, m')
    ensures Faithful(exec, base, m'.db)
  {
    match a {
      case RunPending(f, at, e, n) =>
        if Refusal(m, f, at).None? {
          UpAllFaithful(exec, base, m.db, Todo(m)[..n]);
          if n < |Todo(m)| {
            StoppedFresh(exec, m, n);
            if e.value.marked {
              MarkFaithful(exec, base, UpAll(exec, m.db, Todo(m)[..n]), Todo(m)[n]);
            }
          } else {
            assert Todo(m)[..n] == Todo(m);
          }
        }
      case Down(f, at, count, e, done) =>
        UndoAllFaithful(exec, base, m.db, done);
      case ClearDirty(f, at, v, e) =>
        if e.None? {
          ClearFaithful(exec, base, m.db, v);
        }
      case _ =>
    }
  }

  /** ms[i] to ms[i + 1] is one call. */
  ghost predicate StepAt<S>(exec: (string, S) -> S, ms: seq<Manager<S>>, acts: seq<Action>, i: nat) {
    i + 1 < |ms| && i < |acts| && Step(exec, ms[i], acts[i], ms[i + 1])
  }

  ghost predicate Run<S>(exec: (string, S) -> S, ms: seq<Manager<S>>, acts: seq<Action>) {
    |ms| == |acts| + 1 && forall i :: 0 <= i < |acts| ==> StepAt(exec, ms, acts, i)
  }

  /** In every state of every run the table is faithful. */
  lemma {:induction false} AlwaysFaithful<S>(exec: (string, S) -> S, ms: seq<Manager<S>>, acts: seq<Action>, i: nat)
    requires Run(exec, ms, acts) && i < |ms|
    requires ms[0].db.log == [] && AtMostOneDirty(ms[0].db.rows)
    ensures Faithful(exec, ms[0].db, ms[i].db)
  {
    if i > 0 {
      AlwaysFaithful(exec, ms, acts, i - 1);
      assert StepAt(exec, ms, acts, i - 1);
      StepFaithful(exec, ms[0].db, ms[i - 1], acts[i - 1], ms[i]);
    }
  }

  /** While a version is dirty nothing is applied or reverted, and both calls say why. */
  lemma FrozenWhileDirty<S>(exec: (string, S) -> S, m: Manager<S>, a: Action, m': Manager<S>)
    requires Step(exec, m, a, m') && DirtySet(m.db.rows) != {}
    ensures m'.db.log == m.db.log && m'.db.schema == m.db.schema
    ensures a.RunPending? || a.Down? ==> m'.db == m.db && a.e.Some?
    ensures a.RunPending? || a.Down? ==>
      a.e.value in {Closed, NotInitialized, QueryFailed, Dirty(Listed(DirtySet(m.db.rows)))}
  {
  }

  // ---------------------------------------------------------------------------
  // Retrying comes to the same as one run without failures
  // ---------------------------------------------------------------------------

  /** The database without the dirty marks, whose versions have no effect on it. */
  ghost function Unmarked<S>(db: Db<S>): Db<S> {
    db.(rows := map v | v in db.rows && !db.rows[v].dirty :: db.rows[v])
  }

  /** A call of RunPending, successful or not, or of ClearDirty. */
  ghost predicate Attempt<S>(exec: (string, S) -> S, m: Manager<S>, a: Action, m': Manager<S>) {
    Step(exec, m, a, m') && (a.RunPending? || a.ClearDirty?)
  }

  /** What a run without failures would apply once the marks of m are cleared. */
  ghost function Outstanding<S>(m: Manager<S>): seq<Migration> {
    Todo(m.(db := Unmarked(m.db)))
  }

  ghost predicate Behind<S>(exec: (string, S) -> S, m0: Manager<S>, m: Manager<S>, k: nat) {
    && m.migrations == m0.migrations
    && k <= |Outstanding(m0)|
    && Unmarked(m.db) == UpAll(exec, Unmarked(m0.db), Outstanding(m0)[..k])
  }

  /** With no marks, the first k outstanding migrations applied leave the others to do. */
  lemma BehindTodo<S>(exec: (string, S) -> S, m0: Manager<S>, m: Manager<S>, k: nat)
    requires Behind(exec, m0, m, k) && DirtySet(m.db.rows) == {} && Clash(Registered(m.migrations)).None?
    ensures Unmarked(m.db) == m.db && Todo(m) == Outstanding(m0)[k..]
  {
    var all, keys, p := Plan(Registered(m0.migrations)), Unmarked(m0.db).rows.Keys, Outstanding(m0);
    assert forall v :: v in m.db.rows ==> !(v in DirtySet(m.db.rows));
    assert Unmarked(m.db).rows == m.db.rows;
    ClashIff(Registered(m0.migrations));
    PlanIs(Registered(m0.migrations));
    UpAllKeys(exec, Unmarked(m0.db), p[..k]);
    PendingRest(all, keys, k);
  }

  lemma {:induction false} UpAllConcat<S>(exec: (string, S) -> S, db: Db<S>, a: seq<Migration>, b: seq<Migration>)
    ensures UpAll(exec, UpAll(exec, db, a), b) == UpAll(exec, db, a + b)
    decreases |b|
  {
    if b == [] {
      assert a + b == a;
    } else {
      UpAllConcat(exec, db, a, b[..|b| - 1]);
      assert (a + b)[..|a + b| - 1] == a + b[..|b| - 1];
    }
  }

  /** Applying adds clean rows only. */
  lemma {:induction false} UpAllUnmarked<S>(exec: (string, S) -> S, db: Db<S>, ms: seq<Migration>)
    requires Unmarked(db) == db
    ensures Unmarked(UpAll(exec, db, ms)) == UpAll(exec, db, ms)
  {
    if ms != [] {
      UpAllUnmarked(exec, db, ms[..|ms| - 1]);
      var d := UpAll(exec, db, ms[..|ms| - 1]);
      assert forall v :: v in d.rows ==> v in Unmarked(d).rows;
      assert Unmarked(Up(exec, d, ms[|ms| - 1])).rows == Up(exec, d, ms[|ms| - 1]).rows;
    }
  }

  lemma MarkUnmarked<S>(d: Db<S>, m: Migration)
    requires m.version !in d.rows
    ensures Unmarked(Mark(d, m)) == Unmarked(d)
  {
    assert Unmarked(Mark(d, m)).rows == Unmarked(d).rows;
  }

  /** Applying n of what is left to do is applying k + n of what was outstanding. */
  lemma FurtherAhead<S>(exec: (string, S) -> S, m0: Manager<S>, m: Manager<S>, k: nat, n: nat)
    requires Behind(exec, m0, m, k) && DirtySet(m.db.rows) == {} && Clash(Registered(m.migrations)).None?
    requires n <= |Todo(m)|
    ensures Todo(m) == Outstanding(m0)[k..]
    ensures var d := UpAll(exec, m.db, Todo(m)[..n]);
      d == UpAll(exec, Unmarked(m0.db), Outstanding(m0)[..k + n]) && Unmarked(d) == d
  {
    var p := Outstanding(m0);
    BehindTodo(exec, m0, m, k);
    assert p[k..][..n] == p[k..k + n];
    assert p[..k] + p[k..k + n] == p[..k + n];
    UpAllConcat(exec, Unmarked(m0.db), p[..k], p[k..k + n]);
    UpAllUnmarked(exec, m.db, p[k..k + n]);
  }

  lemma RunForward<S>(
      exec: (string, S) -> S, m0: Manager<S>, m: Manager<S>, k: nat, f: Faults, at: nat, d': Db<S>, e: Option<Error>,
      n: nat)
    requires Behind(exec, m0, m, k) && Refusal(m, f, at).None?
    requires Progress(exec, m.db, Todo(m), f, at + 2, d', e, n)
    ensures Behind(exec, m0, m.(db := d'), k + n)
    ensures e.None? ==> k + n == |Outstanding(m0)| && Unmarked(d') == d'
  {
    FurtherAhead(exec, m0, m, k, n);
    if n < |Todo(m)| {
      StoppedFresh(exec, m, n);
      MarkUnmarked(UpAll(exec, m.db, Todo(m)[..n]), Todo(m)[n]);
    } else {
      assert Todo(m)[..n] == Todo(m);
    }
  }

  /** An attempt moves forward along the outstanding migrations or stays; a success reaches their end. */
  lemma AttemptForward<S>(
      exec: (string, S) -> S, m0: Manager<S>, m: Manager<S>, k: nat, a: Action, m': Manager<S>)
    returns (k': nat)
    requires Behind(exec, m0, m, k) && Attempt(exec, m, a, m')
    ensures k <= k' && Behind(exec, m0, m', k')
    ensures a.RunPending? && a.e.None? ==> k' == |Outstanding(m0)| && Unmarked(m'.db) == m'.db
  {
    if a.ClearDirty? {
      k' := k;
      ClearUnmarked(m, a, m');
    } else {
      k' := RunPendingForward(exec, m0, m, k, a.f, a.at, a.e, a.n, m');
    }
  }

  lemma RunPendingForward<S>(
      exec: (string, S) -> S, m0: Manager<S>, m: Manager<S>, k: nat, f: Faults, at: nat, e: Option<Error>, n: nat,
      m': Manager<S>)
    returns (k': nat)
    requires Behind(exec, m0, m, k) && RanPending(exec, m, f, at, m', e, n)
    ensures k <= k' && Behind(exec, m0, m', k')
    ensures e.None? ==> k' == |Outstanding(m0)| && Unmarked(m'.db) == m'.db
  {
    if Refusal(m, f, at).Some? {
      k' := k;
      assert m' == m;
    } else {
      k' := k + n;
      RunForward(exec, m0, m, k, f, at, m'.db, e, n);
    }
  }

  lemma ClearUnmarked<S>(m: Manager<S>, a: Action, m': Manager<S>)
    requires a.ClearDirty? && RanClear(m, a.f, a.at, a.v, m', a.e)
    ensures Unmarked(m'.db) == Unmarked(m.db)
  {
    assert Unmarked(m'.db).rows == Unmarked(m.db).rows;
  }

  /**
    Any attempts, then a RunPending that succeeds: together they have committed exactly
    the outstanding migrations, each once and in version order.
   */
  lemma {:induction false} AttemptsConverge<S>(exec: (string, S) -> S, ms: seq<Manager<S>>, acts: seq<Action>)
    requires |ms| == |acts| + 1 && |acts| > 0
    requires forall i :: 0 <= i < |acts| ==> AttemptAt(exec, ms, acts, i)
    requires acts[|acts| - 1].RunPending? && acts[|acts| - 1].e.None?
    ensures ms[|acts|].db == UpAll(exec, Unmarked(ms[0].db), Outstanding(ms[0]))
    ensures ms[|acts|].db.log == ms[0].db.log + Commits(Outstanding(ms[0]))
    ensures Sorted(Order(Outstanding(ms[0])))
  {
    var m, a := ms[|acts| - 1], acts[|acts| - 1];
    var k := Attempts(exec, ms, acts, |acts| - 1);
    assert AttemptAt(exec, ms, acts, |acts| - 1);
    LastAttempt(exec, ms[0], m, k, a, ms[|acts|]);
    LogOfAll(exec, Unmarked(ms[0].db), Outstanding(ms[0]));
    OutstandingSorted(ms[0]);
  }

  lemma LastAttempt<S>(exec: (string, S) -> S, m0: Manager<S>, m: Manager<S>, k: nat, a: Action, m': Manager<S>)
    requires Behind(exec, m0, m, k) && Attempt(exec, m, a, m') && a.RunPending? && a.e.None?
    ensures m'.db == UpAll(exec, Unmarked(m0.db), Outstanding(m0))
    ensures Clash(Registered(m0.migrations)).None?
  {
    var last := RunPendingForward(exec, m0, m, k, a.f, a.at, a.e, a.n, m');
    BehindAll(exec, m0, m');
  }

  lemma BehindAll<S>(exec: (string, S) -> S, m0: Manager<S>, m: Manager<S>)
    requires Behind(exec, m0, m, |Outstanding(m0)|)
    ensures Unmarked(m.db) == UpAll(exec, Unmarked(m0.db), Outstanding(m0))
  {
    var p := Outstanding(m0);
    assert p[..|p|] == p;
  }

  ghost predicate AttemptAt<S>(exec: (string, S) -> S, ms: seq<Manager<S>>, acts: seq<Action>, i: nat) {
    i + 1 < |ms| && i < |acts| && Attempt(exec, ms[i], acts[i], ms[i + 1])
  }

  lemma {:induction false} Attempts<S>(
      exec: (string, S) -> S, ms: seq<Manager<S>>, acts: seq<Action>, i: nat)
    returns (k: nat)
    requires |ms| == |acts| + 1 && i < |ms|
    requires forall j :: 0 <= j < |acts| ==> AttemptAt(exec, ms, acts, j)
    ensures Behind(exec, ms[0], ms[i], k)
    decreases i
  {
    if i == 0 {
      k := 0;
    } else {
      k := Attempts(exec, ms, acts, i - 1);
      assert AttemptAt(exec, ms, acts, i - 1);
      k := AttemptForward(exec, ms[0], ms[i - 1], k, acts[i - 1], ms[i]);
    }
  }

  lemma OutstandingSorted<S>(m: Manager<S>)
    requires Clash(Registered(m.migrations)).None?
    ensures Sorted(Order(Outstanding(m)))
  {
    var reg := Registered(m.migrations);
    ClashIff(reg);
    PlanIs(reg);
    TodoDistinct(Plan(reg), Unmarked(m.db).rows.Keys);
  }

  ghost function Commits(ms: seq<Migration>): seq<Event> {
    seq(|ms|, i requires 0 <= i < |ms| => Applied(ms[i]))
  }

  lemma {:induction false} LogOfAll<S>(exec: (string, S) -> S, db: Db<S>, ms: seq<Migration>)
    ensures UpAll(exec, db, ms).log == db.log + Commits(ms)
  {
    if ms != [] {
      var rest := ms[..|ms| - 1];
      LogOfAll(exec, db, rest);
      assert Commits(ms) == Commits(rest) + [Applied(ms[|ms| - 1])];
    }
  }

  /** From a faithful table without failing calls, clearing the mark and running again applies everything. */
  lemma Recovers<S>(
      exec: (string, S) -> S, m: Manager<S>, v: string, c: Action, m1: Manager<S>, r: Action, m2: Manager<S>)
    requires !m.closed && m.initialized && Consistent(Registered(m.migrations))
    requires DirtySet(m.db.rows) == {v}
    requires c.ClearDirty? && c.v == v && NoFaults(c.f, c.at) && Step(exec, m, c, m1)
    requires r.RunPending? && NoFaults(r.f, r.at) && Step(exec, m1, r, m2)
    ensures c.e.None? && r.e.None?
    ensures m2.db == UpAll(exec, Unmarked(m.db), Outstanding(m))
    ensures forall x :: x in Registered(m.migrations) ==> x.version in m2.db.rows
    ensures DirtySet(m2.db.rows) == {}
  {
    assert !(c.f(c.at) || c.f(c.at + 1) || c.f(c.at + 2) || c.f(c.at + 3));
    assert !(r.f(r.at) || r.f(r.at + 1));
    assert m1.db.rows == Unmarked(m.db).rows by {
      assert forall w :: w in m.db.rows && m.db.rows[w].dirty <==> w in DirtySet(m.db.rows);
    }
    var reg := Registered(m.migrations);
    ClashIff(reg);
    assert DirtySet(m1.db.rows) == {};
    PlanIs(reg);
    PendingHas(Plan(reg), m1.db.rows.Keys);
    UpAllKeys(exec, m1.db, Todo(m1));
    assert Unmarked(m1.db).rows == m1.db.rows;
    UpAllUnmarked(exec, m1.db, Todo(m1));
    assert forall w :: w in m2.db.rows ==> w in Unmarked(m2.db).rows;
    forall x | x in reg
      ensures x.version in m2.db.rows
    {
      assert x in Plan(reg);
    }
  }

  // ---------------------------------------------------------------------------
  // Down undoes RunPending
  // ---------------------------------------------------------------------------

  ghost predicate Inverse<S(!new)>(exec: (string, S) -> S, m: Migration) {
    forall s: S :: exec(m.down, exec(m.up, s)) == s
  }

  ghost predicate SameData<S>(d: Db<S>, d': Db<S>) {
    d.rows == d'.rows && d.schema == d'.schema
  }

  lemma UndoUp<S(!new)>(exec: (string, S) -> S, d: Db<S>, m: Migration, d': Db<S>)
    requires SameData(d', Up(exec, d, m))
    requires Inverse(exec, m) && m.version !in d.rows
    ensures SameData(Undo(exec, d', m), d)
  {
    assert d'.rows - {m.version} == d.rows;
  }

  /** Reverting the migrations of p from the k-th on, last first, undoes having applied them. */
  lemma {:induction false} UndoBack<S(!new)>(
      exec: (string, S) -> S, db: Db<S>, p: seq<Migration>, done: seq<Migration>, k: nat)
    requires |done| == |p| && forall i :: 0 <= i < |p| ==> done[i] == p[|p| - 1 - i]
    requires forall i :: 0 <= i < |p| ==> Inverse(exec, p[i])
    requires forall i :: 0 <= i < |p| ==> p[i].version !in UpAll(exec, db, p[..i]).rows
    requires k <= |p|
    ensures SameData(UndoAll(exec, UpAll(exec, db, p), done[..k]), UpAll(exec, db, p[..|p| - k]))
    decreases k
  {
    if k == 0 {
      assert p[..|p|] == p;
    } else {
      UndoBack(exec, db, p, done, k - 1);
      var i := |p| - k;
      var d, now := UpAll(exec, db, p[..i]), UndoAll(exec, UpAll(exec, db, p), done[..k - 1]);
      assert done[..k][..k - 1] == done[..k - 1] && done[..k][k - 1] == p[i];
      assert p[..i + 1][..i] == p[..i] && p[..i + 1][i] == p[i];
      UndoUp(exec, d, p[i], now);
    }
  }

  /** The versions of two tables, the second all above the first, in order. */
  lemma ListedSplit(keys: set<string>, vs: seq<string>)
    requires Sorted(vs) && forall k, v :: k in keys && v in vs ==> Less(k, v)
    ensures Listed(keys + Elements(vs)) == Listed(keys) + vs
  {
    var low := Listed(keys);
    var both := low + vs;
    ListedIs(keys);
    ListedIs(keys + Elements(vs));
    forall i, j | 0 <= i < j < |both|
      ensures LessAt(both, i, j)
    {
      if j < |low| {
        assert LessAt(low, i, j);
      } else if i >= |low| {
        assert LessAt(vs, i - |low|, j - |low|);
      } else {
        assert low[i] in Elements(low) && vs[j - |low|] in vs;
      }
    }
    forall x
      ensures x in both <==> x in keys || x in vs
    {
      assert x in low <==> x in Elements(low);
    }
    SortedUnique(both, Listed(keys + Elements(vs)));
  }

  lemma DoneIs(ms: seq<Migration>, p: seq<Migration>, done: seq<Migration>)
    requires Consistent(ms) && |done| == |p|
    requires forall i :: 0 <= i < |p| ==> p[i] in ms && done[i] in ms && done[i].version == p[|p| - 1 - i].version
    ensures forall i :: 0 <= i < |p| ==> done[i] == p[|p| - 1 - i]
  {
  }

  lemma TopOfRun<S>(exec: (string, S) -> S, m: Manager<S>)
    requires Consistent(Registered(m.migrations))
    requires forall v, x :: v in m.db.rows && x in Todo(m) ==> Less(v, x.version)
    ensures var p, top := Todo(m), Highest(UpAll(exec, m.db, Todo(m)).rows, |Todo(m)|);
      |top| == |p| && forall i :: 0 <= i < |p| ==> top[i] == p[|p| - 1 - i].version
  {
    var p, keys := Todo(m), m.db.rows.Keys;
    PlanIs(Registered(m.migrations));
    TodoDistinct(Plan(Registered(m.migrations)), keys);
    UpAllKeys(exec, m.db, p);
    forall k, v | k in keys && v in Order(p)
      ensures Less(k, v)
    {
      var i :| 0 <= i < |Order(p)| && Order(p)[i] == v;
      assert p[i] in Todo(m);
    }
    forall v
      ensures v in Versions(p) <==> v in Elements(Order(p))
    {
      OrderHas(p, v);
    }
    assert Versions(p) == Elements(Order(p));
    ListedSplit(keys, Order(p));
    TopVersions(Listed(keys), p);
  }

  lemma TopVersions(low: seq<string>, ms: seq<Migration>)
    ensures var top := Top(low + Order(ms), |ms|);
      |top| == |ms| && forall i :: 0 <= i < |ms| ==> top[i] == ms[|ms| - 1 - i].version
  {
  }

  /**
    When every pending version sorts after the table and every down SQL inverts its up
    SQL, a Down of the number applied restores the table and the schema.
   */
  lemma DownRestores<S(!new)>(
      exec: (string, S) -> S, m: Manager<S>, r: Action, m1: Manager<S>, d: Action, m2: Manager<S>)
    requires r.RunPending? && r.e.None? && Step(exec, m, r, m1)
    requires d.Down? && d.count == |Todo(m)| && d.e.None? && Step(exec, m1, d, m2)
    requires forall v, x :: v in m.db.rows && x in Todo(m) ==> Less(v, x.version)
    requires forall x :: x in Todo(m) ==> Inverse(exec, x)
    ensures SameData(m2.db, m.db)
  {
    var p := Todo(m);
    assert p[..|p|] == p;
    RevertedInOrder(exec, m, m1.db, d.done, m2.db);
    forall i | 0 <= i < |p|
      ensures p[i].version !in UpAll(exec, m.db, p[..i]).rows && Inverse(exec, p[i])
    {
      StoppedFresh(exec, m, i);
      assert p[i] in p;
    }
    UndoBack(exec, m.db, p, d.done, |p|);
    assert d.done[..|p|] == d.done && p[..0] == [];
  }

  lemma RevertedInOrder<S(!new)>(exec: (string, S) -> S, m: Manager<S>, d1: Db<S>, done: seq<Migration>, d2: Db<S>)
    requires Clash(Registered(m.migrations)).None?
    requires d1 == UpAll(exec, m.db, Todo(m))
    requires forall v, x :: v in m.db.rows && x in Todo(m) ==> Less(v, x.version)
    requires |done| == |Highest(d1.rows, |Todo(m)|)|
    requires Reverts(exec, d1, Registered(m.migrations), Highest(d1.rows, |Todo(m)|), d2, done)
    ensures |done| == |Todo(m)| && forall i :: 0 <= i < |done| ==> done[i] == Todo(m)[|done| - 1 - i]
  {
    var p, reg := Todo(m), Registered(m.migrations);
    ClashIff(reg);
    TopOfRun(exec, m);
    TodoRegistered(m);
    DoneVersions(done, Highest(d1.rows, |p|));
    DoneIs(reg, p, done);
  }

  lemma TodoRegistered<S>(m: Manager<S>)
    requires Consistent(Registered(m.migrations))
    ensures forall x :: x in Todo(m) ==> x in Registered(m.migrations)
  {
    PlanIs(Registered(m.migrations));
    PendingHas(Plan(Registered(m.migrations)), m.db.rows.Keys);
  }

  lemma DoneVersions(done: seq<Migration>, top: seq<string>)
    requires Order(done) <= top && |done| == |top|
    ensures forall i :: 0 <= i < |done| ==> done[i].version == top[i]
  {
    forall i | 0 <= i < |done|
      ensures done[i].version == top[i]
    {
      assert Order(done)[i] == done[i].version;
    }
  }

  // ---------------------------------------------------------------------------
  // Readiness
  // ---------------------------------------------------------------------------

  /** CheckReady succeeds exactly when RunPending, meeting the same calls, would succeed and change nothing. */
  lemma ReadyMeansNothingToRun<S>(exec: (string, S) -> S, m: Manager<S>, r: Action, m': Manager<S>)
    requires r.RunPending? && Step(exec, m, r, m')
    ensures Readiness(m, r.f, r.at).None? <==> r.e.None? && m'.db == m.db
  {
    if Refusal(m, r.f, r.at).None? && r.n == |Todo(m)| {
      LogOfAll(exec, m.db, Todo(m));
    }
  }
}
