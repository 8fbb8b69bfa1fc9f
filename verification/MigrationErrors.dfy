/**
  Which error each call of the migration manager gives, and what it leaves behind, told by
  the state, the rows, the registrations and the first database call that fails.
 */
module MigrationErrors {
  import opened Wrappers
  import opened Strings
  import opened Migrations
  import opened MigrationTheorems

  // ---------------------------------------------------------------------------
  // Closed and uninitialized managers
  // ---------------------------------------------------------------------------

  /** The call asks the manager to do something with its database. */
  predicate Works(a: Action) {
    a.RunPending? || a.Down? || a.ClearDirty? || a.CheckReady?
  }

  /** A closed manager, and one that was never initialized, says so and leaves everything alone. */
  lemma UnusableRefuses<S>(exec: (string, S) -> S, m: Manager<S>, a: Action, m': Manager<S>)
    requires Step(exec, m, a, m') && Works(a)
    ensures a.e == Some(Closed) <==> m.closed
    ensures a.e == Some(NotInitialized) <==> !m.closed && !m.initialized
    ensures m.closed || !m.initialized ==> m' == m
  {
  }

  /** After Close no call does anything any more, whatever is called in between. */
  lemma {:induction false} ClosedForEver<S>(
      exec: (string, S) -> S, ms: seq<Manager<S>>, acts: seq<Action>, i: nat, j: nat)
    requires Run(exec, ms, acts) && i < j < |acts| && acts[i].Close?
    ensures ms[j].closed
    ensures Works(acts[j]) ==> acts[j].e == Some(Closed) && ms[j + 1] == ms[j]
    decreases j
  {
    if j == i + 1 {
      assert StepAt(exec, ms, acts, i);
    } else {
      ClosedForEver(exec, ms, acts, i, j - 1);
      assert StepAt(exec, ms, acts, j - 1);
    }
    assert StepAt(exec, ms, acts, j);
    if Works(acts[j]) {
      UnusableRefuses(exec, ms[j], acts[j], ms[j + 1]);
    }
  }

  /** Until an Init that knows the driver, no call does anything either. */
  lemma {:induction false} NothingBeforeInit<S>(
      exec: (string, S) -> S, ms: seq<Manager<S>>, acts: seq<Action>, j: nat)
    requires Run(exec, ms, acts) && j < |acts| && !ms[0].initialized
    requires forall k :: 0 <= k < j ==> acts[k] != Init(true)
    ensures !ms[j].initialized
    ensures Works(acts[j]) ==> acts[j].e in {Some(Closed), Some(NotInitialized)} && ms[j + 1] == ms[j]
    decreases j
  {
    if j > 0 {
      NothingBeforeInit(exec, ms, acts, j - 1);
      assert StepAt(exec, ms, acts, j - 1);
    }
    assert StepAt(exec, ms, acts, j);
    if Works(acts[j]) {
      UnusableRefuses(exec, ms[j], acts[j], ms[j + 1]);
    }
  }

  // ---------------------------------------------------------------------------
  // Registrations and the table
  // ---------------------------------------------------------------------------

  lemma {:induction false} VisitedHas(reg: map<string, seq<Migration>>, names: seq<string>)
    ensures forall x :: x in Visited(reg, names) <==> exists s :: s in names && s in reg && x in reg[s]
  {
    if names != [] {
      var rest, last := names[..|names| - 1], names[|names| - 1];
      assert names == rest + [last];
      VisitedHas(reg, rest);
    }
  }

  /** Registered are exactly the migrations some service has registered. */
  lemma RegisteredHas(reg: map<string, seq<Migration>>)
    ensures forall x :: x in Registered(reg) <==> exists s :: s in reg && x in reg[s]
  {
    VisitedHas(reg, Listed(reg.Keys));
    ListedIs(reg.Keys);
    forall s
      ensures s in Listed(reg.Keys) <==> s in reg
    {
      assert s in Elements(Listed(reg.Keys)) <==> s in reg.Keys;
    }
  }

  /** The version reported as a duplicate is that of the first registration that differs from an earlier one. */
  lemma {:induction false} ClashIsFirst(ms: seq<Migration>) returns (i: nat)
    requires Clash(ms).Some?
    ensures i < |ms| && Consistent(ms[..i]) && Conflicts(ms[..i], ms[i]) && Clash(ms) == Some(ms[i].version)
  {
    var n := |ms| - 1;
    if Clash(ms[..n]).Some? {
      i := ClashIsFirst(ms[..n]);
      assert ms[..n][..i] == ms[..i];
    } else {
      i := n;
      ClashIff(ms[..n]);
    }
  }

  ghost predicate NoDirty(rows: map<string, Row>) {
    forall v :: v in rows ==> !rows[v].dirty
  }

  lemma NoDirtyIff(rows: map<string, Row>)
    ensures NoDirty(rows) <==> DirtySet(rows) == {}
  {
    if NoDirty(rows) {
      assert forall v :: v !in DirtySet(rows);
    } else {
      var v :| v in rows && rows[v].dirty;
      assert v in DirtySet(rows);
    }
  }

  /** What is left to do: every registered migration without a row, in version order. */
  lemma TodoIs<S>(m: Manager<S>)
    requires Consistent(Registered(m.migrations))
    ensures Sorted(Order(Todo(m)))
    ensures forall x :: x in Todo(m) <==> x in Registered(m.migrations) && x.version !in m.db.rows
  {
    var reg := Registered(m.migrations);
    PlanIs(reg);
    PendingHas(Plan(reg), m.db.rows.Keys);
    TodoDistinct(Plan(reg), m.db.rows.Keys);
  }

  // ---------------------------------------------------------------------------
  // Refusals
  // ---------------------------------------------------------------------------

  ghost predicate Usable<S>(m: Manager<S>) {
    !m.closed && m.initialized
  }

  /** Both queries work, no version is dirty, and no two registrations conflict. */
  ghost predicate Runnable<S>(m: Manager<S>, f: Faults, at: nat) {
    Usable(m) && NoDirty(m.db.rows) && Consistent(Registered(m.migrations)) && Quiet(f, at, at + 2)
  }

  /** What RunPending, Down and CheckReady have in common: why they do nothing at all. */
  ghost predicate RefusedAs<S>(m: Manager<S>, f: Faults, at: nat, e: Option<Error>) {
    && (e == Some(Closed) <==> m.closed)
    && (e == Some(NotInitialized) <==> !m.closed && !m.initialized)
    && (e == Some(QueryFailed) <==> Usable(m) && (f(at) || (NoDirty(m.db.rows) && f(at + 1))))
    && (e.Some? && e.value.Dirty? <==> Usable(m) && !f(at) && !NoDirty(m.db.rows))
    && (e.Some? && e.value.Dirty? ==>
          Sorted(e.value.versions)
          && forall v :: v in e.value.versions <==> v in m.db.rows && m.db.rows[v].dirty)
    && (e.Some? && e.value.Duplicate? <==>
          Usable(m) && Quiet(f, at, at + 2) && NoDirty(m.db.rows) && !Consistent(Registered(m.migrations)))
  }

  lemma DirtyListed(rows: map<string, Row>)
    ensures Sorted(Listed(DirtySet(rows)))
    ensures forall v :: v in Listed(DirtySet(rows)) <==> v in rows && rows[v].dirty
  {
    ListedIs(DirtySet(rows));
    forall v
      ensures v in Listed(DirtySet(rows)) <==> v in rows && rows[v].dirty
    {
      assert v in Elements(Listed(DirtySet(rows))) <==> v in DirtySet(rows);
    }
  }

  lemma RefusalTells<S>(m: Manager<S>, f: Faults, at: nat)
    ensures Refusal(m, f, at).None? <==> Runnable(m, f, at)
    ensures Refusal(m, f, at).Some? ==> RefusedAs(m, f, at, Refusal(m, f, at))
  {
    NoDirtyIff(m.db.rows);
    DirtyListed(m.db.rows);
    ClashIff(Registered(m.migrations));
  }

  /**
    RunPending, Down and CheckReady refuse for the same reasons, each exactly when it is
    one, and then change nothing.
   */
  lemma RefusesExactly<S>(exec: (string, S) -> S, m: Manager<S>, a: Action, m': Manager<S>)
    requires Step(exec, m, a, m') && (a.RunPending? || a.Down? || a.CheckReady?)
    ensures RefusedAs(m, a.f, a.at, a.e)
    ensures !Runnable(m, a.f, a.at) ==> m' == m && a.e.Some?
  {
    RefusalTells(m, a.f, a.at);
  }

  // ---------------------------------------------------------------------------
  // RunPending
  // ---------------------------------------------------------------------------

  /** The phases of applying a migration, each one database call. */
  function UpPhase(k: nat): Phase {
    match k
    case 0 => Begin
    case 1 => Exec
    case 2 => Record
    case _ => Commit
  }

  function DownPhase(k: nat): Phase {
    match k
    case 0 => Begin
    case 1 => Exec
    case 2 => Remove
    case _ => Commit
  }

  /** Call number c is the first from number at on that fails. */
  ghost predicate FirstFailure(f: Faults, at: nat, c: nat) {
    at <= c && f(c) && Quiet(f, at, c)
  }

  lemma UpStops(f: Faults, at: nat, v: string) returns (k: nat)
    requires UpResult(f, at, v).Some?
    ensures k < 4 && FirstFailure(f, at, at + k)
    ensures UpResult(f, at, v) == Some(Stopped(UpPhase(k), v, k != 0 && !f(at + k + 1)))
  {
    k := if f(at) then 0 else if f(at + 1) then 1 else if f(at + 2) then 2 else 3;
  }

  lemma DownStops(f: Faults, at: nat, v: string) returns (k: nat)
    requires DownResult(f, at, v).Some?
    ensures k < 4 && FirstFailure(f, at, at + k)
    ensures DownResult(f, at, v) == Some(Stopped(DownPhase(k), v, false))
  {
    k := if f(at) then 0 else if f(at + 1) then 1 else if f(at + 2) then 2 else 3;
  }

  /**
    A RunPending that may run makes two calls and then four for each migration to do, and
    succeeds exactly when none of them fails: then all of these are committed.
   */
  lemma RunPendingApplies<S>(exec: (string, S) -> S, m: Manager<S>, a: Action, m': Manager<S>)
    requires Step(exec, m, a, m') && a.RunPending? && Runnable(m, a.f, a.at)
    ensures a.e.None? <==> Quiet(a.f, a.at, a.at + 2 + 4 * |Todo(m)|)
    ensures a.e.None? ==> m'.db == UpAll(exec, m.db, Todo(m))
  {
    RefusalTells(m, a.f, a.at);
    if a.n < |Todo(m)| {
      var c := UpFails(a.f, a.at, a.n, |Todo(m)|, Todo(m)[a.n].version, a.e);
    }
  }

  /**
    Otherwise the first call that fails tells how many migrations are committed and in
    which phase the next one has stopped; that one is marked dirty unless it had not begun
    or the call that is to mark it fails too.
   */
  lemma RunPendingStopsAt<S>(exec: (string, S) -> S, m: Manager<S>, a: Action, m': Manager<S>) returns (c: nat)
    requires Step(exec, m, a, m') && a.RunPending? && Runnable(m, a.f, a.at) && a.e.Some?
    ensures FirstFailure(a.f, a.at, c) && c >= a.at + 2
    ensures var n, k := (c - a.at - 2) / 4, (c - a.at - 2) % 4;
      && n < |Todo(m)|
      && a.e == Some(Stopped(UpPhase(k), Todo(m)[n].version, k != 0 && !a.f(c + 1)))
      && MarkedOrNot(UpAll(exec, m.db, Todo(m)[..n]), Todo(m)[n], k != 0 && !a.f(c + 1), m'.db)
  {
    RefusalTells(m, a.f, a.at);
    c := UpFails(a.f, a.at, a.n, |Todo(m)|, Todo(m)[a.n].version, a.e);
    StoppedFresh(exec, m, a.n);
  }

  lemma UpFails(f: Faults, at: nat, n: nat, count: nat, v: string, e: Option<Error>) returns (c: nat)
    requires n < count && Quiet(f, at, at + 2 + 4 * n)
    requires e == UpResult(f, at + 2 + 4 * n, v) && e.Some?
    ensures c >= at + 2 && FirstFailure(f, at, c) && !Quiet(f, at, at + 2 + 4 * count)
    ensures (c - at - 2) / 4 == n
    ensures e == Some(Stopped(UpPhase((c - at - 2) % 4), v, (c - at - 2) % 4 != 0 && !f(c + 1)))
  {
    var phase := UpStops(f, at + 2 + 4 * n, v);
    c := at + 2 + 4 * n + phase;
    assert c < at + 2 + 4 * count;
  }

  /** d' is d, with a dirty row for x, which had none, if x is marked. */
  ghost predicate MarkedOrNot<S>(d: Db<S>, x: Migration, marked: bool, d': Db<S>) {
    && x.version !in d.rows
    && d' == if marked then d.(rows := d.rows[x.version := Row(x.owner, x.description, true)]) else d
  }

  /** The rows of what was committed name its owner and description and are clean; all other rows are as before. */
  lemma {:induction false} CommittedRows<S>(exec: (string, S) -> S, db: Db<S>, ms: seq<Migration>)
    requires Sorted(Order(ms))
    ensures var rows := UpAll(exec, db, ms).rows;
      && (forall x :: x in ms ==> x.version in rows && rows[x.version] == Row(x.owner, x.description, false))
      && (forall v :: v in rows && (forall x :: x in ms ==> x.version != v) ==> v in db.rows && rows[v] == db.rows[v])
      && (forall v :: v in db.rows ==> v in rows)
  {
    if ms != [] {
      var rest, last := ms[..|ms| - 1], ms[|ms| - 1];
      SortedFront(ms);
      CommittedRows(exec, db, rest);
      SortedOrder(ms);
      assert ms == rest + [last];
    }
  }

  // ---------------------------------------------------------------------------
  // Down
  // ---------------------------------------------------------------------------

  /** How many of count rows a Down(n) is to revert. */
  function Clamp(n: int, count: nat): nat {
    if n < 0 then 0 else if n < count then n else count
  }

  lemma TopHighest(keys: set<string>, n: int, k: nat)
    requires k <= |Top(Listed(keys), n)|
    ensures |Top(Listed(keys), n)| == Clamp(n, |Listed(keys)|)
    ensures forall j :: 0 <= j < k ==> Top(Listed(keys), n)[j] in keys
    ensures forall i, j :: 0 <= i < j < k ==> Less(Top(Listed(keys), n)[j], Top(Listed(keys), n)[i])
    ensures forall j, w :: 0 <= j < k && w in keys && w !in Top(Listed(keys), n)[..k] ==>
      Less(w, Top(Listed(keys), n)[j])
  {
    var vs, top := Listed(keys), Top(Listed(keys), n);
    ListedIs(keys);
    forall j | 0 <= j < k
      ensures top[j] in keys
    {
      assert vs[|vs| - 1 - j] in Elements(vs);
    }
    forall i, j | 0 <= i < j < k
      ensures Less(top[j], top[i])
    {
      assert LessAt(vs, |vs| - 1 - j, |vs| - 1 - i);
    }
    forall j, w | 0 <= j < k && w in keys && w !in top[..k]
      ensures Less(w, top[j])
    {
      assert w in Elements(vs);
      var i := BelowTop(vs, n, k, w);
      assert LessAt(vs, i, |vs| - 1 - j);
    }
  }

  lemma BelowTop(vs: seq<string>, n: int, k: nat, w: string) returns (i: nat)
    requires k <= |Top(vs, n)| && w in vs && w !in Top(vs, n)[..k]
    ensures i < |vs| - k && vs[i] == w
  {
    i :| 0 <= i < |vs| && vs[i] == w;
    forall j | |vs| - k <= j < |vs|
      ensures vs[j] in Top(vs, n)[..k]
    {
      assert Top(vs, n)[..k][|vs| - 1 - j] == vs[j];
    }
  }

  lemma {:induction false} UndoAllRows<S>(exec: (string, S) -> S, db: Db<S>, done: seq<Migration>)
    ensures UndoAll(exec, db, done).rows == db.rows - Versions(done)
  {
    if done != [] {
      var rest, last := done[..|done| - 1], done[|done| - 1];
      UndoAllRows(exec, db, rest);
      VersionsAppend(rest, last);
      assert done == rest + [last];
    }
  }

  /** done are highest versions of the table, the highest first, and the rows left are the others. */
  ghost predicate TookHighest(rows: map<string, Row>, done: seq<Migration>, rows': map<string, Row>) {
    && rows' == rows - Versions(done)
    && (forall x :: x in done ==> x.version in rows)
    && (forall i, j :: 0 <= i < j < |done| ==> Less(done[j].version, done[i].version))
    && (forall x, w :: x in done && w in rows' ==> Less(w, x.version))
  }

  lemma FirstOfTop(done: seq<Migration>, top: seq<string>)
    requires Order(done) <= top
    ensures forall i :: 0 <= i < |done| ==> done[i].version == top[i]
    ensures forall v :: v in Versions(done) <==> v in top[..|done|]
  {
    forall i | 0 <= i < |done|
      ensures done[i].version == top[i]
    {
      assert Order(done)[i] == done[i].version;
    }
    forall v | v in Versions(done)
      ensures v in top[..|done|]
    {
      var x :| x in done && x.version == v;
      var i :| 0 <= i < |done| && done[i] == x;
      assert top[..|done|][i] == v;
    }
    forall v | v in top[..|done|]
      ensures v in Versions(done)
    {
      var i :| 0 <= i < |done| && top[i] == v;
      assert done[i] in done;
    }
  }

  lemma DownHighest<S>(exec: (string, S) -> S, m: Manager<S>, n: int, d': Db<S>, done: seq<Migration>)
    requires Reverts(exec, m.db, Registered(m.migrations), Highest(m.db.rows, n), d', done)
    ensures TookHighest(m.db.rows, done, d'.rows)
  {
    var rows, top := m.db.rows, Highest(m.db.rows, n);
    UndoAllRows(exec, m.db, done);
    TakesHighest(rows, n, top, done);
  }

  lemma TakesHighest(rows: map<string, Row>, n: int, top: seq<string>, done: seq<Migration>)
    requires top == Top(Listed(rows.Keys), n) && Order(done) <= top
    ensures TookHighest(rows, done, rows - Versions(done))
  {
    TopHighest(rows.Keys, n, |done|);
    FirstOfTop(done, top);
    forall x | x in done
      ensures x.version in rows && forall w :: w in rows - Versions(done) ==> Less(w, x.version)
    {
      var i :| 0 <= i < |done| && done[i] == x;
      assert x.version == top[i];
    }
  }

  /** The highest version left. */
  ghost predicate IsHighest(rows: map<string, Row>, v: string) {
    v in rows && forall w :: w in rows ==> w == v || Less(w, v)
  }

  lemma NextHighest<S>(exec: (string, S) -> S, m: Manager<S>, n: int, d': Db<S>, done: seq<Migration>)
    requires Reverts(exec, m.db, Registered(m.migrations), Highest(m.db.rows, n), d', done)
    requires |done| < |Highest(m.db.rows, n)|
    ensures IsHighest(d'.rows, Highest(m.db.rows, n)[|done|])
  {
    UndoAllRows(exec, m.db, done);
    HighestLeft(m.db.rows, n, Highest(m.db.rows, n), done);
  }

  lemma HighestLeft(rows: map<string, Row>, n: int, top: seq<string>, done: seq<Migration>)
    requires top == Top(Listed(rows.Keys), n) && Order(done) <= top && |done| < |top|
    ensures IsHighest(rows - Versions(done), top[|done|])
  {
    var k := |done|;
    TopHighest(rows.Keys, n, k + 1);
    FirstOfTop(done, top);
    assert top[..k + 1] == top[..k] + [top[k]];
    if top[k] in top[..k] {
      var i :| 0 <= i < k && top[i] == top[k];
      LessTotal(top[k], top[i]);
    }
  }

  /**
    A Down(n) that may run reverts highest versions, the highest first, with four calls
    each, and succeeds exactly when n of them or all are reverted.
   */
  lemma DownReverts<S>(exec: (string, S) -> S, m: Manager<S>, a: Action, m': Manager<S>)
    requires Step(exec, m, a, m') && a.Down? && Runnable(m, a.f, a.at)
    ensures TookHighest(m.db.rows, a.done, m'.db.rows)
    ensures forall x :: x in a.done ==> x in Registered(m.migrations)
    ensures m'.db == UndoAll(exec, m.db, a.done)
    ensures Quiet(a.f, a.at, a.at + 2 + 4 * |a.done|)
    ensures |a.done| <= Clamp(a.count, |Listed(m.db.rows.Keys)|)
    ensures a.e.None? <==> |a.done| == Clamp(a.count, |Listed(m.db.rows.Keys)|)
  {
    RefusalTells(m, a.f, a.at);
    TopHighest(m.db.rows.Keys, a.count, 0);
    DownHighest(exec, m, a.count, m'.db, a.done);
  }

  /**
    A Down(n) that stops leaves what it was reverting as it was, the highest version left:
    one that is not registered, or one of whose four calls the first has failed.
   */
  lemma DownStopsAt<S>(exec: (string, S) -> S, m: Manager<S>, a: Action, m': Manager<S>)
    returns (c: nat, v: string)
    requires Step(exec, m, a, m') && a.Down? && Runnable(m, a.f, a.at) && a.e.Some?
    ensures IsHighest(m'.db.rows, v)
    ensures v !in Versions(Registered(m.migrations)) ==> a.e == Some(NotRegistered(v))
    ensures v in Versions(Registered(m.migrations)) ==>
      && a.at + 2 + 4 * |a.done| <= c < a.at + 6 + 4 * |a.done| && FirstFailure(a.f, a.at, c)
      && a.e == Some(Stopped(DownPhase((c - a.at - 2) % 4), v, false))
  {
    RefusalTells(m, a.f, a.at);
    v := Highest(m.db.rows, a.count)[|a.done|];
    c := a.at;
    if v in Versions(Registered(m.migrations)) {
      c := DownFails(a.f, a.at, |a.done|, v, a.e);
    }
    NextHighest(exec, m, a.count, m'.db, a.done);
  }

  lemma DownFails(f: Faults, at: nat, k: nat, v: string, e: Option<Error>) returns (c: nat)
    requires Quiet(f, at, at + 2 + 4 * k) && e == DownResult(f, at + 2 + 4 * k, v) && e.Some?
    ensures at + 2 + 4 * k <= c < at + 6 + 4 * k && FirstFailure(f, at, c)
    ensures e == Some(Stopped(DownPhase((c - at - 2) % 4), v, false))
  {
    var phase := DownStops(f, at + 2 + 4 * k, v);
    c := at + 2 + 4 * k + phase;
  }

  // ---------------------------------------------------------------------------
  // CheckReady and ClearDirty
  // ---------------------------------------------------------------------------

  /** CheckReady counts the registered versions without a row. */
  lemma ReadyTells<S>(exec: (string, S) -> S, m: Manager<S>, a: Action, m': Manager<S>)
    requires Step(exec, m, a, m') && a.CheckReady? && Runnable(m, a.f, a.at)
    ensures a.e.None? <==> forall x :: x in Registered(m.migrations) ==> x.version in m.db.rows
    ensures a.e.Some? ==> a.e == Some(PendingLeft(|Todo(m)|))
  {
    RefusalTells(m, a.f, a.at);
    TodoIs(m);
    assert Todo(m) != [] ==> Todo(m)[0] in Todo(m);
  }

  /** ClearDirty takes away the row of a dirty version with four calls, of which none may fail. */
  lemma ClearTells<S>(exec: (string, S) -> S, m: Manager<S>, a: Action, m': Manager<S>)
    requires Step(exec, m, a, m') && a.ClearDirty? && Usable(m)
    ensures a.e == Some(QueryFailed) <==> a.f(a.at)
    ensures a.e == Some(NotDirty(a.v)) <==> !a.f(a.at) && !(a.v in m.db.rows && m.db.rows[a.v].dirty)
    ensures a.e.None? <==> a.v in m.db.rows && m.db.rows[a.v].dirty && Quiet(a.f, a.at, a.at + 4)
    ensures m'.db == if a.e.None? then m.db.(rows := m.db.rows - {a.v}) else m.db
  {
    assert Quiet(a.f, a.at, a.at + 4) <==> !(a.f(a.at) || a.f(a.at + 1) || a.f(a.at + 2) || a.f(a.at + 3));
  }
}
