/**
  The migration manager, against a database whose calls may fail.
 */
module MigrationManager {
  import opened Wrappers
  import opened Strings
  import opened Migrations

  class Service<S(!new)> {
    // What SQL does to a schema.
    const exec: (string, S) -> S

    var migrations: map<string, seq<Migration>>
    var closed: bool
    var initialized: bool
    var db: Db<S>

    // Which database calls fail, and how many have been made.
    const fails: Faults
    var calls: nat

    constructor (exec: (string, S) -> S, db: Db<S>, fails: Faults)
      ensures M() == Manager(map[], false, false, db)
      ensures this.exec == exec && this.fails == fails && calls == 0
    {
      this.exec, this.db, this.fails, calls := exec, db, fails, 0;
      migrations, closed, initialized := map[], false, false;
    }

    ghost function M(): Manager<S>
      reads this
    {
      Manager(migrations, closed, initialized, db)
    }

    /** One database call. */
    method Call() returns (failed: bool)
      modifies this`calls
      ensures failed == fails(old(calls)) && calls == old(calls) + 1
    {
      failed := fails(calls);
      calls := calls + 1;
    }

    method Init(known: bool) returns (ok: bool)
      modifies this`initialized, this`calls
      ensures M() == Initing(old(M()), known)
      ensures ok == (known && !fails(old(calls)))
    {
      if !known {
        return false;
      }
      initialized := true;
      var failed := Call();
      ok := !failed;
    }

    method Close()
      modifies this`closed
      ensures M() == Closing(old(M())) && closed
    {
      closed := true;
    }

    method Register(owner: string, m: Migration)
      modifies this`migrations
      ensures M() == Registering(old(M()), owner, m)
      ensures var before := if owner in old(migrations) then old(migrations)[owner] else [];
        migrations == old(migrations)[owner := before + [m.(owner := owner)]]
    {
      var before := if owner in migrations then migrations[owner] else [];
      migrations := migrations[owner := before + [m.(owner := owner)]];
    }

    /** Every registered migration once, in version order, or the first conflicting version. */
    method RegisteredMigrations() returns (all: seq<Migration>, e: Option<Error>)
      ensures var c := Clash(Registered(migrations));
        if c.Some? then e == Some(Duplicate(c.value))
        else e.None? && all == Plan(Registered(migrations))
    {
      var names := InOrder(migrations.Keys);
      var byVersion, clash;
      ghost var seen;
      byVersion, clash, seen := IndexAll(migrations, names);
      if clash.Some? {
        return [], Some(Duplicate(clash.value));
      }
      all := ByVersion(byVersion, seen);
      e := None;
    }

    method DirtyVersions() returns (vs: seq<string>, failed: bool)
      modifies this`calls
      ensures calls == old(calls) + 1
      ensures failed == fails(old(calls))
      ensures vs == Listed(DirtySet(db.rows))
    {
      failed := Call();
      vs := InOrder(set v | v in db.rows && db.rows[v].dirty);
    }

    method TrackedVersions() returns (vs: seq<string>, failed: bool)
      modifies this`calls
      ensures calls == old(calls) + 1
      ensures failed == fails(old(calls))
      ensures vs == Listed(db.rows.Keys)
    {
      failed := Call();
      vs := InOrder(db.rows.Keys);
    }

    /** The checks before anything runs, in the order the three callers share. */
    method Prepare() returns (tracked: seq<string>, all: seq<Migration>, e: Option<Error>)
      modifies this`calls
      ensures e == Refusal(old(M()), fails, old(calls))
      ensures e.None? ==>
        tracked == Listed(db.rows.Keys) && all == Plan(Registered(migrations)) && calls == old(calls) + 2
    {
      tracked, all := [], [];
      if closed {
        return tracked, all, Some(Closed);
      }
      if !initialized {
        return tracked, all, Some(NotInitialized);
      }
      var dirty, failed := DirtyVersions();
      if failed {
        return tracked, all, Some(QueryFailed);
      }
      if dirty != [] {
        assert dirty[0] in Elements(dirty);
        return tracked, all, Some(Dirty(dirty));
      }
      assert Elements(dirty) == {};
      tracked, failed := TrackedVersions();
      if failed {
        return tracked, all, Some(QueryFailed);
      }
      all, e := RegisteredMigrations();
    }

    // -------------------------------------------------------------------------
    // Applying
    // -------------------------------------------------------------------------

    method MarkDirty(m: Migration) returns (failed: bool)
      modifies this`calls, this`db
      ensures failed == fails(old(calls))
      ensures db == if failed then old(db) else Mark(old(db), m)
      ensures calls == old(calls) + 1
    {
      failed := Call();
      if !failed {
        db := Mark(db, m);
      }
    }

    method ApplyUp(m: Migration) returns (e: Option<Error>)
      requires m.version !in db.rows
      modifies this`calls, this`db
      ensures e == UpResult(fails, old(calls), m.version)
      ensures e.None? ==> db == Up(exec, old(db), m)
      ensures e.Some? ==> StoppedAt(old(db), db, m, e)
      ensures old(calls) < calls && (e.None? ==> calls == old(calls) + 4)
    {
      var failed := Call();
      if failed {
        return Some(Stopped(Begin, m.version, false));
      }
      var tx;
      tx, e := ExecUp(db, m);
      if e.None? {
        e := RecordAndCommit(tx, m);
      }
    }

    /** The up SQL inside the transaction tx, whose effects only its commit shows. */
    method ExecUp(tx: Db<S>, m: Migration) returns (r: Db<S>, e: Option<Error>)
      modifies this`calls, this`db
      ensures old(calls) < calls
      ensures fails(old(calls)) ==>
        e == Some(Stopped(Exec, m.version, !fails(old(calls) + 1))) && StoppedAt(old(db), db, m, e)
      ensures !fails(old(calls)) ==>
        e.None? && db == old(db) && r == tx.(schema := exec(m.up, tx.schema)) && calls == old(calls) + 1
    {
      r, e := tx, None;
      var failed := Call();
      if failed {
        var unmarked := MarkDirty(m);
        e := Some(Stopped(Exec, m.version, !unmarked));
      } else {
        r := tx.(schema := exec(m.up, tx.schema));
      }
    }

    /** The new row, which must not exist yet, and the commit of everything in tx. */
    method RecordAndCommit(tx: Db<S>, m: Migration) returns (e: Option<Error>)
      requires m.version !in tx.rows
      modifies this`calls, this`db
      ensures e == if fails(old(calls)) then Some(Stopped(Record, m.version, !fails(old(calls) + 1)))
                   else if fails(old(calls) + 1) then Some(Stopped(Commit, m.version, !fails(old(calls) + 2)))
                   else None
      ensures e.Some? ==> StoppedAt(old(db), db, m, e)
      ensures old(calls) < calls && (e.None? ==> calls == old(calls) + 2)
      ensures e.None? ==>
        db == Db(tx.rows[m.version := Row(m.owner, m.description, false)], tx.schema, tx.log + [Applied(m)])
    {
      e := None;
      var failed := Call();
      if failed || m.version in tx.rows {
        var unmarked := MarkDirty(m);
        return Some(Stopped(Record, m.version, !unmarked));
      }
      failed := Call();
      if failed {
        var unmarked := MarkDirty(m);
        return Some(Stopped(Commit, m.version, !unmarked));
      }
      db := Db(tx.rows[m.version := Row(m.owner, m.description, false)], tx.schema, tx.log + [Applied(m)]);
    }

    /** Applies every pending migration in version order, up to the first that fails. */
    method RunPending() returns (e: Option<Error>, ghost n: nat)
      modifies this`calls, this`db
      ensures RanPending(exec, old(M()), fails, old(calls), M(), e, n)
    {
      ghost var m := M();
      n := 0;
      var tracked, all;
      tracked, all, e := Prepare();
      if e.Some? {
        Refused(exec, m, fails, old(calls));
        return;
      }
      PlanSorted(migrations);
      e, n := ApplyPending(tracked, all);
      Finished(exec, m, fails, old(calls), db, e, n);
    }

    method ApplyPending(tracked: seq<string>, all: seq<Migration>) returns (e: Option<Error>, ghost n: nat)
      requires tracked == Listed(db.rows.Keys) && Sorted(Order(all))
      modifies this`calls, this`db
      ensures Progress(exec, old(db), Pending(all, old(db).rows.Keys), fails, old(calls), db, e, n)
    {
      TrackedHas(db.rows.Keys);
      ghost var before := db;
      for i := 0 to |all|
        invariant Midway(exec, before, all, i, db)
        invariant calls == old(calls) + 4 * Count(before, all, i) && Quiet(fails, old(calls), calls)
      {
        if all[i].version !in tracked {
          Stepped(exec, before, all, i, db);
          n := Count(before, all, i);
          e := ApplyUp(all[i]);
          if e.Some? {
            return;
          }
        } else {
          Skipped(exec, before, all, i, db);
        }
      }
      assert all[..|all|] == all;
      e, n := None, |Pending(all, before.rows.Keys)|;
    }

    // -------------------------------------------------------------------------
    // Reverting, clearing and reporting
    // -------------------------------------------------------------------------

    method ApplyDown(m: Migration) returns (e: Option<Error>)
      modifies this`calls, this`db
      ensures e == DownResult(fails, old(calls), m.version)
      ensures db == if e.None? then Undo(exec, old(db), m) else old(db)
      ensures old(calls) < calls && (e.None? ==> calls == old(calls) + 4)
    {
      var failed := Call();
      if failed {
        return Some(Stopped(Begin, m.version, false));
      }
      var tx := db;
      failed := Call();
      if failed {
        return Some(Stopped(Exec, m.version, false));
      }
      tx := tx.(schema := exec(m.down, tx.schema));
      failed := Call();
      if failed {
        return Some(Stopped(Remove, m.version, false));
      }
      tx := tx.(rows := tx.rows - {m.version});
      failed := Call();
      if failed {
        return Some(Stopped(Commit, m.version, false));
      }
      db := tx.(log := tx.log + [Reverted(m)]);
      e := None;
    }

    /** Reverts the n highest entries of the table, highest first, up to the first that fails. */
    method Down(n: int) returns (e: Option<Error>, ghost done: seq<Migration>)
      modifies this`calls, this`db
      ensures RanDown(exec, old(M()), fails, old(calls), n, M(), e, done)
    {
      ghost var m := M();
      done := [];
      var tracked, all;
      tracked, all, e := Prepare();
      if e.Some? {
        DownRefused(exec, m, fails, old(calls), n);
        return;
      }
      PlanVersions(migrations);
      e, done := Revert(tracked, all, n, Registered(migrations), Highest(db.rows, n));
      DownFinished(exec, m, fails, old(calls), n, db, e, done);
    }

    method Revert(tracked: seq<string>, all: seq<Migration>, n: int, ghost reg: seq<Migration>, ghost top: seq<string>)
      returns (e: Option<Error>, ghost done: seq<Migration>)
      requires top == Top(tracked, n)
      requires Versions(all) == Versions(reg) && forall m :: m in all ==> m in reg
      modifies this`calls, this`db
      ensures Descent(exec, old(db), reg, top, fails, old(calls), db, e, done)
    {
      var registered := VersionMap(all);
      var count := if n < 0 then 0 else if n < |tracked| then n else |tracked|;
      ghost var before := db;
      e, done := None, [];
      for k := 0 to count
        invariant |done| == k && calls == old(calls) + 4 * k && Quiet(fails, old(calls), calls)
        invariant Reverts(exec, before, reg, top, db, done)
      {
        ghost var d, m := db, done;
        e, m := RevertOne(tracked[|tracked| - 1 - k], registered, reg);
        if e.Some? {
          return;
        }
        RevertsMore(exec, before, reg, top, d, done, m[0]);
        done := done + m;
      }
      e := None;
    }

    /** Reverts what is registered as v; m holds it on success. */
    method RevertOne(v: string, registered: map<string, Migration>, ghost reg: seq<Migration>)
      returns (e: Option<Error>, ghost m: seq<Migration>)
      requires registered.Keys == Versions(reg)
      requires forall u :: u in registered ==> registered[u] in reg && registered[u].version == u
      modifies this`calls, this`db
      ensures e.None? ==> calls == old(calls) + 4 && Quiet(fails, old(calls), calls)
      ensures e.None? ==> |m| == 1 && m[0] in reg && m[0].version == v && db == Undo(exec, old(db), m[0])
      ensures e.Some? ==> db == old(db) && DownStopped(fails, old(calls), reg, v, e)
    {
      m := [];
      if v !in registered {
        return Some(NotRegistered(v)), m;
      }
      m := [registered[v]];
      e := ApplyDown(registered[v]);
    }

    method ClearDirty(v: string) returns (e: Option<Error>)
      modifies this`calls, this`db
      ensures RanClear(old(M()), fails, old(calls), v, M(), e)
    {
      if closed {
        return Some(Closed);
      }
      if !initialized {
        return Some(NotInitialized);
      }
      var dirty, failed := DirtyVersions();
      if failed {
        return Some(QueryFailed);
      }
      TrackedHas(DirtySet(db.rows));
      if v !in dirty {
        return Some(NotDirty(v));
      }
      failed := Call();
      if failed {
        return Some(Stopped(Begin, v, false));
      }
      failed := Call();
      if failed {
        return Some(Stopped(Remove, v, false));
      }
      failed := Call();
      if failed {
        return Some(Stopped(Commit, v, false));
      }
      db := db.(rows := db.rows - {v});
      e := None;
    }

    method CheckReady() returns (e: Option<Error>)
      modifies this`calls
      ensures e == Readiness(old(M()), fails, old(calls))
    {
      var tracked, all;
      tracked, all, e := Prepare();
      if e.Some? {
        return;
      }
      var pending := CountPending(tracked, all);
      if pending > 0 {
        e := Some(PendingLeft(pending));
      }
    }

    method CountPending(tracked: seq<string>, all: seq<Migration>) returns (pending: nat)
      requires tracked == Listed(db.rows.Keys)
      ensures pending == |Pending(all, db.rows.Keys)|
    {
      TrackedHas(db.rows.Keys);
      pending := 0;
      for i := 0 to |all|
        invariant pending == |Pending(all[..i], db.rows.Keys)|
      {
        assert all[..i + 1][..i] == all[..i];
        if all[i].version !in tracked {
          pending := pending + 1;
        }
      }
      assert all[..|all|] == all;
    }
  }

  lemma PlanSorted(reg: map<string, seq<Migration>>)
    requires Clash(Registered(reg)).None?
    ensures Sorted(Order(Plan(Registered(reg))))
  {
    ClashIff(Registered(reg));
    PlanIs(Registered(reg));
  }

  lemma PlanVersions(reg: map<string, seq<Migration>>)
    requires Clash(Registered(reg)).None?
    ensures Versions(Plan(Registered(reg))) == Versions(Registered(reg))
    ensures forall m :: m in Plan(Registered(reg)) ==> m in Registered(reg)
  {
    ClashIff(Registered(reg));
    PlanIs(Registered(reg));
  }

  lemma TrackedHas(keys: set<string>)
    ensures forall v :: v in Listed(keys) <==> v in keys
  {
    ListedIs(keys);
    forall v
      ensures v in Listed(keys) <==> v in keys
    {
      assert v in Elements(Listed(keys)) <==> v in keys;
    }
  }

  method VersionMap(all: seq<Migration>) returns (r: map<string, Migration>)
    ensures r.Keys == Versions(all)
    ensures forall v :: v in r ==> r[v] in all && r[v].version == v
  {
    r := map[];
    for i := 0 to |all|
      invariant r.Keys == Versions(all[..i])
      invariant forall v :: v in r ==> r[v] in all && r[v].version == v
    {
      VersionsAppend(all[..i], all[i]);
      assert all[..i + 1] == all[..i] + [all[i]];
      r := r[all[i].version := all[i]];
    }
    assert all[..|all|] == all;
  }

  method InOrder(s: set<string>) returns (vs: seq<string>)
    ensures vs == Listed(s) && forall i :: 0 <= i < |vs| ==> vs[i] in s
  {
    vs := Range(s);
    SortDistinct(vs);
    ListedIs(s);
    SortedUnique(Sort(vs), Listed(s));
    vs := Sort(vs);
    assert forall i :: 0 <= i < |vs| ==> vs[i] in Elements(vs);
  }

  /** Adds migs to the index up to the first that conflicts with an earlier one. */
  method Index(before: map<string, Migration>, migs: seq<Migration>, ghost seen: seq<Migration>)
    returns (byVersion: map<string, Migration>, clash: Option<string>, ghost all: seq<Migration>)
    requires Indexed(before, seen)
    ensures clash.None? ==> all == seen + migs && Indexed(byVersion, all)
    ensures clash.Some? ==> all <= seen + migs && Clash(all) == clash
  {
    byVersion, clash, all := before, None, seen;
    for j := 0 to |migs|
      invariant all == seen + migs[..j]
      invariant Indexed(byVersion, all)
    {
      var mig := migs[j];
      assert migs[..j + 1] == migs[..j] + [mig];
      IndexedStep(byVersion, all, mig);
      all := all + [mig];
      assert all == seen + migs[..j + 1];
      if mig.version in byVersion && byVersion[mig.version] != mig {
        assert all <= seen + migs;
        return byVersion, Some(mig.version), all;
      }
      if mig.version !in byVersion {
        byVersion := byVersion[mig.version := mig];
      }
    }
    assert migs[..|migs|] == migs;
  }

  /** Indexes what the services of names registered, up to the first conflict. */
  method IndexAll(reg: map<string, seq<Migration>>, names: seq<string>)
    returns (byVersion: map<string, Migration>, clash: Option<string>, ghost seen: seq<Migration>)
    requires forall i :: 0 <= i < |names| ==> names[i] in reg
    ensures clash == Clash(Visited(reg, names))
    ensures clash.None? ==> seen == Visited(reg, names) && Indexed(byVersion, seen)
  {
    byVersion, clash, seen := map[], None, [];
    for i := 0 to |names|
      invariant seen == Visited(reg, names[..i])
      invariant Indexed(byVersion, seen)
    {
      VisitedNext(reg, names, i);
      byVersion, clash, seen := Index(byVersion, reg[names[i]], seen);
      if clash.Some? {
        VisitedPrefix(reg, names, i + 1);
        ClashPrefix(seen, Visited(reg, names));
        return;
      }
    }
    assert names[..|names|] == names;
    clash := None;
  }

  lemma VisitedNext(reg: map<string, seq<Migration>>, names: seq<string>, i: nat)
    requires i < |names| && names[i] in reg
    ensures Visited(reg, names[..i + 1]) == Visited(reg, names[..i]) + reg[names[i]]
  {
    assert names[..i + 1][..i] == names[..i];
  }

  method ByVersion(byVersion: map<string, Migration>, ghost seen: seq<Migration>) returns (all: seq<Migration>)
    requires Indexed(byVersion, seen)
    ensures all == Plan(seen)
  {
    var vs := InOrder(byVersion.Keys);
    all := seq(|vs|, i requires 0 <= i < |vs| => byVersion[vs[i]]);
    IndexedPlan(byVersion, seen, vs, all);
  }

  /** byVersion holds each entry of seen under its version; no two conflict. */
  ghost predicate Indexed(byVersion: map<string, Migration>, seen: seq<Migration>) {
    && Clash(seen).None?
    && (forall m {:trigger Kept(byVersion, m)} :: m in seen ==> Kept(byVersion, m))
    && (forall v {:trigger Entry(byVersion, seen, v)} :: v in byVersion ==> Entry(byVersion, seen, v))
  }

  predicate Kept(byVersion: map<string, Migration>, m: Migration) {
    m.version in byVersion && byVersion[m.version] == m
  }

  predicate Entry(byVersion: map<string, Migration>, seen: seq<Migration>, v: string) {
    v in byVersion && byVersion[v] in seen && byVersion[v].version == v
  }

  /** An entry conflicts with those seen exactly when its version's entry differs from it. */
  lemma IndexedStep(byVersion: map<string, Migration>, seen: seq<Migration>, mig: Migration)
    requires Indexed(byVersion, seen)
    ensures var clash := mig.version in byVersion && byVersion[mig.version] != mig;
      if clash then Clash(seen + [mig]) == Some(mig.version)
      else Indexed(if mig.version in byVersion then byVersion else byVersion[mig.version := mig], seen + [mig])
  {
    assert (seen + [mig])[..|seen|] == seen;
    var next := if mig.version in byVersion then byVersion else byVersion[mig.version := mig];
    if mig.version in byVersion {
      assert Entry(byVersion, seen, mig.version);
    }
    if Conflicts(seen, mig) {
      var m :| m in seen && m.version == mig.version && m != mig;
      assert Kept(byVersion, m);
    } else {
      forall m | m in seen + [mig]
        ensures Kept(next, m)
      {
        assert m in seen ==> Kept(byVersion, m);
      }
      forall v | v in next
        ensures Entry(next, seen + [mig], v)
      {
        assert v in byVersion ==> Entry(byVersion, seen, v);
      }
    }
  }

  lemma IndexedPlan(byVersion: map<string, Migration>, seen: seq<Migration>, vs: seq<string>, all: seq<Migration>)
    requires Indexed(byVersion, seen)
    requires vs == Listed(byVersion.Keys)
    requires |all| == |vs| && forall i :: 0 <= i < |vs| ==> vs[i] in byVersion && all[i] == byVersion[vs[i]]
    ensures all == Plan(seen)
  {
    ClashIff(seen);
    ListedIs(byVersion.Keys);
    forall i | 0 <= i < |all|
      ensures all[i] in seen && all[i].version == vs[i]
    {
      assert Entry(byVersion, seen, vs[i]);
    }
    assert Order(all) == vs;
    forall m | m in seen
      ensures m in all
    {
      assert Kept(byVersion, m);
      assert m.version in Elements(vs);
      var i :| 0 <= i < |vs| && vs[i] == m.version;
      assert all[i] == m;
    }
    PlanUnique(seen, all);
  }
}
