/**
  The records of the top-level router, and what each call does to them.
 */
module RouterRecords {
  import opened Wrappers
  import opened Routes

  /** booked counts the recorded calls that have been built; the bookkeeping follows from the journal. */
  datatype Records = Records(
    mws: seq<Middleware>,
    ops: seq<Op>,
    booked: nat,
    sealed: bool,
    scope: seq<string>,
    env: Env,
    journal: seq<Event>)

  const NEW := Records([], [], 0, false, [], Env(map[], map[]), [])

  datatype Call =
    | Register(service: string, name: string, fn: nat)
    | UseAll(mws: seq<Middleware>)
    | Add(op: Op)
    | Seal
    | RemoveService(service: string)

  /** Whether m names a middleware in use, or needs no name. */
  predicate InUse(env: Env, m: Middleware) {
    m.Direct? || m.name in env.registry
  }

  ghost predicate AllLive(env: Env, mws: seq<Middleware>) {
    forall i :: 0 <= i < |mws| ==> InUse(env, mws[i])
  }

  ghost predicate AllKnown(env: Env, mws: seq<Middleware>) {
    forall i :: 0 <= i < |mws| ==> Knows(env, mws[i])
  }

  /** Every name the records use resolves. */
  ghost predicate Builds(r: Records) {
    AllKnown(r.env, r.mws) && KnowsAll(r.env, AllEntries(r.ops))
  }

  /** The tree that building the records from scratch gives. */
  ghost function TreeOf(r: Records): Tree<Link> {
    ResolveTree(r.env, Plan(r.mws, AllEntries(r.ops), RemovedOf(r.journal)))
  }

  ghost function Registering(r: Records, s: string, n: string, fn: nat): Records {
    r.(env := Env(r.env.registry[n := Owned(s, fn)], r.env.retired - {n}))
  }

  ghost function Using(r: Records, mws: seq<Middleware>): Records {
    r.(mws := r.mws + mws, scope := r.scope + NamesOf(mws))
  }

  /** A Handle call is booked when made; a callback when it first runs, which on a sealed router is now. */
  ghost function Adding(r: Records, op: Op): Records {
    r.(ops := r.ops + [op],
       booked := if r.sealed then r.booked + 1 else r.booked,
       journal := r.journal +
         if op.Handle? then Bookings(r.scope, Serves(TOP, op))
         else if r.sealed then Bookings(r.scope, Entries(TOP, op))
         else [])
  }

  ghost function Sealing(r: Records): Records {
    r.(sealed := true, booked := |r.ops|, journal := r.journal + FirstRuns(r.scope, r.ops, r.booked))
  }

  ghost function Removing(r: Records, s: string): Records {
    r.(env := Retire(r.env, s), journal := r.journal + [Remove(s)])
  }

  /** The records after call c, or None where the source panics. */
  ghost function Do(r: Records, c: Call): Option<Records> {
    match c
    case Register(s, n, fn) => Some(Registering(r, s, n, fn))
    case UseAll(mws) => if AllLive(r.env, mws) then Some(Using(r, mws)) else None
    case Add(op) =>
      if op.Use? then None
      else if op.Handle? && !AllLive(r.env, op.mws) then None
      else if r.sealed && !KnowsAll(r.env, Entries(TOP, op)) then None
      else Some(Adding(r, op))
    case Seal => if r.sealed then Some(r) else if Builds(r) then Some(Sealing(r)) else None
    case RemoveService(s) => Some(Removing(r, s))
  }

  /** Whether call c on the records r builds a new tree. */
  ghost predicate Republishes(r: Records, c: Call) {
    match c
    case Register(_, n, _) => r.sealed && n in r.env.retired
    case Seal => !r.sealed
    case _ => r.sealed
  }

  /** The call c turned records r and tree t into r' and t'; when it panics, t still answers. */
  ghost predicate Did(r: Records, t: Tree<Link>, c: Call, ok: bool, r': Records, t': Tree<Link>) {
    && (ok <==> Do(r, c).Some?)
    && (ok ==> r' == Do(r, c).value && t' == if Republishes(r, c) then TreeOf(r') else t)
    && (!ok ==> t' == t)
  }

  /** Use is recorded apart from the other calls. */
  ghost predicate NoUse(ops: seq<Op>) {
    forall i :: 0 <= i < |ops| ==> !ops[i].Use?
  }

  /** What holds of the records between calls. */
  ghost predicate Good(r: Records) {
    && NoUse(r.ops)
    && r.booked == (if r.sealed then |r.ops| else 0)
    && r.env.registry.Keys !! r.env.retired.Keys
    && AllKnown(r.env, r.mws)
    && (r.sealed ==> KnowsAll(r.env, AllEntries(r.ops)))
    && BookBag(r.journal) == OpsBag(r.ops, r.booked)
  }

  lemma RegisterGood(r: Records, s: string, n: string, fn: nat)
    requires Good(r)
    ensures Good(Registering(r, s, n, fn))
  {
    KnowsStill(r.env, Registering(r, s, n, fn).env, AllEntries(r.ops));
  }

  lemma UseGood(r: Records, mws: seq<Middleware>)
    requires Good(r) && AllLive(r.env, mws)
    ensures Good(Using(r, mws))
  {
    forall i | 0 <= i < |r.mws + mws|
      ensures Knows(r.env, (r.mws + mws)[i])
    {
      assert i >= |r.mws| ==> InUse(r.env, mws[i - |r.mws|]);
    }
  }

  lemma AddTally(r: Records, op: Op)
    requires Good(r) && Do(r, Add(op)).Some?
    ensures BookBag(Adding(r, op).journal) == OpsBag(Adding(r, op).ops, Adding(r, op).booked)
  {
    if op.Handle? {
      TallyHandle(r.scope, r.journal, r.ops, r.booked, op);
      TallyAgain(r.ops, op, r.booked, Adding(r, op).booked);
    } else if r.sealed {
      TallyFirst(r.scope, r.ops, op);
      BookBagConcat(r.journal, Bookings(r.scope, Entries(TOP, op)));
    } else {
      TallyCallback(r.ops, r.booked, op);
      assert Adding(r, op).journal == r.journal;
    }
  }

  lemma AddKnown(r: Records, op: Op)
    requires Good(r) && r.sealed && Do(r, Add(op)).Some?
    ensures KnowsAll(r.env, AllEntries(r.ops + [op]))
  {
    KnowsAppend(r.env, r.ops, op);
  }

  lemma AddGood(r: Records, op: Op)
    requires Good(r) && Do(r, Add(op)).Some?
    ensures Good(Adding(r, op))
  {
    AddTally(r, op);
    if r.sealed {
      AddKnown(r, op);
    }
  }

  lemma SealGood(r: Records)
    requires Good(r) && !r.sealed && Builds(r)
    ensures Good(Sealing(r))
  {
    FirstRunsBook(r.scope, r.ops, 0);
    BookBagConcat(r.journal, FirstRuns(r.scope, r.ops, 0));
  }

  lemma RemoveGood(r: Records, s: string)
    requires Good(r)
    ensures Good(Removing(r, s))
  {
    KnowsStill(r.env, Retire(r.env, s), AllEntries(r.ops));
    JournalRemove(r.journal, s);
  }

  /** Every call that does not panic keeps the records good. */
  lemma DoGood(r: Records, c: Call)
    requires Good(r) && Do(r, c).Some?
    ensures Good(Do(r, c).value)
  {
    match c {
      case Register(s, n, fn) => RegisterGood(r, s, n, fn);
      case UseAll(mws) => UseGood(r, mws);
      case Add(op) => AddGood(r, op);
      case Seal =>
        if !r.sealed {
          SealGood(r);
        }
      case RemoveService(s) => RemoveGood(r, s);
    }
  }

  lemma TallyAgain(ops: seq<Op>, op: Op, a: nat, b: nat)
    requires op.Handle? && a <= |ops| && (b == a || (a == |ops| && b == a + 1))
    ensures OpsBag(ops + [op], a) == OpsBag(ops + [op], b)
  {
    assert (ops + [op])[..|ops|] == ops;
    OpsBagAll(ops, |ops|);
    OpsBagAll(ops, |ops| + 1);
  }

  lemma TallyFirst(scope: seq<string>, ops: seq<Op>, op: Op)
    requires !op.Handle?
    ensures OpsBag(ops + [op], |ops| + 1) == OpsBag(ops, |ops|) + BookBag(Bookings(scope, Entries(TOP, op)))
  {
    assert (ops + [op])[..|ops|] == ops;
    OpsBagAll(ops, |ops| + 1);
    BookBagBookings(scope, Entries(TOP, op));
  }

  /** The records once all their calls have been built. */
  ghost function Built(r: Records): Records {
    r.(booked := |r.ops|, journal := r.journal + FirstRuns(r.scope, r.ops, r.booked))
  }

  /** The records with op recorded, and booked if it is a Handle call, before anything is built. */
  ghost function Recorded(r: Records, op: Op): Records {
    r.(ops := r.ops + [op], journal := r.journal + if op.Handle? then Bookings(r.scope, Serves(TOP, op)) else [])
  }

  /** Building with the new call fails as the call is to fail. */
  lemma AddFails(r: Records, op: Op)
    requires Good(r) && !op.Use? && (op.Handle? ==> AllLive(r.env, op.mws))
    ensures Do(r, Add(op)).Some? <==> (r.sealed ==> Builds(Recorded(r, op)))
  {
    KnowsAppend(r.env, r.ops, op);
  }

  /** Building with the new call gives the records the call is to give. */
  lemma AddGives(r: Records, op: Op)
    requires r.booked == if r.sealed then |r.ops| else 0
    ensures r.sealed ==> Built(Recorded(r, op)) == Adding(r, op)
    ensures !r.sealed ==> Recorded(r, op) == Adding(r, op)
  {
    FirstRunsMore(r.scope, r.ops, op);
    if r.sealed && !op.Handle? {
      assert r.journal + [] == r.journal;
    }
  }

  lemma AddBuilds(r: Records, op: Op)
    requires Good(r) && !op.Use? && (op.Handle? ==> AllLive(r.env, op.mws))
    ensures Do(r, Add(op)).Some? <==> (r.sealed ==> Builds(Recorded(r, op)))
    ensures r.sealed ==> Built(Recorded(r, op)) == Adding(r, op)
    ensures !r.sealed ==> Recorded(r, op) == Adding(r, op)
  {
    AddFails(r, op);
    AddGives(r, op);
  }

  lemma RebuildsSame(r: Records)
    requires Good(r) && r.sealed
    ensures Built(r) == r && Builds(r)
  {
    FirstRunsNone(r.scope, r.ops, r.booked);
  }

  lemma EmptyTree()
    ensures TreeOf(NEW) == Tree([], map[], map[]) && Good(NEW)
  {
    var bare: Tree<Middleware> := Tree([], map[], map[]);
    OverlayNone(bare);
    assert ResolveTree(NEW.env, bare) == Tree([], map[], map[]);
    assert Down(map[]) == {};
  }

  // ---------------------------------------------------------------------------
  // Going on after a panic
  // ---------------------------------------------------------------------------

  /** How many of mws come before the first that is not in use. */
  ghost function LiveUpTo(env: Env, mws: seq<Middleware>): (n: nat)
    ensures n <= |mws| && AllLive(env, mws[..n])
    ensures n < |mws| ==> !InUse(env, mws[n])
    ensures n == |mws| <==> AllLive(env, mws)
  {
    if mws == [] then 0
    else
      var n := LiveUpTo(env, mws[..|mws| - 1]);
      assert mws[..|mws| - 1][..n] == mws[..n];
      if n == |mws| - 1 && InUse(env, mws[n]) then |mws| else n
  }

  /** The call panics before anything is built. */
  ghost predicate Refuses(r: Records, c: Call) {
    match c
    case UseAll(mws) => !AllLive(r.env, mws)
    case Add(op) => op.Use? || (op.Handle? && !AllLive(r.env, op.mws))
    case _ => false
  }

  /** The records as call c leaves them before anything is built; Use queues what comes before a name not in use. */
  ghost function Changed(r: Records, c: Call): Records {
    match c
    case Register(s, n, fn) => Registering(r, s, n, fn)
    case UseAll(mws) => Using(r, mws[..LiveUpTo(r.env, mws)])
    case Add(op) => if Refuses(r, c) then r else Recorded(r, op)
    case Seal => r.(sealed := true)
    case RemoveService(s) => Removing(r, s)
  }

  ghost predicate Rebuilds(r: Records, c: Call) {
    !Refuses(r, c) && Republishes(r, c)
  }

  /** What building the records books, up to the first unknown name. */
  ghost function Bookable(r: Records): seq<Event> {
    if AllKnown(r.env, r.mws) then Tried(r.env, r.scope, r.ops, r.booked) else []
  }

  /** The records after an attempt to build them; the calls count as built only when it succeeds. */
  ghost function Attempt(r: Records): Records {
    r.(journal := r.journal + Bookable(r), booked := if Builds(r) then |r.ops| else r.booked)
  }

  ghost predicate Panics(r: Records, c: Call) {
    Refuses(r, c) || (Rebuilds(r, c) && !Builds(Changed(r, c)))
  }

  /** The records after call c, whether it panics or not. */
  ghost function Outcome(r: Records, c: Call): Records {
    if Rebuilds(r, c) then Attempt(Changed(r, c)) else Changed(r, c)
  }

  /** The call c turned records r and tree t into r' and t'; a tree that could not be built does not answer. */
  ghost predicate Left(r: Records, t: Tree<Link>, c: Call, ok: bool, r': Records, t': Tree<Link>) {
    && (ok <==> !Panics(r, c)) && r' == Outcome(r, c)
    && t' == if ok && Republishes(r, c) then TreeOf(r') else t
  }

  /** What holds of the records between calls, whatever has panicked. */
  ghost predicate Sound(r: Records) {
    && NoUse(r.ops)
    && r.booked <= |r.ops| && (!r.sealed ==> r.booked == 0)
    && r.env.registry.Keys !! r.env.retired.Keys
    && AllKnown(r.env, r.mws)
    && KnowsAll(r.env, AllEntries(r.ops[..r.booked]))
  }

  lemma GoodSound(r: Records)
    requires Good(r)
    ensures Sound(r)
  {
    assert r.ops[..|r.ops|] == r.ops;
    assert AllEntries(r.ops[..0]) == [];
  }

  lemma ChangedSound(r: Records, c: Call)
    requires Sound(r)
    ensures Sound(Changed(r, c)) && NamesOfEnv(r.env) <= NamesOfEnv(Changed(r, c).env)
  {
    var q := Changed(r, c);
    KnowsStill(r.env, q.env, AllEntries(r.ops[..r.booked]));
    assert q.ops[..q.booked] == r.ops[..r.booked];
    if c.UseAll? {
      var live := c.mws[..LiveUpTo(r.env, c.mws)];
      forall i | 0 <= i < |q.mws|
        ensures Knows(q.env, q.mws[i])
      {
        assert i >= |r.mws| ==> InUse(r.env, live[i - |r.mws|]);
      }
    }
  }

  /** Every call, panicking or not, keeps the records sound. */
  lemma OutcomeSound(r: Records, c: Call)
    requires Sound(r)
    ensures Sound(Outcome(r, c)) && NamesOfEnv(r.env) <= NamesOfEnv(Outcome(r, c).env)
  {
    ChangedSound(r, c);
    var q := Changed(r, c);
    assert q.ops[..|q.ops|] == q.ops;
  }

  ghost function NamesOfEnv(env: Env): set<string> {
    env.registry.Keys + env.retired.Keys
  }

  lemma AttemptBuilt(r: Records)
    requires Builds(r)
    ensures Attempt(r) == Built(r)
  {
    TriedAll(r.env, r.scope, r.ops, r.booked);
  }

  /** Before anything has panicked, a call does what Do says. */
  lemma DoIs(r: Records, c: Call)
    requires Good(r)
    ensures Do(r, c).None? <==> Panics(r, c)
    ensures Do(r, c).Some? ==> Do(r, c).value == Outcome(r, c)
  {
    var q := Changed(r, c);
    match c {
      case Register(s, n, fn) =>
        RegisterGood(r, s, n, fn);
        StaysBuilt(q);
      case UseAll(mws) =>
        if AllLive(r.env, mws) {
          assert mws[..|mws|] == mws;
          UseGood(r, mws);
          StaysBuilt(q);
        }
      case Add(op) =>
        if !Refuses(r, c) {
          AddBuilds(r, op);
          if Builds(q) {
            AttemptBuilt(q);
          }
        }
      case Seal =>
        if Builds(q) {
          AttemptBuilt(q);
        }
      case RemoveService(s) =>
        RemoveGood(r, s);
        StaysBuilt(q);
    }
  }

  lemma StaysBuilt(r: Records)
    requires Good(r)
    ensures r.sealed ==> Builds(r) && Attempt(r) == r
  {
    if r.sealed {
      RebuildsSame(r);
      AttemptBuilt(r);
    }
  }

  lemma LeftIsDid(r: Records, t: Tree<Link>, c: Call, ok: bool, r': Records, t': Tree<Link>)
    requires Good(r) && Left(r, t, c, ok, r', t')
    ensures Did(r, t, c, ok, r', t') && (ok ==> Good(r'))
  {
    DoIs(r, c);
    if ok {
      DoGood(r, c);
    }
  }

  /** A recorded call that was never built uses an unknown name. */
  ghost predicate Stuck(r: Records)
    requires r.booked <= |r.ops|
  {
    !KnowsAll(r.env, AllEntries(r.ops[r.booked..]))
  }

  lemma EntriesMore(ops: seq<Op>, op: Op)
    ensures AllEntries(ops + [op]) == AllEntries(ops) + Entries(TOP, op)
  {
    assert (ops + [op])[..|ops|] == ops;
  }

  lemma {:induction false} EntriesConcat(a: seq<Op>, b: seq<Op>)
    ensures AllEntries(a + b) == AllEntries(a) + AllEntries(b)
    decreases |b|
  {
    if b == [] {
      assert a + b == a;
    } else {
      var rest, op := b[..|b| - 1], b[|b| - 1];
      EntriesConcat(a, rest);
      assert a + b == (a + rest) + [op] && b == rest + [op];
      EntriesMore(a + rest, op);
      EntriesMore(rest, op);
    }
  }

  /** Sound records build unless they are stuck. */
  lemma BuildsIff(r: Records)
    requires Sound(r)
    ensures Builds(r) <==> !Stuck(r)
  {
    assert r.ops == r.ops[..r.booked] + r.ops[r.booked..];
    EntriesConcat(r.ops[..r.booked], r.ops[r.booked..]);
    KnowsConcat(r.env, AllEntries(r.ops[..r.booked]), AllEntries(r.ops[r.booked..]));
  }

  /** Registering a name that is known already, or removing a service, makes no name known or unknown. */
  lemma SameNames(r: Records, q: Records)
    requires q.ops == r.ops && q.booked == r.booked <= |r.ops| && NamesOfEnv(q.env) == NamesOfEnv(r.env)
    ensures Stuck(q) <==> Stuck(r)
  {
    KnowsStill(r.env, q.env, AllEntries(r.ops[r.booked..]));
    KnowsStill(q.env, r.env, AllEntries(r.ops[r.booked..]));
  }

  /** Exactly when a call panics, whatever has panicked before. */
  lemma PanicsIff(r: Records, c: Call)
    requires Sound(r)
    ensures Panics(r, c) <==>
      match c
      case Register(_, n, _) => r.sealed && n in r.env.retired && Stuck(r)
      case UseAll(mws) => !AllLive(r.env, mws) || (r.sealed && Stuck(r))
      case Add(op) => Refuses(r, c) || (r.sealed && (Stuck(r) || !KnowsAll(r.env, Entries(TOP, op))))
      case Seal => !r.sealed && Stuck(r)
      case RemoveService(_) => r.sealed && Stuck(r)
  {
    var q := Changed(r, c);
    ChangedSound(r, c);
    BuildsIff(q);
    if c.Add? {
      if !Refuses(r, c) {
        BuildsIff(r);
        KnowsAppend(r.env, r.ops, c.op);
      }
    } else if Rebuilds(r, c) {
      assert NamesOfEnv(q.env) == NamesOfEnv(r.env);
      SameNames(r, q);
    }
  }

  /** Registering the one name that was missing mends the records. */
  lemma MendedByName(r: Records, s: string, n: string, fn: nat)
    ensures Builds(Registering(r, s, n, fn)) <==>
      && (forall i :: 0 <= i < |r.mws| ==> Knows(r.env, r.mws[i]) || r.mws[i] == Named(n))
      && (forall m :: Applied(m) in AllEntries(r.ops) ==> Knows(r.env, m) || m == Named(n))
  {
    var env, env' := r.env, Registering(r, s, n, fn).env;
    forall m: Middleware
      ensures Knows(env', m) <==> Knows(env, m) || m == Named(n)
    {
    }
  }
}
