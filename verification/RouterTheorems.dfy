/**
  What the published routing tree answers, over every run of calls on the router.
 */
module RouterTheorems {
  import opened Wrappers
  import opened Routes
  import opened RouterRecords

  // ---------------------------------------------------------------------------
  // Runs in which nothing panics
  // ---------------------------------------------------------------------------

  /** The records and the tree that answers, after the calls so far. */
  datatype Site = Site(r: Records, tree: Tree<Link>)

  /** One call; None where it panics. */
  ghost function Next(s: Site, c: Call): Option<Site> {
    match Do(s.r, c)
    case None => None
    case Some(r) => Some(Site(r, if Republishes(s.r, c) then TreeOf(r) else s.tree))
  }

  ghost function Reached(calls: seq<Call>): Option<Site> {
    if calls == [] then Some(Site(NEW, TreeOf(NEW)))
    else
      match Reached(calls[..|calls| - 1])
      case None => None
      case Some(s) => Next(s, calls[|calls| - 1])
  }

  lemma {:induction false} ReachedGood(calls: seq<Call>)
    requires Reached(calls).Some?
    ensures Good(Reached(calls).value.r)
  {
    if calls == [] {
      EmptyTree();
    } else {
      ReachedGood(calls[..|calls| - 1]);
      DoGood(Reached(calls[..|calls| - 1]).value.r, calls[|calls| - 1]);
    }
  }

  /** A registered name stays registered or retired, never both, so a build never fails on it. */
  lemma NamesStay(calls: seq<Call>, c: Call)
    requires Reached(calls).Some? && Reached(calls + [c]).Some?
    ensures var env, env' := Reached(calls).value.r.env, Reached(calls + [c]).value.r.env;
      && NamesOfEnv(env) <= NamesOfEnv(env')
      && env'.registry.Keys !! env'.retired.Keys
      && (forall n :: n in NamesOfEnv(env') && n !in NamesOfEnv(env) ==> c.Register? && c.name == n)
    ensures Reached(calls + [c]).value.r.sealed ==> Builds(Reached(calls + [c]).value.r)
  {
    assert (calls + [c])[..|calls|] == calls;
    ReachedGood(calls + [c]);
  }

  // ---------------------------------------------------------------------------
  // The tree that answers is the one the records describe
  // ---------------------------------------------------------------------------

  /** A chain of the tree names middleware n. */
  ghost predicate Mentions(t: Tree<Middleware>, n: string) {
    || Named(n) in t.top
    || (exists at :: at in t.mounts && Named(n) in t.mounts[at])
    || (exists k :: k in t.leaves && t.leaves[k].Live? && Named(n) in t.leaves[k].chain)
  }

  /** The environments agree on every name but n. */
  ghost predicate AgreeBut(env: Env, env': Env, n: string) {
    forall m: Middleware :: m != Named(n) ==> Resolve(env, m) == Resolve(env', m)
  }

  lemma LinksAgree(env: Env, env': Env, n: string, ms: seq<Middleware>)
    requires AgreeBut(env, env', n)
    ensures Links(env, ms) == Links(env', ms) <==> Named(n) !in ms || Resolve(env, Named(n)) == Resolve(env', Named(n))
  {
    if Named(n) in ms {
      var i :| 0 <= i < |ms| && ms[i] == Named(n);
      assert Links(env, ms)[i] == Resolve(env, Named(n));
      assert Links(env', ms)[i] == Resolve(env', Named(n));
    }
    if Named(n) !in ms || Resolve(env, Named(n)) == Resolve(env', Named(n)) {
      forall i | 0 <= i < |ms|
        ensures Links(env, ms)[i] == Links(env', ms)[i]
      {
        assert ms[i] != Named(n) ==> Resolve(env, ms[i]) == Resolve(env', ms[i]);
      }
    }
  }

  /** A change of one name changes the tree exactly when the tree mentions it and it resolves differently. */
  lemma ResolveAgree(env: Env, env': Env, n: string, t: Tree<Middleware>)
    requires AgreeBut(env, env', n)
    ensures ResolveTree(env, t) == ResolveTree(env', t) <==>
      !Mentions(t, n) || Resolve(env, Named(n)) == Resolve(env', Named(n))
  {
    var a, b := ResolveTree(env, t), ResolveTree(env', t);
    if !Mentions(t, n) || Resolve(env, Named(n)) == Resolve(env', Named(n)) {
      SameWhen(env, env', n, t);
    } else if Named(n) in t.top {
      LinksAgree(env, env', n, t.top);
    } else if at :| at in t.mounts && Named(n) in t.mounts[at] {
      LinksAgree(env, env', n, t.mounts[at]);
      assert a.mounts[at] != b.mounts[at];
    } else {
      var k :| k in t.leaves && t.leaves[k].Live? && Named(n) in t.leaves[k].chain;
      LinksAgree(env, env', n, t.leaves[k].chain);
      assert a.leaves[k] != b.leaves[k];
    }
  }

  lemma SameWhen(env: Env, env': Env, n: string, t: Tree<Middleware>)
    requires AgreeBut(env, env', n)
    requires !Mentions(t, n) || Resolve(env, Named(n)) == Resolve(env', Named(n))
    ensures ResolveTree(env, t) == ResolveTree(env', t)
  {
    LinksAgree(env, env', n, t.top);
    forall at | at in t.mounts
      ensures Links(env, t.mounts[at]) == Links(env', t.mounts[at])
    {
      LinksAgree(env, env', n, t.mounts[at]);
    }
    forall k | k in t.leaves
      ensures ResolveLeaf(env, t.leaves[k]) == ResolveLeaf(env', t.leaves[k])
    {
      if t.leaves[k].Live? {
        LinksAgree(env, env', n, t.leaves[k].chain);
      }
    }
  }

  ghost function PlanOf(r: Records): Tree<Middleware> {
    Plan(r.mws, AllEntries(r.ops), RemovedOf(r.journal))
  }

  ghost predicate InSync(s: Site) {
    s.r.sealed ==> s.tree == TreeOf(s.r)
  }

  /** Every middleware in the chain of e stood before it or is applied among es. */
  ghost predicate Sourced(es: seq<Entry>, before: seq<Middleware>, e: Entry) {
    match e
    case Serve(_, chain, _, _, _, _) => forall m :: m in chain ==> m in before || Applied(m) in es
    case Mounted(_, chain) => forall m :: m in chain ==> m in before || Applied(m) in es
    case Applied(_) => true
  }

  ghost predicate AllSourced(es: seq<Entry>, before: seq<Middleware>) {
    forall e {:trigger Sourced(es, before, e)} :: e in es ==> Sourced(es, before, e)
  }

  lemma SourcedConcat(a: seq<Entry>, b: seq<Entry>, before: seq<Middleware>, between: seq<Middleware>)
    requires AllSourced(a, before) && AllSourced(b, between)
    requires forall m :: m in between ==> m in before || Applied(m) in a
    ensures AllSourced(a + b, before)
  {
    forall e | e in a + b
      ensures Sourced(a + b, before, e)
    {
      if e in a {
        assert Sourced(a, before, e);
      } else {
        assert Sourced(b, between, e);
      }
    }
  }

  lemma {:induction false} EntriesSourced(p: Place, op: Op)
    ensures AllSourced(Entries(p, op), p.chain)
    decreases op, 0
  {
    match op {
      case Use(_) =>
      case Handle(_, _, _, _, mws) =>
        forall e | e in Entries(p, op)
          ensures Sourced(Entries(p, op), p.chain, e)
        {
          forall m | m in mws
            ensures Applied(m) in Entries(p, op)
          {
            var i :| 0 <= i < |mws| && mws[i] == m;
            assert Checks(mws)[i] == Applied(m);
          }
        }
      case Group(body) => FlatSourced(p, body);
      case Route(pattern, body) =>
        var e := Mounted(p.mounts + [pattern], p.chain);
        FlatSourced(Inside(p, pattern), body);
        assert Sourced([e], p.chain, e);
        SourcedConcat([e], Flat(Inside(p, pattern), body), p.chain, []);
    }
  }

  lemma {:induction false} FlatSourced(p: Place, s: Script)
    ensures AllSourced(Flat(p, s), p.chain)
    decreases s, 1
  {
    if s.Then? {
      EntriesSourced(p, s.op);
      FlatSourced(After(p, s.op), s.rest);
      SourcedConcat(Entries(p, s.op), Flat(After(p, s.op), s.rest), p.chain, After(p, s.op).chain);
    }
  }

  lemma {:induction false} AllEntriesSourced(ops: seq<Op>)
    ensures AllSourced(AllEntries(ops), [])
  {
    if ops != [] {
      AllEntriesSourced(ops[..|ops| - 1]);
      EntriesSourced(TOP, ops[|ops| - 1]);
      SourcedConcat(AllEntries(ops[..|ops| - 1]), Entries(TOP, ops[|ops| - 1]), [], []);
    }
  }

  /** All middleware of t is known. */
  ghost predicate TreeKnown(env: Env, t: Tree<Middleware>) {
    && (forall m :: m in t.top ==> Knows(env, m))
    && (forall at, m :: at in t.mounts && m in t.mounts[at] ==> Knows(env, m))
    && (forall k, m :: k in t.leaves && t.leaves[k].Live? && m in t.leaves[k].chain ==> Knows(env, m))
  }

  lemma {:induction false} PutAllKnown(env: Env, t: Tree<Middleware>, whole: seq<Entry>, es: seq<Entry>)
    requires TreeKnown(env, t) && AllSourced(whole, []) && KnowsAll(env, whole) && es <= whole
    ensures TreeKnown(env, PutAll(t, es))
  {
    if es != [] {
      var e := es[|es| - 1];
      PutAllKnown(env, t, whole, es[..|es| - 1]);
      assert e in whole;
      assert Sourced(whole, [], e);
    }
  }

  /** Every name a sealed router's tree mentions is registered or retired. */
  lemma MentionsKnown(r: Records, n: string)
    requires Good(r) && r.sealed && Mentions(PlanOf(r), n)
    ensures n in NamesOfEnv(r.env)
  {
    var es := AllEntries(r.ops);
    AllEntriesSourced(r.ops);
    assert forall m :: m in r.mws ==> Knows(r.env, m);
    PutAllKnown(r.env, Tree(r.mws, map[], map[]), es, es);
    assert Knows(r.env, Named(n));
  }

  /** Registering a name in use with a new function, in a tree that mentions it. */
  ghost predicate Outdates(r: Records, c: Call) {
    c.Register? && c.name in r.env.registry && c.fn != r.env.registry[c.name].fn && Mentions(PlanOf(r), c.name)
  }

  /**
    After a call on a router in sync, the tree that answers is what its records describe,
    unless the call gave a name that is in use, and that the tree mentions, a new function.
   */
  lemma SyncIff(s: Site, c: Call)
    requires Good(s.r) && InSync(s) && Next(s, c).Some?
    ensures InSync(Next(s, c).value) <==> !(s.r.sealed && Outdates(s.r, c))
  {
    if s.r.sealed && c.Register? && c.name !in s.r.env.retired {
      var env, env' := s.r.env, Next(s, c).value.r.env;
      assert AgreeBut(env, env', c.name);
      ResolveAgree(env, env', c.name, PlanOf(s.r));
      if Mentions(PlanOf(s.r), c.name) {
        MentionsKnown(s.r, c.name);
      }
    }
  }

  lemma ReachedStep(calls: seq<Call>, c: Call)
    requires Reached(calls).Some?
    ensures Reached(calls + [c]) == Next(Reached(calls).value, c)
  {
    assert (calls + [c])[..|calls|] == calls;
  }

  /** A service registers a middleware, which is used for everything; the router is sealed. */
  ghost function OneMiddleware(s: string, n: string): Records {
    Records([Named(n)], [], 0, true, NamesOf([Named(n)]), Env(map[n := Owned(s, 1)], map[]), [])
  }

  lemma OneMiddlewareReached(s: string, n: string)
    ensures Reached([Register(s, n, 1), UseAll([Named(n)]), Seal]) ==
      Some(Site(OneMiddleware(s, n), TreeOf(OneMiddleware(s, n))))
  {
    var a, b := Register(s, n, 1), UseAll([Named(n)]);
    EmptyTree();
    ReachedStep([], a);
    ReachedStep([a], b);
    ReachedStep([a, b], Seal);
    assert [] + [a] == [a] && [a] + [b] == [a, b] && [a, b] + [Seal] == [a, b, Seal];
    var r1 := Registering(NEW, s, n, 1);
    var r2 := Using(r1, [Named(n)]);
    assert [] + [Named(n)] == [Named(n)] && [] + NamesOf([Named(n)]) == NamesOf([Named(n)]);
    assert AllEntries([]) == [] && FirstRuns(r2.scope, [], 0) == [];
    assert Do(r2, Seal) == Some(OneMiddleware(s, n));
  }

  /** The middleware is registered again, with another function: the old one goes on answering. */
  lemma StaleExample(s: string, n: string)
    ensures var calls := [Register(s, n, 1), UseAll([Named(n)]), Seal];
      && Reached(calls).Some? && Reached(calls + [Register(s, n, 2)]).Some?
      && var site := Reached(calls + [Register(s, n, 2)]).value;
         site.tree.top == [Pass(1)] && TreeOf(site.r).top == [Pass(2)] && !InSync(site)
  {
    OneMiddlewareReached(s, n);
    ReachedStep([Register(s, n, 1), UseAll([Named(n)]), Seal], Register(s, n, 2));
  }

  /** The records when the service has been removed, and has started again with the same calls. */
  ghost function UsedAgain(s: string, n: string): Records {
    OneMiddleware(s, n).(mws := [Named(n), Named(n)], scope := NamesOf([Named(n)]) + NamesOf([Named(n)]),
                         journal := [Remove(s)])
  }

  lemma RemovedAndBack(s: string, n: string)
    ensures var r1 := Removing(OneMiddleware(s, n), s);
      var r2 := Registering(r1, s, n, 1);
      && n in r1.env.retired && r1.sealed && r2.sealed
      && AllLive(r2.env, [Named(n)]) && Using(r2, [Named(n)]) == UsedAgain(s, n)
  {
    var r0 := OneMiddleware(s, n);
    var r1 := Removing(r0, s);
    assert r1.env == Env(map[], map[n := Owned(s, 1)]);
    assert r1.journal == [Remove(s)];
    assert Registering(r1, s, n, 1).env == r0.env;
    assert [Named(n)] + [Named(n)] == [Named(n), Named(n)];
  }

  lemma UsedAgainReached(s: string, n: string)
    ensures Reached([Register(s, n, 1), UseAll([Named(n)]), Seal] +
                    [RemoveService(s)] + [Register(s, n, 1)] + [UseAll([Named(n)])]) ==
      Some(Site(UsedAgain(s, n), TreeOf(UsedAgain(s, n))))
  {
    var calls := [Register(s, n, 1), UseAll([Named(n)]), Seal];
    var r1 := Removing(OneMiddleware(s, n), s);
    var r2 := Registering(r1, s, n, 1);
    OneMiddlewareReached(s, n);
    RemovedAndBack(s, n);
    ReachedStep(calls, RemoveService(s));
    assert Reached(calls + [RemoveService(s)]) == Some(Site(r1, TreeOf(r1)));
    ReachedStep(calls + [RemoveService(s)], Register(s, n, 1));
    assert Reached(calls + [RemoveService(s)] + [Register(s, n, 1)]) == Some(Site(r2, TreeOf(r2)));
    ReachedStep(calls + [RemoveService(s)] + [Register(s, n, 1)], UseAll([Named(n)]));
  }

  /** A restart that calls Use again: its middleware is now around every route twice. */
  lemma UsedTwice(s: string, n: string)
    ensures var calls := [Register(s, n, 1), UseAll([Named(n)]), Seal];
      var again := calls + [RemoveService(s)] + [Register(s, n, 1)] + [UseAll([Named(n)])];
      && Reached(calls).Some? && Reached(calls).value.tree.top == [Pass(1)]
      && Reached(again).Some? && Reached(again).value.tree.top == [Pass(1), Pass(1)]
  {
    OneMiddlewareReached(s, n);
    UsedAgainReached(s, n);
  }

  /** Along a run without such a call, the tree always is what the records describe. */
  lemma {:induction false} RunInSync(calls: seq<Call>)
    requires Reached(calls).Some?
    requires forall i :: 0 <= i < |calls| ==> !Outdating(calls, i)
    ensures InSync(Reached(calls).value)
  {
    if calls != [] {
      var rest := calls[..|calls| - 1];
      forall i | 0 <= i < |rest|
        ensures !Outdating(rest, i)
      {
        assert rest[..i] == calls[..i];
        assert !Outdating(calls, i);
      }
      RunInSync(rest);
      ReachedGood(rest);
      assert !Outdating(calls, |rest|);
      SyncIff(Reached(rest).value, calls[|rest|]);
    }
  }

  ghost predicate Outdating(calls: seq<Call>, i: nat)
    requires i < |calls|
  {
    Reached(calls[..i]).Some? && Reached(calls[..i]).value.r.sealed && Outdates(Reached(calls[..i]).value.r, calls[i])
  }

  // ---------------------------------------------------------------------------
  // Runs that go on after a panic
  // ---------------------------------------------------------------------------

  ghost function Goes(s: Site, c: Call): Site {
    var r := Outcome(s.r, c);
    Site(r, if !Panics(s.r, c) && Republishes(s.r, c) then TreeOf(r) else s.tree)
  }

  /** The router after any calls, the callers of which recover from every panic. */
  ghost function Came(calls: seq<Call>): Site {
    if calls == [] then Site(NEW, TreeOf(NEW)) else Goes(Came(calls[..|calls| - 1]), calls[|calls| - 1])
  }

  lemma CameStep(calls: seq<Call>, c: Call)
    ensures Came(calls + [c]) == Goes(Came(calls), c)
  {
    assert (calls + [c])[..|calls|] == calls;
  }

  lemma {:induction false} CameSound(calls: seq<Call>)
    ensures Sound(Came(calls).r)
  {
    if calls == [] {
      EmptyTree();
      GoodSound(NEW);
    } else {
      CameSound(calls[..|calls| - 1]);
      OutcomeSound(Came(calls[..|calls| - 1]).r, calls[|calls| - 1]);
    }
  }

  ghost predicate PanicsAt(calls: seq<Call>, i: nat)
    requires i < |calls|
  {
    Panics(Came(calls[..i]).r, calls[i])
  }

  lemma LastCall(calls: seq<Call>)
    requires calls != []
    ensures calls == calls[..|calls| - 1] + [calls[|calls| - 1]]
  {
  }

  ghost predicate NoPanics(calls: seq<Call>) {
    forall i :: 0 <= i < |calls| ==> !PanicsAt(calls, i)
  }

  lemma NoPanicsStep(calls: seq<Call>, c: Call)
    ensures NoPanics(calls + [c]) <==> NoPanics(calls) && !Panics(Came(calls).r, c)
  {
    var more := calls + [c];
    forall i | 0 <= i < |calls|
      ensures PanicsAt(more, i) <==> PanicsAt(calls, i)
    {
      assert more[..i] == calls[..i];
    }
    assert more[..|calls|] == calls;
    assert PanicsAt(more, |calls|) <==> Panics(Came(calls).r, c);
  }

  /** Where nothing panics the two agree. */
  lemma {:induction false} ReachedIff(calls: seq<Call>)
    ensures Reached(calls).Some? <==> NoPanics(calls)
    ensures Reached(calls).Some? ==> Reached(calls).value == Came(calls)
  {
    if calls != [] {
      var rest, c := calls[..|calls| - 1], calls[|calls| - 1];
      LastCall(calls);
      ReachedIff(rest);
      if Reached(rest).Some? {
        ReachedGood(rest);
        DoIs(Came(rest).r, c);
      }
      NoPanicsStep(rest, c);
    }
  }

  /**
    After any calls, whatever has panicked: removing a service panics if and only if the
    router is sealed and a recorded call that was never built uses an unknown name, and so
    does registering a retired name. Nothing else makes either of them panic.
   */
  lemma NeverPanics(calls: seq<Call>, c: Call)
    requires c.RemoveService? || c.Register? || (c.UseAll? && AllLive(Came(calls).r.env, c.mws))
    ensures Came(calls).r.booked <= |Came(calls).r.ops|
    ensures Panics(Came(calls).r, c) <==> Republishes(Came(calls).r, c) && Stuck(Came(calls).r)
    ensures Reached(calls).Some? ==> !Panics(Came(calls).r, c) && Reached(calls + [c]).Some?
  {
    CameSound(calls);
    PanicsIff(Came(calls).r, c);
    if Reached(calls).Some? {
      ReachedIff(calls);
      ReachedGood(calls);
      DoIs(Came(calls).r, c);
      NotStuck(Came(calls).r);
      ReachedStep(calls, c);
    }
  }

  lemma NotStuck(r: Records)
    requires Good(r)
    ensures r.sealed ==> !Stuck(r)
  {
    assert r.sealed ==> r.ops[r.booked..] == [];
  }

  /** What builds that panicked have booked: all of it is booked again by the next build. */
  ghost function Wasted(calls: seq<Call>): multiset<Entry> {
    if calls == [] then multiset{}
    else
      var rest, c := calls[..|calls| - 1], calls[|calls| - 1];
      Wasted(rest) + WastedBy(Came(rest).r, c)
  }

  ghost function WastedBy(r: Records, c: Call): multiset<Entry> {
    if Rebuilds(r, c) && Panics(r, c) then BookBag(Bookable(Changed(r, c))) else multiset{}
  }

  /** What has been booked: the calls that book at once, the callbacks built, and what was wasted. */
  lemma {:induction false} CameTally(calls: seq<Call>)
    ensures Came(calls).r.booked <= |Came(calls).r.ops|
    ensures BookBag(Came(calls).r.journal) == OpsBag(Came(calls).r.ops, Came(calls).r.booked) + Wasted(calls)
  {
    if calls != [] {
      var rest, c := calls[..|calls| - 1], calls[|calls| - 1];
      CameTally(rest);
      CameSound(rest);
      OutcomeTally(Came(rest).r, c, Wasted(rest));
    }
  }

  lemma OutcomeTally(r: Records, c: Call, wasted: multiset<Entry>)
    requires Sound(r) && BookBag(r.journal) == OpsBag(r.ops, r.booked) + wasted
    ensures Outcome(r, c).booked <= |Outcome(r, c).ops|
    ensures BookBag(Outcome(r, c).journal) ==
      OpsBag(Outcome(r, c).ops, Outcome(r, c).booked) + wasted + WastedBy(r, c)
  {
    var q := Changed(r, c);
    ChangedSound(r, c);
    ChangedTally(r, c);
    Cancel(BookBag(q.journal), OpsBag(r.ops, r.booked), BookBag(r.journal), OpsBag(q.ops, q.booked), wasted);
    if Rebuilds(r, c) {
      assert Outcome(r, c) == Attempt(q) && (Panics(r, c) <==> !Builds(q));
      AttemptAdds(q, wasted);
    } else {
      assert Outcome(r, c) == q && WastedBy(r, c) == multiset{};
    }
  }

  lemma AttemptAdds(q: Records, wasted: multiset<Entry>)
    requires q.booked <= |q.ops| && BookBag(q.journal) == OpsBag(q.ops, q.booked) + wasted
    ensures BookBag(Attempt(q).journal) ==
      OpsBag(q.ops, Attempt(q).booked) + wasted + if Builds(q) then multiset{} else BookBag(Bookable(q))
  {
    AttemptTally(q);
  }

  lemma Cancel(a: multiset<Entry>, b: multiset<Entry>, c: multiset<Entry>, d: multiset<Entry>, w: multiset<Entry>)
    requires a + b == c + d && c == b + w
    ensures a == d + w
  {
    forall e: Entry
      ensures a[e] == (d + w)[e]
    {
      assert (a + b)[e] == (c + d)[e];
    }
  }

  lemma ChangedTally(r: Records, c: Call)
    requires Sound(r)
    ensures var q := Changed(r, c);
      BookBag(q.journal) + OpsBag(r.ops, r.booked) == BookBag(r.journal) + OpsBag(q.ops, q.booked)
  {
    match c {
      case Add(op) =>
        if !Refuses(r, c) {
          AddedTally(r, op);
        }
      case RemoveService(s) => JournalRemove(r.journal, s);
      case _ =>
    }
  }

  lemma AddedTally(r: Records, op: Op)
    requires r.booked <= |r.ops| && !op.Use?
    ensures BookBag(Recorded(r, op).journal) + OpsBag(r.ops, r.booked) ==
      BookBag(r.journal) + OpsBag(r.ops + [op], r.booked)
  {
    OpsBagMore(r.ops, op, r.booked);
    if op.Handle? {
      BookBagConcat(r.journal, Bookings(r.scope, Serves(TOP, op)));
      HandleLeaves(r.scope, op);
    } else {
      assert Recorded(r, op).journal == r.journal;
    }
  }

  lemma OpsBagMore(ops: seq<Op>, op: Op, booked: nat)
    requires booked <= |ops|
    ensures OpsBag(ops + [op], booked) ==
      OpsBag(ops, booked) + if op.Handle? then LeafBag(Entries(TOP, op)) else multiset{}
  {
    assert (ops + [op])[..|ops|] == ops;
  }

  lemma HandleLeaves(scope: seq<string>, op: Op)
    requires op.Handle?
    ensures LeafBag(Entries(TOP, op)) == BookBag(Bookings(scope, Serves(TOP, op)))
  {
    BookBagBookings(scope, Serves(TOP, op));
    LeafBagConcat(Checks(op.mws), Serves(TOP, op));
    BookBagBookings(scope, Checks(op.mws));
    BookingsChecks(scope, op.mws);
  }

  lemma AttemptTally(q: Records)
    requires q.booked <= |q.ops|
    ensures BookBag(Attempt(q).journal) == BookBag(q.journal) + BookBag(Bookable(q))
    ensures Builds(q) ==> OpsBag(q.ops, q.booked) + BookBag(Bookable(q)) == OpsBag(q.ops, |q.ops|)
  {
    BookBagConcat(q.journal, Bookable(q));
    if Builds(q) {
      TriedAll(q.env, q.scope, q.ops, q.booked);
      FirstRunsBook(q.scope, q.ops, q.booked);
    }
  }

  /**
    Once every recorded call has been built, each recorded leaf has been booked once, and
    once more for every time a build that panicked had booked it. So each is booked exactly
    once if and only if no build that panicked had booked anything.
   */
  lemma BookedOnceIff(calls: seq<Call>)
    requires Came(calls).r.booked == |Came(calls).r.ops|
    ensures BookBag(Came(calls).r.journal) == LeafBag(AllEntries(Came(calls).r.ops)) + Wasted(calls)
    ensures BookBag(Came(calls).r.journal) == LeafBag(AllEntries(Came(calls).r.ops)) <==>
      NoWaste(calls)
  {
    CameTally(calls);
    OpsBagAll(Came(calls).r.ops, |Came(calls).r.ops|);
    WastedNone(calls);
    if Wasted(calls) != multiset{} {
      var e :| e in Wasted(calls);
      assert BookBag(Came(calls).r.journal)[e] > LeafBag(AllEntries(Came(calls).r.ops))[e];
    }
  }

  ghost function WastedAt(calls: seq<Call>, i: nat): multiset<Entry>
    requires i < |calls|
  {
    WastedBy(Came(calls[..i]).r, calls[i])
  }

  /** No build that panicked had booked anything. */
  ghost predicate NoWaste(calls: seq<Call>) {
    forall i :: 0 <= i < |calls| ==> WastedAt(calls, i) == multiset{}
  }

  lemma NoWasteStep(calls: seq<Call>, c: Call)
    ensures NoWaste(calls + [c]) <==> NoWaste(calls) && WastedBy(Came(calls).r, c) == multiset{}
  {
    var more := calls + [c];
    forall i | 0 <= i < |calls|
      ensures WastedAt(more, i) == WastedAt(calls, i)
    {
      assert more[..i] == calls[..i];
    }
    assert more[..|calls|] == calls;
    assert WastedAt(more, |calls|) == WastedBy(Came(calls).r, c);
  }

  lemma {:induction false} WastedNone(calls: seq<Call>)
    ensures Wasted(calls) == multiset{} <==> NoWaste(calls)
  {
    if calls != [] {
      var rest, c := calls[..|calls| - 1], calls[|calls| - 1];
      WastedNone(rest);
      NoWasteStep(rest, c);
      SumEmpty(Wasted(rest), WastedBy(Came(rest).r, c));
      LastCall(calls);
    }
  }

  lemma SumEmpty(a: multiset<Entry>, b: multiset<Entry>)
    ensures a + b == multiset{} <==> a == multiset{} && b == multiset{}
  {
    if e :| e in a {
      assert e in a + b;
    }
    if e :| e in b {
      assert e in a + b;
    }
  }

  /** While nothing panics, every recorded leaf of a sealed router has been booked exactly once. */
  lemma BookedOnce(calls: seq<Call>)
    requires Reached(calls).Some? && Reached(calls).value.r.sealed
    ensures BookBag(Reached(calls).value.r.journal) == LeafBag(AllEntries(Reached(calls).value.r.ops))
  {
    ReachedGood(calls);
    OpsBagAll(Reached(calls).value.r.ops, |Reached(calls).value.r.ops|);
  }

  // ---------------------------------------------------------------------------
  // What is recorded, told by the calls
  // ---------------------------------------------------------------------------

  function AllUsed(calls: seq<Call>): seq<Middleware> {
    if calls == [] then []
    else AllUsed(calls[..|calls| - 1]) + if calls[|calls| - 1].UseAll? then calls[|calls| - 1].mws else []
  }

  function AllAdded(calls: seq<Call>): seq<Op> {
    if calls == [] then []
    else AllAdded(calls[..|calls| - 1]) + if calls[|calls| - 1].Add? then [calls[|calls| - 1].op] else []
  }

  /**
    While nothing panics the router has, in the order of the calls, the middleware of all
    Use calls and all other calls, and it is sealed once Seal was called.
   */
  lemma {:induction false} RecordsAre(calls: seq<Call>)
    requires Reached(calls).Some?
    ensures var r := Reached(calls).value.r;
      && r.mws == AllUsed(calls) && r.ops == AllAdded(calls) && r.scope == NamesOf(AllUsed(calls))
      && (r.sealed <==> Seal in calls)
  {
    if calls != [] {
      var rest, c := calls[..|calls| - 1], calls[|calls| - 1];
      RecordsAre(rest);
      DoRecords(Reached(rest).value.r, c);
      SealIn(calls);
      if c.UseAll? {
        NamesJoin(AllUsed(rest), c.mws);
      }
    }
  }

  lemma SealIn(calls: seq<Call>)
    requires calls != []
    ensures Seal in calls <==> Seal in calls[..|calls| - 1] || calls[|calls| - 1] == Seal
  {
    LastCall(calls);
  }

  lemma DoRecords(r: Records, c: Call)
    requires Do(r, c).Some?
    ensures var r' := Do(r, c).value;
      && r'.mws == r.mws + (if c.UseAll? then c.mws else [])
      && r'.ops == r.ops + (if c.Add? then [c.op] else [])
      && r'.scope == r.scope + (if c.UseAll? then NamesOf(c.mws) else [])
      && (r'.sealed <==> r.sealed || c == Seal)
  {
    assert r.mws + [] == r.mws && r.ops + [] == r.ops && r.scope + [] == r.scope;
  }

  /** Which service registered n, and what, since it was last removed. */
  function Owner(calls: seq<Call>, n: string): Option<Owned> {
    if calls == [] then None
    else
      var before, c := Owner(calls[..|calls| - 1], n), calls[|calls| - 1];
      if c.Register? && c.name == n then Some(Owned(c.service, c.fn))
      else if c.RemoveService? && before.Some? && before.value.service == c.service then None
      else before
  }

  ghost predicate EverRegistered(calls: seq<Call>, n: string) {
    exists i :: 0 <= i < |calls| && calls[i].Register? && calls[i].name == n
  }

  ghost predicate NameIs(calls: seq<Call>, n: string) {
    var env := Came(calls).r.env;
    && (n in env.registry <==> Owner(calls, n).Some?)
    && (n in env.registry ==> env.registry[n] == Owner(calls, n).value)
    && (Owner(calls, n).Some? ==> EverRegistered(calls, n))
    && (n in env.retired <==> Owner(calls, n).None? && EverRegistered(calls, n))
  }

  lemma OutcomeEnv(r: Records, c: Call)
    ensures Outcome(r, c).env == match c
      case Register(s, n, fn) => Env(r.env.registry[n := Owned(s, fn)], r.env.retired - {n})
      case RemoveService(s) => Retire(r.env, s)
      case _ => r.env
  {
  }

  /**
    After any calls, whatever has panicked: a name is in use if it was registered since the
    service that registered it last was removed, and retired if it was ever registered.
   */
  lemma {:induction false} NamesAre(calls: seq<Call>, n: string)
    ensures NameIs(calls, n)
  {
    if calls != [] {
      var rest, c := calls[..|calls| - 1], calls[|calls| - 1];
      NamesAre(rest, n);
      EverMore(rest, c, n);
      LastCall(calls);
      OutcomeEnv(Came(rest).r, c);
    }
  }

  lemma EverMore(calls: seq<Call>, c: Call, n: string)
    ensures EverRegistered(calls + [c], n) <==> EverRegistered(calls, n) || (c.Register? && c.name == n)
  {
    var more := calls + [c];
    assert forall i :: 0 <= i < |calls| ==> more[i] == calls[i];
    assert more[|calls|] == c;
  }

  /** A Use that comes to a name not in use panics, and has queued what came before it without building anything. */
  lemma UseQueues(calls: seq<Call>, mws: seq<Middleware>, n: nat)
    requires n < |mws| && !InUse(Came(calls).r.env, mws[n])
    requires forall i :: 0 <= i < n ==> InUse(Came(calls).r.env, mws[i])
    ensures Panics(Came(calls).r, UseAll(mws))
    ensures var site, site' := Came(calls), Came(calls + [UseAll(mws)]);
      site'.r.mws == site.r.mws + mws[..n] && site'.r.ops == site.r.ops && site'.tree == site.tree
  {
    LiveUpToIs(Came(calls).r.env, mws, n);
    CameStep(calls, UseAll(mws));
  }

  lemma LiveUpToIs(env: Env, mws: seq<Middleware>, n: nat)
    requires n < |mws| && !InUse(env, mws[n]) && forall i :: 0 <= i < n ==> InUse(env, mws[i])
    ensures LiveUpTo(env, mws) == n && !AllLive(env, mws)
  {
    var m := LiveUpTo(env, mws);
    assert forall i :: 0 <= i < m ==> mws[..m][i] == mws[i];
  }

  /** Using a name panics at once unless it is in use; a retired name is not. */
  lemma UsePanicsIff(calls: seq<Call>, n: string)
    ensures Refuses(Came(calls).r, UseAll([Named(n)])) <==> Owner(calls, n).None?
  {
    NamesAre(calls, n);
    var ms := [Named(n)];
    assert ms[0] == Named(n);
  }

  // ---------------------------------------------------------------------------
  // A callback that panics
  // ---------------------------------------------------------------------------

  /** A route of service s, and a middleware n that is never registered before the callback runs. */
  datatype Typo = Typo(s: string, u: string, verb: string, path: string, n: string)

  ghost predicate Plain(c: Typo) {
    c.verb != "GET" && c.s != c.u
  }

  ghost function Callback(c: Typo): Op {
    Group(Then(Handle(c.s, c.verb, c.path, 1, []), Then(Op.Use(Named(c.n)), End)))
  }

  ghost function LeafOf(c: Typo): Entry {
    Serve(Key([], c.verb, c.path), [], 1, c.s, [], false)
  }

  lemma CallbackEntries(c: Typo, env: Env)
    requires Plain(c)
    ensures AllEntries([Callback(c)]) == [LeafOf(c), Applied(Named(c.n))]
    ensures Bookings([], BookedBy(env, TOP, Callback(c))) == [Book([], LeafOf(c))]
  {
    var h := Handle(c.s, c.verb, c.path, 1, []);
    var rest := Then(Op.Use(Named(c.n)), End);
    assert Checks([]) == [] && NamesOf([]) == [] && TOP.chain + [] == [] && TOP.scope + [] == [];
    assert Entries(TOP, h) == Serves(TOP, h) == [LeafOf(c)];
    assert Flat(After(TOP, Op.Use(Named(c.n))), End) == [];
    assert Flat(TOP, rest) == [Applied(Named(c.n))];
    assert Entries(TOP, Callback(c)) == [LeafOf(c), Applied(Named(c.n))];
    assert AllEntries([]) == [] && [Callback(c)][..0] == [];
    assert BookedBy(env, TOP, Op.Use(Named(c.n))) == [] && BookedIn(env, TOP, rest) == [];
    assert BookedBy(env, TOP, h) == [LeafOf(c)] && After(TOP, h) == TOP;
    assert BookedIn(env, TOP, Then(h, rest)) == [LeafOf(c)];
    assert BookedBy(env, TOP, Callback(c)) == [LeafOf(c)];
    BookingsOne([], LeafOf(c));
  }

  /** The records after Seal, the callback and what follows, when the journal is j. */
  ghost function Hung(c: Typo, env: Env, j: seq<Event>): Records {
    Records([], [Callback(c)], 0, true, [], env, j)
  }

  lemma HungBooks(c: Typo, env: Env, j: seq<Event>)
    requires Plain(c)
    ensures Bookable(Hung(c, env, j)) == [Book([], LeafOf(c))]
    ensures Builds(Hung(c, env, j)) <==> Knows(env, Named(c.n))
  {
    CallbackEntries(c, env);
    assert [Callback(c)][..0] == [] && AllEntries([]) == [];
    assert Tried(env, [], [], 0) == [];
    var es := AllEntries([Callback(c)]);
    assert es[1] == Applied(Named(c.n));
    assert forall m :: Applied(m) in es ==> m == Named(c.n);
  }

  const BARE := Env(map[], map[])

  lemma CallbackHangs(c: Typo)
    requires Plain(c)
    ensures Panics(Came([Seal]).r, Add(Callback(c)))
    ensures Came([Seal] + [Add(Callback(c))]).r == Hung(c, BARE, [Book([], LeafOf(c))])
  {
    var r0 := NEW.(sealed := true);
    CameStep([], Seal);
    assert [] + [Seal] == [Seal];
    EmptyTree();
    assert AllEntries([]) == [] && Builds(r0) && Attempt(r0) == r0;
    CameStep([Seal], Add(Callback(c)));
    assert [] + [Callback(c)] == [Callback(c)];
    assert Changed(r0, Add(Callback(c))) == Hung(c, BARE, []);
    HungBooks(c, BARE, []);
  }

  /** Removing the service of the records Hung(c, env, j). */
  lemma RemovalHangs(c: Typo, env: Env, j: seq<Event>)
    requires Plain(c) && Retire(env, c.s) == env
    ensures var r := Hung(c, env, j);
      && (Panics(r, RemoveService(c.s)) <==> !Knows(env, Named(c.n)))
      && Outcome(r, RemoveService(c.s)) == Hung(c, env, j + [Remove(c.s)] + [Book([], LeafOf(c))]).(
           booked := if Knows(env, Named(c.n)) then 1 else 0)
  {
    HungBooks(c, env, j + [Remove(c.s)]);
    assert Removing(Hung(c, env, j), c.s) == Hung(c, env, j + [Remove(c.s)]);
  }

  ghost function Mended(c: Typo): Env {
    Env(map[c.n := Owned(c.u, 2)], map[])
  }

  /**
    The calls: seal the router, record the callback, remove the service, register the name,
    and remove the service again.
   */
  ghost function Calls(c: Typo, k: nat): seq<Call> {
    if k == 0 then []
    else
      Calls(c, k - 1) +
      [match k
       case 1 => Seal
       case 2 => Add(Callback(c))
       case 4 => Register(c.u, c.n, 2)
       case _ => RemoveService(c.s)]
  }

  lemma CallbackComes(c: Typo)
    requires Plain(c)
    ensures var b := Book([], LeafOf(c));
      && Panics(Came(Calls(c, 1)).r, Add(Callback(c))) && Panics(Came(Calls(c, 2)).r, RemoveService(c.s))
      && Came(Calls(c, 4)).r == Hung(c, Mended(c), [b] + [Remove(c.s)] + [b])
  {
    var b := Book([], LeafOf(c));
    CallbackHangs(c);
    FirstCalls(c);
    assert Retire(BARE, c.s) == BARE;
    RemovalHangs(c, BARE, [b]);
    NthOfCalls(c, 3);
    NthOfCalls(c, 4);
    NameMends(c, [b] + [Remove(c.s)] + [b]);
  }

  lemma FirstCalls(c: Typo)
    ensures Calls(c, 1) == [Seal] && Calls(c, 2) == [Seal] + [Add(Callback(c))]
  {
    assert Calls(c, 0) == [] && [] + [Seal] == [Seal];
  }

  lemma NameMends(c: Typo, j: seq<Event>)
    ensures Outcome(Hung(c, BARE, j), Register(c.u, c.n, 2)) == Hung(c, Mended(c), j)
  {
    assert Registering(Hung(c, BARE, j), c.u, c.n, 2).env == Mended(c);
  }

  lemma CallbackEnds(c: Typo)
    requires Plain(c)
    ensures !Panics(Came(Calls(c, 4)).r, RemoveService(c.s))
    ensures var b := Book([], LeafOf(c));
      Came(Calls(c, 5)).r ==
        Hung(c, Mended(c), [b] + [Remove(c.s)] + [b] + [Remove(c.s)] + [b]).(booked := 1)
  {
    var b := Book([], LeafOf(c));
    MendedKept(c);
    CallbackComes(c);
    RemovalHangs(c, Mended(c), [b] + [Remove(c.s)] + [b]);
    NthOfCalls(c, 5);
  }

  lemma MendedKept(c: Typo)
    requires Plain(c)
    ensures Retire(Mended(c), c.s) == Mended(c) && Knows(Mended(c), Named(c.n))
  {
    assert Retire(Mended(c), c.s).registry == Mended(c).registry;
  }

  lemma NthOfCalls(c: Typo, k: nat)
    requires k > 0
    ensures Came(Calls(c, k)).r == Outcome(Came(Calls(c, k - 1)).r, match k
      case 1 => Seal
      case 2 => Add(Callback(c))
      case 4 => Register(c.u, c.n, 2)
      case _ => RemoveService(c.s))
  {
    var call := Calls(c, k)[|Calls(c, k)| - 1];
    CameStep(Calls(c, k - 1), call);
  }

  /**
    A callback books a route and then panics on an unknown name. Removing a service panics
    too, until the name is registered. By then the route has been booked three times, the
    last time after the removal, so that it is not taken down.
   */
  lemma CallbackPanics(c: Typo)
    requires Plain(c)
    ensures Panics(Came(Calls(c, 1)).r, Add(Callback(c))) && Panics(Came(Calls(c, 2)).r, RemoveService(c.s))
    ensures !Panics(Came(Calls(c, 4)).r, RemoveService(c.s))
    ensures var r := Came(Calls(c, 5)).r;
      && BookBag(r.journal)[LeafOf(c)] == 3 && LeafBag(AllEntries(r.ops))[LeafOf(c)] == 1
      && r.booked == |r.ops| && RemovedOf(r.journal) == map[]
  {
    CallbackComes(c);
    CallbackEnds(c);
    JournalCounts(c);
    CallbackEntries(c, Mended(c));
    LeafBagOne(LeafOf(c), Applied(Named(c.n)));
  }

  lemma LeafBagOne(e: Entry, m: Entry)
    requires e.Serve? && m.Applied?
    ensures LeafBag([e, m]) == multiset{e}
  {
    assert [e, m] == [e] + [m] && [e] == [] + [e];
    LeafBagConcat([e], [m]);
    OneLeafBag(e);
    OneLeafBag(m);
  }

  lemma OneLeafBag(e: Entry)
    ensures LeafBag([e]) == if e.Serve? then multiset{e} else multiset{}
  {
    assert [e][..0] == [] && LeafBag([e][..0]) == multiset{};
  }

  lemma JournalCounts(c: Typo)
    ensures var b := Book([], LeafOf(c));
      var j := [b] + [Remove(c.s)] + [b] + [Remove(c.s)] + [b];
      BookBag(j)[LeafOf(c)] == 3 && RemovedOf(j) == map[]
  {
    var b, x := Book([], LeafOf(c)), Remove(c.s);
    OneBooked([], b);
    assert [] + [b] == [b];
    JournalRemove([b], c.s);
    OneBooked([b] + [x], b);
    JournalRemove([b] + [x] + [b], c.s);
    OneBooked([b] + [x] + [b] + [x], b);
    assert BookBag([b]) == multiset{b.e};
    assert BookBag([b] + [x] + [b]) == multiset{b.e, b.e};
  }

  lemma OneBooked(j: seq<Event>, b: Event)
    requires b.Book? && b.e.Serve? && RemovedOf(j).Keys <= {b.e.service}
    ensures BookBag(j + [b]) == BookBag(j) + multiset{b.e} && RemovedOf(j + [b]) == map[]
  {
    assert (j + [b])[..|j|] == j;
  }

  // ---------------------------------------------------------------------------
  // Last write wins
  // ---------------------------------------------------------------------------

  /** es[i] is the last entry for the leaf k. */
  ghost predicate LastAt(es: seq<Entry>, k: Key, i: nat) {
    i < |es| && es[i].Serve? && es[i].key == k && forall j :: i < j < |es| ==> !(es[j].Serve? && es[j].key == k)
  }

  /** es[i] is the first entry for the mount at. */
  ghost predicate FirstAt(es: seq<Entry>, at: seq<string>, i: nat) {
    i < |es| && es[i].Mounted? && es[i].at == at && forall j :: 0 <= j < i ==> !(es[j].Mounted? && es[j].at == at)
  }

  lemma {:induction false} LastWins(mws: seq<Middleware>, es: seq<Entry>, k: Key, i: nat)
    requires LastAt(es, k, i)
    ensures var t := PutAll(Tree(mws, map[], map[]), es);
      k in t.leaves && t.leaves[k] == Live(es[i].chain, es[i].handler)
    decreases |es|
  {
    if i < |es| - 1 {
      var rest := es[..|es| - 1];
      assert LastAt(rest, k, i);
      LastWins(mws, rest, k, i);
      assert !(es[|es| - 1].Serve? && es[|es| - 1].key == k);
    }
  }

  lemma {:induction false} LeafHasEntry(mws: seq<Middleware>, es: seq<Entry>, k: Key) returns (i: nat)
    requires k in PutAll(Tree(mws, map[], map[]), es).leaves
    ensures LastAt(es, k, i)
    decreases |es|
  {
    var e := es[|es| - 1];
    if e.Serve? && e.key == k {
      i := |es| - 1;
    } else {
      i := LeafHasEntry(mws, es[..|es| - 1], k);
    }
  }

  lemma {:induction false} FirstWins(mws: seq<Middleware>, es: seq<Entry>, at: seq<string>, i: nat)
    requires FirstAt(es, at, i)
    ensures var t := PutAll(Tree(mws, map[], map[]), es);
      at in t.mounts && t.mounts[at] == es[i].chain
    decreases |es|
  {
    if i < |es| - 1 {
      var rest := es[..|es| - 1];
      assert FirstAt(rest, at, i);
      FirstWins(mws, rest, at, i);
    } else {
      NoMountYet(mws, es[..i], at);
    }
  }

  lemma {:induction false} NoMountYet(mws: seq<Middleware>, es: seq<Entry>, at: seq<string>)
    requires forall j :: 0 <= j < |es| ==> !(es[j].Mounted? && es[j].at == at)
    ensures at !in PutAll(Tree(mws, map[], map[]), es).mounts
  {
    if es != [] {
      NoMountYet(mws, es[..|es| - 1], at);
      assert !(es[|es| - 1].Mounted? && es[|es| - 1].at == at);
    }
  }
}
