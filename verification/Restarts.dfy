/**
  What is left of a removed service while it restarts, and when removing it again still
  reaches all its routes.
 */
module Restarts {
  import opened Wrappers
  import opened Routes
  import opened RouterRecords
  import opened RouterTheorems
  import opened KillSwitch

  // ---------------------------------------------------------------------------
  // Every recorded route of the service
  // ---------------------------------------------------------------------------

  /** The routes booked for s, or those it had when it was removed. */
  ghost function PairsOf(j: seq<Event>, s: string): set<Key> {
    Pairs(Listed(RoutesOf(j), s)) + Pairs(Listed(RemovedOf(j), s))
  }

  /** If e is a leaf of s, the bookkeeping has its route. */
  ghost predicate Covers(j: seq<Event>, s: string, e: Entry) {
    e.Serve? && e.service == s ==> AtTop(e.key) in PairsOf(j, s)
  }

  /** The bookkeeping has the route of every recorded leaf of s. */
  ghost predicate Covered(r: Records, s: string) {
    forall e {:trigger Covers(r.journal, s, e)} :: e in AllEntries(r.ops) ==> Covers(r.journal, s, e)
  }

  /** After s is removed, every leaf ever recorded for it answers 503, if the bookkeeping has them all. */
  lemma KilledEverywhere(r: Records, s: string, e: Entry)
    requires Covered(r, s) && e in AllEntries(r.ops) && e.Serve? && e.service == s
    ensures Request(TreeOf(Removing(r, s)), e.key) == Refused
  {
    assert Covers(r.journal, s, e);
    KillTakesDown(r.journal, s);
    var q := Removing(r, s);
    var removed := RemovedOf(r.journal);
    if AtTop(e.key) in Pairs(Listed(removed, s)) {
      DownHas(removed, s, AtTop(e.key));
    }
    Overlaid(q.env, q.mws, AllEntries(q.ops), RemovedOf(q.journal), e.key);
  }

  lemma DownHas(removed: map<string, seq<Booked>>, s: string, k: Key)
    requires k in Pairs(Listed(removed, s))
    ensures k in Down(removed)
  {
    assert s in removed;
  }

  ghost predicate Removes(j: seq<Event>, s: string) {
    j != [] && (j[|j| - 1] == Remove(s) || Removes(j[..|j| - 1], s))
  }

  ghost predicate Books(ev: Event, s: string) {
    ev.Book? && ev.e.Serve? && ev.e.service == s
  }

  /** The routes of s booked in j. */
  ghost function FreshPairs(j: seq<Event>, s: string): set<Key> {
    if j == [] then {}
    else FreshPairs(j[..|j| - 1], s) + if Books(j[|j| - 1], s) then {AtTop(j[|j| - 1].e.key)} else {}
  }

  lemma {:induction false} RemovesConcat(a: seq<Event>, b: seq<Event>, s: string)
    ensures Removes(a + b, s) <==> Removes(a, s) || Removes(b, s)
    decreases |b|
  {
    if b == [] {
      assert a + b == a;
    } else {
      RemovesConcat(a, b[..|b| - 1], s);
      assert (a + b)[..|a + b| - 1] == a + b[..|b| - 1];
    }
  }

  lemma {:induction false} FreshHas(j: seq<Event>, scope: seq<string>, e: Entry)
    requires Book(scope, e) in j && e.Serve?
    ensures AtTop(e.key) in FreshPairs(j, e.service)
  {
    if j[|j| - 1] != Book(scope, e) {
      FreshHas(j[..|j| - 1], scope, e);
    }
  }

  /** Without a removal of s, its live routes are those it had and those booked since. */
  lemma {:induction false} RoutesGrow(j: seq<Event>, more: seq<Event>, s: string)
    requires !Removes(more, s)
    ensures Pairs(Listed(RoutesOf(j + more), s)) == Pairs(Listed(RoutesOf(j), s)) + FreshPairs(more, s)
    ensures Listed(RemovedOf(j + more), s) == if FreshPairs(more, s) == {} then Listed(RemovedOf(j), s) else []
    decreases |more|
  {
    if more == [] {
      assert j + more == j;
    } else {
      var rest, ev := more[..|more| - 1], more[|more| - 1];
      assert j + more == (j + rest) + [ev];
      RoutesGrow(j, rest, s);
      RoutesStep(j + rest, ev, s);
    }
  }

  lemma RoutesStep(j: seq<Event>, ev: Event, s: string)
    requires ev != Remove(s)
    ensures Pairs(Listed(RoutesOf(j + [ev]), s)) ==
      Pairs(Listed(RoutesOf(j), s)) + if Books(ev, s) then {AtTop(ev.e.key)} else {}
    ensures Listed(RemovedOf(j + [ev]), s) == if Books(ev, s) then [] else Listed(RemovedOf(j), s)
  {
    assert (j + [ev])[..|j|] == j;
    if Books(ev, s) {
      PairsAppend(Listed(RoutesOf(j), s), Record(ev.scope, ev.e));
    }
  }

  lemma PairsAppend(bs: seq<Booked>, b: Booked)
    ensures Pairs(bs + [b]) == Pairs(bs) + {Key([], b.verb, b.path)}
  {
    assert forall x :: x in bs + [b] <==> x in bs || x == b;
  }

  lemma {:induction false} BagHasLeaf(es: seq<Entry>, e: Entry)
    requires e.Serve?
    ensures e in es <==> LeafBag(es)[e] > 0
  {
    if es != [] {
      BagHasLeaf(es[..|es| - 1], e);
      assert es == es[..|es| - 1] + [es[|es| - 1]];
    }
  }

  lemma {:induction false} BagBooked(j: seq<Event>, e: Entry)
    requires BookBag(j)[e] > 0
    ensures exists scope :: Book(scope, e) in j
  {
    var ev := j[|j| - 1];
    if ev.Book? && ev.e == e {
      assert Book(ev.scope, e) in j;
    } else {
      BagBooked(j[..|j| - 1], e);
    }
  }

  /** Until a service is removed for the first time, the bookkeeping has all its routes. */
  lemma CoveredFirst(r: Records, s: string)
    requires Good(r) && r.sealed && !Removes(r.journal, s)
    ensures Covered(r, s)
  {
    RoutesGrow([], r.journal, s);
    assert [] + r.journal == r.journal;
    forall e | e in AllEntries(r.ops)
      ensures Covers(r.journal, s, e)
    {
      if e.Serve? && e.service == s {
        EntryFresh(r, e);
        var scope :| Book(scope, e) in r.journal;
        FreshHas(r.journal, scope, e);
      }
    }
  }

  lemma EntryFresh(r: Records, e: Entry)
    requires Good(r) && r.sealed && e in AllEntries(r.ops) && e.Serve?
    ensures exists scope :: Book(scope, e) in r.journal
  {
    OpsBagAll(r.ops, |r.ops|);
    BagHasLeaf(AllEntries(r.ops), e);
    BagBooked(r.journal, e);
  }

  // ---------------------------------------------------------------------------
  // Restarting
  // ---------------------------------------------------------------------------

  /** r2 comes after s was removed from r, by calls that do not remove s again. */
  ghost predicate Restarting(r: Records, s: string, more: seq<Event>, r2: Records) {
    && Good(r2) && r2.sealed && r.ops <= r2.ops
    && r2.journal == Removing(r, s).journal + more && !Removes(more, s)
  }

  /** Once s is removed, a call that does not remove it again keeps r2 such a later state. */
  lemma RestartingStep(r: Records, s: string, more: seq<Event>, r2: Records, c: Call) returns (further: seq<Event>)
    requires Restarting(r, s, more, r2)
    requires Do(r2, c).Some? && c != RemoveService(s)
    ensures Restarting(r, s, more + further, Do(r2, c).value)
  {
    further := Written(r2, c, s);
    DoGood(r2, c);
    RestartingMore(r, s, more, r2, further, Do(r2, c).value);
  }

  lemma RestartingMore(r: Records, s: string, more: seq<Event>, r2: Records, further: seq<Event>, r3: Records)
    requires Restarting(r, s, more, r2) && Good(r3) && r3.sealed && r2.ops <= r3.ops
    requires r3.journal == r2.journal + further && !Removes(further, s)
    ensures Restarting(r, s, more + further, r3)
  {
    var j := Removing(r, s).journal;
    assert (j + more) + further == j + (more + further);
    RemovesConcat(more, further, s);
  }

  /** What a call adds to the journal. */
  lemma Written(r: Records, c: Call, s: string) returns (further: seq<Event>)
    requires r.sealed && Do(r, c).Some? && c != RemoveService(s)
    ensures Do(r, c).value.journal == r.journal + further && !Removes(further, s)
    ensures r.ops <= Do(r, c).value.ops && Do(r, c).value.sealed
  {
    further := [];
    match c {
      case Add(op) =>
        further := if op.Handle? then Bookings(r.scope, Serves(TOP, op)) else Bookings(r.scope, Entries(TOP, op));
        NoRemoves(r.scope, if op.Handle? then Serves(TOP, op) else Entries(TOP, op), s);
      case RemoveService(u) =>
        further := [Remove(u)];
        assert further[..0] == [];
      case _ =>
    }
  }

  lemma {:induction false} NoRemoves(scope: seq<string>, es: seq<Entry>, s: string)
    ensures !Removes(Bookings(scope, es), s)
  {
    if es != [] {
      var rest := Bookings(scope, es[..|es| - 1]);
      NoRemoves(scope, es[..|es| - 1], s);
      if es[|es| - 1].Serve? {
        assert Bookings(scope, es)[..|rest|] == rest;
      } else {
        assert Bookings(scope, es) == rest;
      }
    }
  }

  /** What the bookkeeping has for s while it restarts: everything it had, or only what is booked again. */
  lemma PairsRestarting(r: Records, s: string, more: seq<Event>, r2: Records)
    requires Restarting(r, s, more, r2)
    ensures PairsOf(r2.journal, s) ==
      if FreshPairs(more, s) == {} then PairsOf(Removing(r, s).journal, s) else FreshPairs(more, s)
    ensures PairsOf(Removing(r, s).journal, s) == PairsOf(r.journal, s)
    ensures Pairs(Listed(RemovedOf(r2.journal), s)) == if FreshPairs(more, s) == {} then PairsOf(r.journal, s) else {}
  {
    var j := Removing(r, s).journal;
    JournalRemove(r.journal, s);
    LiveOrRemoved(r.journal);
    RoutesGrow(j, more, s);
    assert Pairs([]) == {};
  }

  /**
    While s restarts, one of its old routes stays down as its own exactly until the first
    route of s is booked again, whichever route that is.
   */
  lemma StaysDownIff(r: Records, s: string, more: seq<Event>, r2: Records, e: Entry)
    requires Covered(r, s) && Restarting(r, s, more, r2)
    requires e in AllEntries(r.ops) && e.Serve? && e.service == s
    ensures AtTop(e.key) in Pairs(Listed(RemovedOf(r2.journal), s)) <==> FreshPairs(more, s) == {}
  {
    assert Covers(r.journal, s, e);
    PairsRestarting(r, s, more, r2);
  }

  /** Where no route is down any more, the last handler recorded for it is back, booked again or not. */
  lemma OldHandlerBack(r2: Records, k: Key, i: nat)
    requires LastAt(AllEntries(r2.ops), k, i) && k !in Down(RemovedOf(r2.journal))
    ensures k in PlanOf(r2).leaves
    ensures PlanOf(r2).leaves[k] == Live(AllEntries(r2.ops)[i].chain, AllEntries(r2.ops)[i].handler)
  {
    LastWins(r2.mws, AllEntries(r2.ops), k, i);
  }

  lemma {:induction false} AllEntriesGrow(ops: seq<Op>, more: seq<Op>)
    requires ops <= more
    ensures AllEntries(ops) <= AllEntries(more)
    decreases |more|
  {
    if ops != more {
      AllEntriesGrow(ops, more[..|more| - 1]);
    }
  }

  lemma {:induction false} BookedInBag(j: seq<Event>, scope: seq<string>, e: Entry)
    requires Book(scope, e) in j
    ensures BookBag(j)[e] > 0
  {
    if j[|j| - 1] != Book(scope, e) {
      BookedInBag(j[..|j| - 1], scope, e);
    }
  }

  /** A leaf of s recorded since s was removed was booked since. */
  lemma NewEntryFresh(r: Records, s: string, more: seq<Event>, r2: Records, e: Entry)
    requires Good(r) && r.sealed && Restarting(r, s, more, r2)
    requires e in AllEntries(r2.ops) && e !in AllEntries(r.ops) && e.Serve? && e.service == s
    ensures AtTop(e.key) in FreshPairs(more, s)
  {
    EntryFresh(r2, e);
    var scope :| Book(scope, e) in r2.journal;
    if Book(scope, e) in r.journal {
      BookedInBag(r.journal, scope, e);
      OpsBagAll(r.ops, |r.ops|);
      BagHasLeaf(AllEntries(r.ops), e);
    }
    assert Book(scope, e) in more;
    FreshHas(more, scope, e);
  }

  /** If e is a leaf of s, its route was booked again. */
  ghost predicate Rebooked(more: seq<Event>, s: string, e: Entry) {
    e.Serve? && e.service == s ==> AtTop(e.key) in FreshPairs(more, s)
  }

  ghost predicate AllRebooked(r: Records, more: seq<Event>, s: string) {
    forall e {:trigger Rebooked(more, s, e)} :: e in AllEntries(r.ops) ==> Rebooked(more, s, e)
  }

  /**
    After a restart the bookkeeping again has every route of s, so that removing s once
    more answers 503 on all of them, exactly when it booked nothing or every old route.
   */
  lemma CoveredAgainIff(r: Records, s: string, more: seq<Event>, r2: Records)
    requires Good(r) && r.sealed && Covered(r, s) && Restarting(r, s, more, r2)
    ensures Covered(r2, s) <==> FreshPairs(more, s) == {} || AllRebooked(r, more, s)
  {
    if FreshPairs(more, s) == {} || AllRebooked(r, more, s) {
      RebookedCovers(r, s, more, r2);
    } else if Covered(r2, s) {
      PairsRestarting(r, s, more, r2);
      AllEntriesGrow(r.ops, r2.ops);
      forall e | e in AllEntries(r.ops)
        ensures Rebooked(more, s, e)
      {
        assert Covers(r2.journal, s, e);
      }
    }
  }

  lemma RebookedCovers(r: Records, s: string, more: seq<Event>, r2: Records)
    requires Good(r) && r.sealed && Covered(r, s) && Restarting(r, s, more, r2)
    requires FreshPairs(more, s) == {} || AllRebooked(r, more, s)
    ensures Covered(r2, s)
  {
    PairsRestarting(r, s, more, r2);
    forall e | e in AllEntries(r2.ops)
      ensures Covers(r2.journal, s, e)
    {
      if e in AllEntries(r.ops) {
        assert Covers(r.journal, s, e);
        assert AllRebooked(r, more, s) ==> Rebooked(more, s, e);
      } else if e.Serve? && e.service == s {
        NewEntryFresh(r, s, more, r2, e);
      }
    }
  }

  // ---------------------------------------------------------------------------
  // A full restart undoes the removal
  // ---------------------------------------------------------------------------

  /** Putting e into t changes nothing: the leaf is there with this chain and handler, or the mount exists. */
  ghost predicate Repeats(t: Tree<Middleware>, e: Entry) {
    match e
    case Serve(k, chain, h, _, _, _) => k in t.leaves && t.leaves[k] == Live(chain, h)
    case Mounted(at, _) => at in t.mounts
    case Applied(_) => true
  }

  lemma {:induction false} PutRepeats(t: Tree<Middleware>, es: seq<Entry>)
    requires forall i :: 0 <= i < |es| ==> Repeats(t, es[i])
    ensures PutAll(t, es) == t
  {
    if es != [] {
      PutRepeats(t, es[..|es| - 1]);
      assert Repeats(t, es[|es| - 1]);
    }
  }

  /** Only routes of s are booked in more, and at least one if there was any before. */
  ghost predicate BooksOnly(more: seq<Event>, s: string) {
    forall i :: 0 <= i < |more| ==> Books(more[i], s)
  }

  lemma {:induction false} BooksClear(j: seq<Event>, s: string, more: seq<Event>)
    requires BooksOnly(more, s) && more != []
    ensures RemovedOf(j + more) == RemovedOf(j) - {s}
    decreases |more|
  {
    var rest, ev := more[..|more| - 1], more[|more| - 1];
    assert j + more == (j + rest) + [ev] && Books(ev, s);
    BookClears(j + rest, ev, s);
    if rest == [] {
      assert j + rest == j;
    } else {
      BooksClear(j, s, rest);
    }
  }

  lemma RemovedBack(j: seq<Event>, s: string, more: seq<Event>)
    requires BooksOnly(more, s) && s !in RemovedOf(j)
    requires s in RoutesOf(j) ==> more != []
    ensures RemovedOf(j + [Remove(s)] + more) == RemovedOf(j)
  {
    JournalRemove(j, s);
    if more == [] {
      assert j + [Remove(s)] + more == j + [Remove(s)];
    } else {
      BooksClear(j + [Remove(s)], s, more);
    }
  }

  lemma BookClears(j: seq<Event>, ev: Event, s: string)
    requires Books(ev, s)
    ensures RemovedOf(j + [ev]) == RemovedOf(j) - {s}
  {
    assert (j + [ev])[..|j|] == j;
  }

  /** Every name known to env resolves to the same function in env'. */
  ghost predicate SameFunctions(env: Env, env': Env) {
    forall m :: Knows(env, m) ==> Resolve(env, m) == Resolve(env', m)
  }

  lemma LinksSame(env: Env, env': Env, ms: seq<Middleware>)
    requires SameFunctions(env, env') && forall m :: m in ms ==> Knows(env, m)
    ensures Links(env, ms) == Links(env', ms)
  {
    forall i | 0 <= i < |ms|
      ensures Resolve(env, ms[i]) == Resolve(env', ms[i])
    {
      assert ms[i] in ms;
    }
  }

  lemma TreeSame(env: Env, env': Env, t: Tree<Middleware>)
    requires SameFunctions(env, env') && TreeKnown(env, t)
    ensures ResolveTree(env, t) == ResolveTree(env', t)
  {
    LinksSame(env, env', t.top);
    forall at | at in t.mounts
      ensures Links(env, t.mounts[at]) == Links(env', t.mounts[at])
    {
      LinksSame(env, env', t.mounts[at]);
    }
    forall k | k in t.leaves
      ensures ResolveLeaf(env, t.leaves[k]) == ResolveLeaf(env', t.leaves[k])
    {
      if t.leaves[k].Live? {
        LinksSame(env, env', t.leaves[k].chain);
      }
    }
  }

  lemma PlanKnown(r: Records)
    requires Good(r) && r.sealed
    ensures TreeKnown(r.env, PlanOf(r))
  {
    var es := AllEntries(r.ops);
    AllEntriesSourced(r.ops);
    assert forall m :: m in r.mws ==> Knows(r.env, m);
    PutAllKnown(r.env, Tree(r.mws, map[], map[]), es, es);
  }

  /** What the calls since r recorded. */
  ghost function NewEntries(r: Records, r2: Records): seq<Entry>
    requires r.ops <= r2.ops
  {
    AllEntriesGrow(r.ops, r2.ops);
    AllEntries(r2.ops)[|AllEntries(r.ops)|..]
  }

  /** The leaves and mounts do not depend on the middleware around the whole tree. */
  lemma {:induction false} PutAllAround(mws: seq<Middleware>, mws': seq<Middleware>, es: seq<Entry>)
    ensures PutAll(Tree(mws', map[], map[]), es) == PutAll(Tree(mws, map[], map[]), es).(top := mws')
  {
    if es != [] {
      PutAllAround(mws, mws', es[..|es| - 1]);
    }
  }

  lemma PlanAround(mws: seq<Middleware>, mws': seq<Middleware>, es: seq<Entry>, removed: map<string, seq<Booked>>)
    ensures Plan(mws', es, removed) == Plan(mws, es, removed).(top := mws')
    ensures Plan(mws, es, removed).top == mws
  {
    PutAllAround(mws, mws', es);
    PutAllAround(mws', mws, es);
  }

  /**
    A restart that registers every middleware with the function it had, and the same
    routes again, gives back the tree from before the removal if and only if it does not
    call Use: what it uses again is applied once more around every route.
   */
  lemma RestartRestores(r: Records, s: string, more: seq<Event>, r2: Records)
    requires Good(r) && r.sealed && Restarting(r, s, more, r2)
    requires s !in RemovedOf(r.journal)
    requires r.mws <= r2.mws && SameFunctions(r.env, r2.env)
    requires BooksOnly(more, s) && (s in RoutesOf(r.journal) ==> more != [])
    requires forall i :: 0 <= i < |NewEntries(r, r2)| ==>
      Repeats(PutAll(Tree(r.mws, map[], map[]), AllEntries(r.ops)), NewEntries(r, r2)[i])
    ensures TreeOf(r2) == TreeOf(r) <==> r2.mws == r.mws
  {
    SamePlan(r, s, more, r2);
    PlanAround(r.mws, r2.mws, AllEntries(r.ops), RemovedOf(r.journal));
    if r2.mws == r.mws {
      PlanKnown(r);
      TreeSame(r.env, r2.env, PlanOf(r));
    } else {
      assert |TreeOf(r2).top| == |r2.mws| && |TreeOf(r).top| == |r.mws|;
    }
  }

  lemma SamePlan(r: Records, s: string, more: seq<Event>, r2: Records)
    requires Restarting(r, s, more, r2) && s !in RemovedOf(r.journal)
    requires BooksOnly(more, s) && (s in RoutesOf(r.journal) ==> more != [])
    requires forall i :: 0 <= i < |NewEntries(r, r2)| ==>
      Repeats(PutAll(Tree(r.mws, map[], map[]), AllEntries(r.ops)), NewEntries(r, r2)[i])
    ensures PlanOf(r2) == Plan(r2.mws, AllEntries(r.ops), RemovedOf(r.journal))
  {
    var bare: Tree<Middleware> := Tree(r.mws, map[], map[]);
    AllEntriesGrow(r.ops, r2.ops);
    assert AllEntries(r2.ops) == AllEntries(r.ops) + NewEntries(r, r2);
    PutAllConcat(bare, AllEntries(r.ops), NewEntries(r, r2));
    PutRepeats(PutAll(bare, AllEntries(r.ops)), NewEntries(r, r2));
    RemovedBack(r.journal, s, more);
    PutAllAround(r.mws, r2.mws, AllEntries(r.ops));
    PutAllAround(r.mws, r2.mws, AllEntries(r2.ops));
  }

  // ---------------------------------------------------------------------------
  // A partial restart
  // ---------------------------------------------------------------------------

  /** A service with two routes, other than by GET, at different paths. */
  datatype Two = Two(s: string, verb: string, a: string, b: string)

  ghost predicate Apart(c: Two) {
    c.verb != "GET" && c.a != c.b
  }

  ghost function OpA(c: Two): Op {
    Handle(c.s, c.verb, c.a, 1, [])
  }

  ghost function OpB(c: Two): Op {
    Handle(c.s, c.verb, c.b, 2, [])
  }

  ghost function LeafA(c: Two): Entry {
    Serve(Key([], c.verb, c.a), [], 1, c.s, [], false)
  }

  ghost function KeyB(c: Two): Key {
    Key([], c.verb, c.b)
  }

  ghost function LeafB(c: Two): Entry {
    Serve(KeyB(c), [], 2, c.s, [], false)
  }

  lemma OneLeaf(op: Op)
    requires op.Handle? && op.verb != "GET" && op.mws == []
    ensures Entries(TOP, op) == Serves(TOP, op) ==
      [Serve(Key([], op.verb, op.path), [], op.handler, op.service, [], false)]
  {
    assert NamesOf(op.mws) == [] && Checks(op.mws) == [];
    assert TOP.chain + op.mws == [] && TOP.scope + NamesOf(op.mws) == [];
  }

  /** A sealed router with the two routes. */
  ghost function TwoRoutes(c: Two): Records {
    Records([], [OpA(c), OpB(c)], 2, true, [], Env(map[], map[]), [Book([], LeafA(c)), Book([], LeafB(c))])
  }

  lemma AddLeaf(ops: seq<Op>, op: Op)
    requires op.Handle? && op.verb != "GET" && op.mws == []
    ensures AllEntries(ops + [op]) ==
      AllEntries(ops) + [Serve(Key([], op.verb, op.path), [], op.handler, op.service, [], false)]
  {
    assert (ops + [op])[..|ops|] == ops;
    OneLeaf(op);
  }

  lemma TwoEntries(c: Two)
    requires Apart(c)
    ensures AllEntries([OpA(c), OpB(c)]) == [LeafA(c), LeafB(c)]
  {
    AddLeaf([], OpA(c));
    assert [] + [OpA(c)] == [OpA(c)];
    AddLeaf([OpA(c)], OpB(c));
    assert [OpA(c)] + [OpB(c)] == [OpA(c), OpB(c)];
  }

  lemma ThreeEntries(c: Two)
    requires Apart(c)
    ensures AllEntries([OpA(c), OpB(c), OpA(c)]) == [LeafA(c), LeafB(c), LeafA(c)]
  {
    TwoEntries(c);
    AddLeaf([OpA(c), OpB(c)], OpA(c));
    assert [OpA(c), OpB(c)] + [OpA(c)] == [OpA(c), OpB(c), OpA(c)];
  }

  lemma TwoBuild(c: Two)
    requires Apart(c)
    ensures KnowsAll(TwoRoutes(c).env, AllEntries(TwoRoutes(c).ops))
  {
    TwoEntries(c);
  }

  /** The leaf of the second route answers wherever it is not taken down. */
  lemma SecondAnswers(c: Two, r: Records)
    requires Apart(c) && r.mws == [] && r.ops == [OpA(c), OpB(c), OpA(c)]
    requires KeyB(c) !in Down(RemovedOf(r.journal))
    ensures Request(TreeOf(r), KeyB(c)) == Handled([], 2)
  {
    var k := KeyB(c);
    ThreeEntries(c);
    assert LastAt(AllEntries(r.ops), k, 1);
    OldHandlerBack(r, k, 1);
    PutAllTop(Tree(r.mws, map[], map[]), AllEntries(r.ops));
    LeafAnswers(r.env, PlanOf(r), k);
  }

  lemma {:induction false} PutAllTop(t: Tree<Middleware>, es: seq<Entry>)
    ensures PutAll(t, es).top == t.top
  {
    if es != [] {
      PutAllTop(t, es[..|es| - 1]);
    }
  }

  lemma LeafAnswers(env: Env, t: Tree<Middleware>, k: Key)
    requires t.top == [] && k.mounts == [] && k in t.leaves && t.leaves[k].Live? && t.leaves[k].chain == []
    ensures Request(ResolveTree(env, t), k) == Handled([], t.leaves[k].handler)
  {
    assert Full(k) == k.path && AtTop(k) == k;
    ChainResolves(env, t, k);
    assert Chain(t, k) == [];
  }

  lemma AgainAdded(c: Two, r: Records)
    requires Apart(c) && r.sealed && r.scope == []
    ensures Do(r, Add(OpA(c))) == Some(Adding(r, OpA(c)))
    ensures Adding(r, OpA(c)).journal == r.journal + [Book([], LeafA(c))]
  {
    OneLeaf(OpA(c));
    BookingsOne([], LeafA(c));
    assert forall m :: Applied(m) !in Entries(TOP, OpA(c));
  }

  /** Once the first route is booked again, nothing of the service is down; after another removal only that route is. */
  lemma SecondIsUp(c: Two, j: seq<Event>)
    requires Apart(c) && RemovedOf(j).Keys <= {c.s} && c.s !in RoutesOf(j)
    ensures KeyB(c) !in Down(RemovedOf(j + [Book([], LeafA(c))]))
    ensures KeyB(c) !in Down(RemovedOf(j + [Book([], LeafA(c))] + [Remove(c.s)]))
  {
    var ev := Book([], LeafA(c));
    assert (j + [ev])[..|j|] == j;
    assert RemovedOf(j + [ev]) == map[];
    RoutesStep(j, ev, c.s);
    KillTakesDown(j + [ev], c.s);
    assert Pairs([]) == {} && Full(LeafA(c).key) == c.a;
  }

  lemma FirstBooked(c: Two)
    requires Apart(c)
    ensures var j := TwoRoutes(c).journal;
      KeyB(c) in Pairs(Listed(RoutesOf(j), c.s)) && RemovedOf(j) == map[]
  {
    var e1, e2 := Book([], LeafA(c)), Book([], LeafB(c));
    assert [e1] + [e2] == [e1, e2] && Full(KeyB(c)) == c.b;
    RoutesStep([e1], e2, c.s);
    NothingRemoved([], e1);
    assert [] + [e1] == [e1];
    NothingRemoved([e1], e2);
  }

  lemma NothingRemoved(j: seq<Event>, ev: Event)
    requires RemovedOf(j) == map[] && ev.Book?
    ensures RemovedOf(j + [ev]) == map[]
  {
    assert (j + [ev])[..|j|] == j;
  }

  lemma FirstRemoval(c: Two)
    requires Apart(c)
    ensures var j := Removing(TwoRoutes(c), c.s).journal;
      RemovedOf(j).Keys <= {c.s} && c.s !in RoutesOf(j)
  {
    var j := TwoRoutes(c).journal;
    FirstBooked(c);
    JournalRemove(j, c.s);
    assert Removing(TwoRoutes(c), c.s).journal == j + [Remove(c.s)];
    forall u | u in RemovedOf(j + [Remove(c.s)])
      ensures u == c.s
    {
      assert u !in RemovedOf(j);
    }
  }

  lemma AddsOne(r: Records, op: Op)
    requires Good(r) && op.Handle? && op.verb != "GET" && op.mws == []
    ensures Do(r, Add(op)) == Some(Adding(r, op)) && Good(Adding(r, op))
    ensures Adding(r, op).journal ==
      r.journal + [Book(r.scope, Serve(Key([], op.verb, op.path), [], op.handler, op.service, [], false))]
  {
    KnownOne(r.env, op);
    BookingsOne(r.scope, Serves(TOP, op)[0]);
    AddGood(r, op);
  }

  lemma KnownOne(env: Env, op: Op)
    requires op.Handle? && op.verb != "GET" && op.mws == []
    ensures KnowsAll(env, Entries(TOP, op)) && AllLive(env, op.mws)
    ensures Serves(TOP, op) == [Serve(Key([], op.verb, op.path), [], op.handler, op.service, [], false)]
  {
    OneLeaf(op);
    assert forall m :: Applied(m) !in Entries(TOP, op);
  }

  /** The calls that record the two routes and seal the router. */
  lemma TwoRoutesReached(c: Two)
    requires Apart(c)
    ensures Reached([Add(OpA(c)), Add(OpB(c)), Call.Seal]) == Some(Site(TwoRoutes(c), TreeOf(TwoRoutes(c))))
  {
    var a, b := Add(OpA(c)), Add(OpB(c));
    var s0 := Site(NEW, TreeOf(NEW));
    EmptyTree();
    AddsOne(s0.r, OpA(c));
    ReachedStep([], a);
    assert [] + [a] == [a];
    var s1 := Next(s0, a).value;
    AddsOne(s1.r, OpB(c));
    ReachedStep([a], b);
    assert [a] + [b] == [a, b];
    var s2 := Next(s1, b).value;
    TwoSealed(c, s2.r);
    ReachedStep([a, b], Call.Seal);
    assert [a, b] + [Call.Seal] == [a, b, Call.Seal];
  }

  lemma TwoSealed(c: Two, r: Records)
    requires Apart(c)
    requires r == Adding(Adding(NEW, OpA(c)), OpB(c))
    requires r.journal == NEW.journal + [Book([], LeafA(c))] + [Book([], LeafB(c))]
    ensures Do(r, Call.Seal) == Some(TwoRoutes(c))
  {
    var q := TwoRoutes(c);
    assert r.ops == q.ops;
    assert r.journal == q.journal;
    assert r == q.(sealed := false, booked := 0);
    HandlesFirstRuns(r.scope, r.ops);
    assert Sealing(r) == q;
    TwoBuild(c);
  }

  lemma {:induction false} HandlesFirstRuns(scope: seq<string>, ops: seq<Op>)
    requires forall i :: 0 <= i < |ops| ==> ops[i].Handle?
    ensures FirstRuns(scope, ops, 0) == []
  {
    if ops != [] {
      HandlesFirstRuns(scope, ops[..|ops| - 1]);
    }
  }

  lemma SecondGoes(c: Two)
    requires Apart(c)
    ensures Do(TwoRoutes(c), RemoveService(c.s)) == Some(Removing(TwoRoutes(c), c.s))
    ensures Request(TreeOf(Removing(TwoRoutes(c), c.s)), KeyB(c)) == Refused
  {
    FirstBooked(c);
    assert AtTop(KeyB(c)) == KeyB(c);
    RoutesRefused(TwoRoutes(c), c.s, KeyB(c));
  }

  /** The first route recorded again: the second answers, before and after another removal. */
  lemma SecondRevives(c: Two, r: Records)
    requires Apart(c) && r.sealed && r.scope == [] && r.mws == [] && r.ops == [OpA(c), OpB(c)]
    requires RemovedOf(r.journal).Keys <= {c.s} && c.s !in RoutesOf(r.journal)
    ensures Do(r, Add(OpA(c))) == Some(Adding(r, OpA(c)))
    ensures Request(TreeOf(Adding(r, OpA(c))), KeyB(c)) == Handled([], 2)
    ensures Request(TreeOf(Removing(Adding(r, OpA(c)), c.s)), KeyB(c)) == Handled([], 2)
  {
    var q := Adding(r, OpA(c));
    AgainAdded(c, r);
    SecondIsUp(c, r.journal);
    SecondAnswers(c, q);
    SecondAnswers(c, Removing(q, c.s));
  }

  /**
    A router with two routes of a service, reached as TwoRoutesReached says: the service is removed, and then one of the
    routes is recorded again. The other answers again too, and goes on doing so when the
    service is removed once more.
   */
  lemma PartialRestartRevives(c: Two)
    requires Apart(c)
    ensures var r0 := TwoRoutes(c);
      var r1 := Removing(r0, c.s);
      var r2 := Adding(r1, OpA(c));
      var b := KeyB(c);
      && Do(r0, RemoveService(c.s)) == Some(r1) && Do(r1, Add(OpA(c))) == Some(r2)
      && Request(TreeOf(r1), b) == Refused
      && Request(TreeOf(r2), b) == Handled([], 2)
      && Request(TreeOf(Removing(r2, c.s)), b) == Handled([], 2)
  {
    FirstRemoval(c);
    SecondGoes(c);
    SecondRevives(c, Removing(TwoRoutes(c), c.s));
  }
}
