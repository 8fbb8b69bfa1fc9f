/**
  The order in which BuildAll builds singletons: Kahn's algorithm over constructor
  parameter lists, which may name a type more than once or name one that has no
  registration.
 */
module TopoSort {
  import opened Wrappers
  import opened Walks
  import opened OrderedMaps

  type TypeId = Node

  /** Every registered type, in registration order, with the types its constructor takes. */
  type Graph = OMap<TypeId, seq<TypeId>>

  /** The constructor of t takes d, and d has a constructor too. */
  ghost predicate Edge(g: Graph, t: TypeId, d: TypeId) {
    t in g.m && d in g.m[t] && d in g.m
  }

  ghost predicate Path(g: Graph, p: seq<TypeId>) {
    forall i :: 0 <= i < |p| - 1 ==> Edge(g, p[i], p[i + 1])
  }

  ghost predicate HasCycle(g: Graph) {
    exists p: seq<TypeId> :: |p| >= 2 && p[0] == p[|p| - 1] && Path(g, p)
  }

  ghost predicate Distinct(ts: seq<TypeId>) {
    forall i, j :: 0 <= i < j < |ts| ==> ts[i] != ts[j]
  }

  ghost predicate DepsBefore(g: Graph, order: seq<TypeId>) {
    forall i, d :: 0 <= i < |order| && Edge(g, order[i], d) ==> d in order[..i]
  }

  /** order lists every registered type once, each after every registered type it takes. */
  ghost predicate IsBuildOrder(g: Graph, order: seq<TypeId>) {
    Distinct(order) && (set t | t in order) == g.m.Keys && DepsBefore(g, order)
  }

  // ---------------------------------------------------------------------------
  // Counting
  // ---------------------------------------------------------------------------

  function Count(ds: seq<TypeId>, x: TypeId): nat {
    if ds == [] then 0
    else Count(ds[..|ds| - 1], x) + if ds[|ds| - 1] == x then 1 else 0
  }

  /** How many entries of ds are in s. */
  ghost function Pending(ds: seq<TypeId>, s: set<TypeId>): nat {
    if ds == [] then 0
    else Pending(ds[..|ds| - 1], s) + if ds[|ds| - 1] in s then 1 else 0
  }

  lemma {:induction false} PendingRemove(ds: seq<TypeId>, s: set<TypeId>, x: TypeId)
    requires x in s
    ensures Pending(ds, s) == Pending(ds, s - {x}) + Count(ds, x)
  {
    if ds != [] {
      PendingRemove(ds[..|ds| - 1], s, x);
    }
  }

  lemma {:induction false} PendingZero(ds: seq<TypeId>, s: set<TypeId>)
    ensures Pending(ds, s) == 0 <==> forall d :: d in ds ==> d !in s
  {
    if ds != [] {
      PendingZero(ds[..|ds| - 1], s);
      assert ds == ds[..|ds| - 1] + [ds[|ds| - 1]];
    }
  }

  lemma {:induction false} CountPrefix(ds: seq<TypeId>, x: TypeId, n: nat)
    requires n <= |ds|
    ensures Count(ds[..n], x) <= Count(ds, x)
    decreases |ds|
  {
    if n < |ds| {
      CountPrefix(ds[..|ds| - 1], x, n);
      assert ds[..|ds| - 1][..n] == ds[..n];
    } else {
      assert ds[..n] == ds;
    }
  }

  /** Of the first n keys, those whose in-degree is used up by the entries equal to curr, in order. */
  ghost function Freed(deps: Graph, inDegree: map<TypeId, int>, curr: TypeId, n: nat): seq<TypeId>
    requires n <= |deps.keys|
  {
    if n == 0 then []
    else Freed(deps, inDegree, curr, n - 1)
         + if UsedUp(deps, inDegree, curr, deps.keys[n - 1]) then [deps.keys[n - 1]] else []
  }

  ghost predicate UsedUp(deps: Graph, inDegree: map<TypeId, int>, curr: TypeId, t: TypeId) {
    t in deps.m && t in inDegree && 0 < Count(deps.m[t], curr) == inDegree[t]
  }

  lemma {:induction false} FreedMembers(deps: Graph, inDegree: map<TypeId, int>, curr: TypeId, n: nat)
    requires n <= |deps.keys| && Distinct(deps.keys)
    ensures Distinct(Freed(deps, inDegree, curr, n))
    ensures forall t :: t in Freed(deps, inDegree, curr, n) <==> t in deps.keys[..n] && UsedUp(deps, inDegree, curr, t)
  {
    if n > 0 {
      FreedMembers(deps, inDegree, curr, n - 1);
      assert deps.keys[..n] == deps.keys[..n - 1] + [deps.keys[n - 1]];
    }
  }

  // ---------------------------------------------------------------------------
  // The algorithm
  // ---------------------------------------------------------------------------

  /** Takes curr off the in-degree of t, once for every parameter of t that names it. */
  method RelaxOne(curr: TypeId, t: TypeId, d: seq<TypeId>, inDegree: map<TypeId, int>, queue: seq<TypeId>)
    returns (degrees: map<TypeId, int>, ready: seq<TypeId>)
    requires t in inDegree && Count(d, curr) <= inDegree[t]
    ensures degrees == inDegree[t := inDegree[t] - Count(d, curr)]
    ensures ready == queue + if 0 < Count(d, curr) == inDegree[t] then [t] else []
  {
    degrees, ready := inDegree, queue;
    for j := 0 to |d|
      invariant degrees == inDegree[t := inDegree[t] - Count(d[..j], curr)]
      invariant ready == queue + if 0 < Count(d[..j], curr) == inDegree[t] then [t] else []
    {
      assert d[..j + 1][..j] == d[..j];
      CountPrefix(d, curr, j + 1);
      if d[j] == curr {
        degrees := degrees[t := degrees[t] - 1];
        if degrees[t] == 0 {
          ready := ready + [t];
        }
      }
    }
    assert d[..|d|] == d;
  }

  /** Takes curr off every in-degree, and appends to queue the types this makes ready. */
  method Relax(curr: TypeId, deps: Graph, inDegree: map<TypeId, int>, queue: seq<TypeId>)
    returns (degrees: map<TypeId, int>, ready: seq<TypeId>)
    requires deps.Valid()
    requires forall t :: t in deps.m ==> t in inDegree && Count(deps.m[t], curr) <= inDegree[t]
    ensures Relaxed(deps, inDegree, curr, degrees)
    ensures ready == queue + Freed(deps, inDegree, curr, |deps.keys|)
  {
    degrees, ready := inDegree, queue;
    for i := 0 to |deps.keys|
      invariant degrees.Keys == inDegree.Keys
      invariant forall j: nat :: KeyRelaxed(deps, inDegree, curr, degrees, i, j)
      invariant forall t :: t in inDegree && t !in deps.m ==> degrees[t] == inDegree[t]
      invariant ready == queue + Freed(deps, inDegree, curr, i)
    {
      var t := deps.keys[i];
      ghost var was := degrees;
      assert KeyRelaxed(deps, inDegree, curr, degrees, i, i);
      degrees, ready := RelaxOne(curr, t, deps.m[t], degrees, ready);
      assert t in was && degrees.Keys == was.Keys;
      FreedNext(deps, inDegree, curr, i, queue);
      KeysRelaxed(deps, inDegree, curr, was, degrees, i, i + 1);
    }
    forall t | t in deps.m ensures degrees[t] == inDegree[t] - Count(deps.m[t], curr) {
      assert KeyRelaxed(deps, inDegree, curr, degrees, |deps.keys|, IndexOf(deps.keys, t));
    }
  }

  lemma FreedNext(deps: Graph, inDegree: map<TypeId, int>, curr: TypeId, i: nat, queue: seq<TypeId>)
    requires i < |deps.keys|
    ensures queue + Freed(deps, inDegree, curr, i + 1) ==
      queue + Freed(deps, inDegree, curr, i) + if UsedUp(deps, inDegree, curr, deps.keys[i]) then [deps.keys[i]] else []
  {
  }

  lemma KeysRelaxed(
      deps: Graph, inDegree: map<TypeId, int>, curr: TypeId, was: map<TypeId, int>, degrees: map<TypeId, int>,
      i: nat, k: nat)
    requires k == i + 1 && deps.Valid() && i < |deps.keys| && deps.keys[i] in deps.m && deps.keys[i] in inDegree
    requires forall j: nat :: KeyRelaxed(deps, inDegree, curr, was, i, j)
    requires degrees == was[deps.keys[i] := inDegree[deps.keys[i]] - Count(deps.m[deps.keys[i]], curr)]
    ensures forall j: nat :: KeyRelaxed(deps, inDegree, curr, degrees, k, j)
  {
    forall j: nat ensures KeyRelaxed(deps, inDegree, curr, degrees, k, j) {
      assert KeyRelaxed(deps, inDegree, curr, was, i, j);
    }
  }

  /** After i keys, the in-degree of the j-th key has lost what it is to lose. */
  ghost predicate KeyRelaxed(
      deps: Graph, inDegree: map<TypeId, int>, curr: TypeId, degrees: map<TypeId, int>, i: nat, j: nat) {
    j < |deps.keys| && deps.keys[j] in deps.m && deps.keys[j] in inDegree ==>
      && deps.keys[j] in degrees
      && degrees[deps.keys[j]] == inDegree[deps.keys[j]] - if j < i then Count(deps.m[deps.keys[j]], curr) else 0
  }

  // ---------------------------------------------------------------------------
  // Kahn's loop
  // ---------------------------------------------------------------------------

  ghost function Members(ts: seq<TypeId>): set<TypeId> {
    set t | t in ts
  }

  /** How many parameters of t name a registered type that is not in order yet. */
  ghost function Left(g: Graph, order: seq<TypeId>, t: TypeId): nat
    requires t in g.m
  {
    Pending(g.m[t], g.m.Keys - Members(order))
  }

  /** The in-degree of t is what its parameters still wait for; t is in done once that is nothing. */
  ghost predicate TypeOK(g: Graph, order: seq<TypeId>, done: seq<TypeId>, inDegree: map<TypeId, int>, t: TypeId) {
    && (t in done ==> t in g.m)
    && (t in g.m ==> t in inDegree && inDegree[t] == Left(g, order, t) && (t in done <==> Left(g, order, t) == 0))
  }

  /** The state of Kahn's loop. */
  ghost predicate Sorting(g: Graph, order: seq<TypeId>, queue: seq<TypeId>, inDegree: map<TypeId, int>) {
    && inDegree.Keys == g.m.Keys
    && Distinct(order + queue)
    && DepsBefore(g, order)
    && (forall t :: TypeOK(g, order, order + queue, inDegree, t))
  }

  lemma LeftAfter(g: Graph, order: seq<TypeId>, curr: TypeId, t: TypeId)
    requires curr in g.m && curr !in order && t in g.m
    ensures Left(g, order + [curr], t) == Left(g, order, t) - Count(g.m[t], curr)
  {
    var s := g.m.Keys - Members(order);
    PendingRemove(g.m[t], s, curr);
    assert g.m.Keys - Members(order + [curr]) == s - {curr};
  }

  /** The in-degrees after curr was taken off those of inDegree. */
  ghost predicate Relaxed(deps: Graph, inDegree: map<TypeId, int>, curr: TypeId, degrees: map<TypeId, int>) {
    && degrees.Keys == inDegree.Keys
    && (forall t :: t in inDegree ==> degrees[t] == inDegree[t] - if t in deps.m then Count(deps.m[t], curr) else 0)
  }

  lemma TypeStep(g: Graph, deps: Graph, order: seq<TypeId>, done: seq<TypeId>, inDegree: map<TypeId, int>,
                 degrees: map<TypeId, int>, curr: TypeId, freed: seq<TypeId>, t: TypeId)
    requires NonEmpty(g, deps) && curr in g.m && curr !in order
    requires inDegree.Keys == g.m.Keys && TypeOK(g, order, done, inDegree, t)
    requires Relaxed(deps, inDegree, curr, degrees)
    requires t in freed <==> UsedUp(deps, inDegree, curr, t)
    ensures TypeOK(g, order + [curr], done + freed, degrees, t)
    ensures t in freed ==> t !in done
  {
    if t in g.m {
      LeftAfter(g, order, curr, t);
    }
  }

  /** Taking the next type off the queue, and queueing those it was the last to hold back, goes on sorting. */
  lemma SortingStep(g: Graph, deps: Graph, order: seq<TypeId>, queue: seq<TypeId>, inDegree: map<TypeId, int>,
                    degrees: map<TypeId, int>, freed: seq<TypeId>)
    requires g.Valid() && deps.Valid() && NonEmpty(g, deps)
    requires Sorting(g, order, queue, inDegree) && queue != []
    requires Relaxed(deps, inDegree, queue[0], degrees)
    requires freed == Freed(deps, inDegree, queue[0], |deps.keys|)
    ensures Sorting(g, order + [queue[0]], queue[1..] + freed, degrees)
  {
    var curr, done := queue[0], order + queue;
    NextIsNew(g, order, queue, inDegree);
    FreedMembers(deps, inDegree, curr, |deps.keys|);
    assert deps.keys[..|deps.keys|] == deps.keys;
    MoveHead(order, queue, freed);
    forall t ensures TypeOK(g, order + [curr], done + freed, degrees, t) && (t in freed ==> t !in done) {
      assert TypeOK(g, order, done, inDegree, t);
      TypeStep(g, deps, order, done, inDegree, degrees, curr, freed, t);
    }
    DistinctConcat(done, freed);
    StepDepsBefore(g, order, curr);
  }

  lemma NextIsNew(g: Graph, order: seq<TypeId>, queue: seq<TypeId>, inDegree: map<TypeId, int>)
    requires Sorting(g, order, queue, inDegree) && queue != []
    ensures queue[0] in g.m && queue[0] !in order && Left(g, order, queue[0]) == 0
    ensures forall t :: t in g.m ==> Count(g.m[t], queue[0]) <= inDegree[t]
  {
    var curr, done := queue[0], order + queue;
    assert done[|order|] == curr;
    assert curr in done;
    assert TypeOK(g, order, done, inDegree, curr);
    forall i | 0 <= i < |order| ensures order[i] != curr {
      assert done[i] == order[i];
    }
    forall t | t in g.m ensures Count(g.m[t], curr) <= inDegree[t] {
      assert TypeOK(g, order, done, inDegree, t);
      LeftAfter(g, order, curr, t);
    }
  }

  lemma MoveHead(order: seq<TypeId>, queue: seq<TypeId>, freed: seq<TypeId>)
    requires queue != []
    ensures order + queue + freed == order + [queue[0]] + (queue[1..] + freed)
  {
    assert queue == [queue[0]] + queue[1..];
  }

  lemma DistinctConcat(a: seq<TypeId>, b: seq<TypeId>)
    requires Distinct(a) && Distinct(b)
    requires forall t :: t in b ==> t !in a
    ensures Distinct(a + b)
  {
    forall i, j | 0 <= i < j < |a + b| ensures (a + b)[i] != (a + b)[j] {
      if i < |a| <= j {
        assert b[j - |a|] in b;
      }
    }
  }

  lemma StepDepsBefore(g: Graph, order: seq<TypeId>, curr: TypeId)
    requires DepsBefore(g, order) && curr in g.m && Left(g, order, curr) == 0
    ensures DepsBefore(g, order + [curr])
  {
    var order' := order + [curr];
    PendingZero(g.m[curr], g.m.Keys - Members(order));
    forall i, d | 0 <= i < |order'| && Edge(g, order'[i], d) ensures d in order'[..i] {
      if i < |order| {
        assert order'[..i] == order[..i];
      } else {
        assert order'[..i] == order;
      }
    }
  }

  /** deps holds the parameter lists of g that are not empty. */
  ghost predicate NonEmpty(g: Graph, deps: Graph) {
    && (forall t :: t in deps.m <==> t in g.m && g.m[t] != [])
    && (forall t :: t in deps.m ==> deps.m[t] == g.m[t])
  }

  method TopoSortOrder(ghost g: Graph, start: seq<TypeId>, deps: Graph, inDegree: map<TypeId, int>)
    returns (order: seq<TypeId>)
    requires g.Valid() && deps.Valid() && NonEmpty(g, deps)
    requires Sorting(g, [], start, inDegree)
    ensures exists degrees :: Sorting(g, order, [], degrees)
  {
    var queue, degrees := start, inDegree;
    order := [];
    while |queue| > 0
      invariant Sorting(g, order, queue, degrees)
      decreases g.m.Keys - Members(order)
    {
      NextIsNew(g, order, queue, degrees);
      ghost var freed := Freed(deps, degrees, queue[0], |deps.keys|);
      var relaxed, ready := Relax(queue[0], deps, degrees, queue[1..]);
      SortingStep(g, deps, order, queue, degrees, relaxed, freed);
      assert Members(order + [queue[0]]) == Members(order) + {queue[0]};
      order, queue, degrees := order + [queue[0]], ready, relaxed;
    }
    assert Sorting(g, order, [], degrees) by { assert queue == []; }
  }

  // ---------------------------------------------------------------------------
  // Cycles
  // ---------------------------------------------------------------------------

  /** Along a path, every type comes later in a build order than the next one. */
  lemma {:induction false} PathDescends(g: Graph, order: seq<TypeId>, p: seq<TypeId>)
    requires IsBuildOrder(g, order) && Path(g, p) && |p| >= 2
    ensures p[0] in order && p[|p| - 1] in order
    ensures IndexOf(order, p[|p| - 1]) < IndexOf(order, p[0])
    decreases |p|
  {
    assert Edge(g, p[0], p[1]);
    assert p[0] in Members(order) && p[1] in Members(order);
    var i := IndexOf(order, p[0]);
    assert p[1] in order[..i];
    var j :| 0 <= j < i && order[j] == p[1];
    assert IndexOf(order, p[1]) == j;
    if |p| > 2 {
      forall k | 0 <= k < |p[1..]| - 1 ensures Edge(g, p[1..][k], p[1..][k + 1]) {
        assert Edge(g, p[k + 1], p[k + 2]);
      }
      PathDescends(g, order, p[1..]);
    }
  }

  lemma NoCycleInOrder(g: Graph, order: seq<TypeId>)
    requires IsBuildOrder(g, order)
    ensures !HasCycle(g)
  {
    if p: seq<TypeId> :| |p| >= 2 && p[0] == p[|p| - 1] && Path(g, p) {
      PathDescends(g, order, p);
    }
  }

  /** t is not stuck, or waits for a stuck type. */
  ghost predicate Waits(g: Graph, stuck: set<TypeId>, t: TypeId) {
    t in stuck ==> exists d :: d in stuck && Edge(g, t, d)
  }

  /** next leads from t, if it leads anywhere, along an edge to where next leads on. */
  ghost predicate Follows(g: Graph, next: map<TypeId, TypeId>, t: TypeId) {
    t in next ==> next[t] in next && Edge(g, t, next[t])
  }

  /** Some stuck type that t waits for. */
  ghost function Blocker(g: Graph, stuck: set<TypeId>, t: TypeId): (d: TypeId)
    requires t in stuck && Waits(g, stuck, t)
    ensures d in stuck && Edge(g, t, d)
  {
    var d :| d in stuck && Edge(g, t, d); d
  }

  lemma Blockers(g: Graph, stuck: set<TypeId>) returns (next: map<TypeId, TypeId>)
    requires forall t :: Waits(g, stuck, t)
    ensures next.Keys == stuck && forall t :: Follows(g, next, t)
  {
    next := map t | t in stuck :: Blocker(g, stuck, t);
  }

  lemma {:induction false} WalkStays(g: Graph, next: map<TypeId, TypeId>, t: TypeId, n: nat)
    requires t in next && forall u :: Follows(g, next, u)
    ensures Walk(next, t, n).Some?
    decreases n
  {
    assert Follows(g, next, t);
    if n > 0 {
      WalkStays(g, next, next[t], n - 1);
    }
  }

  /** Types that all wait for one another have a cycle among them. */
  lemma StuckTypesCycle(g: Graph, stuck: set<TypeId>)
    requires stuck != {}
    requires forall t :: Waits(g, stuck, t)
    ensures HasCycle(g)
  {
    var next := Blockers(g, stuck);
    var t :| t in stuck;
    WalkStays(g, next, t, |next| + 1);
    var i, j := WalkRepeats(next, t, |next| + 1);
    WalkPrefix(next, t, j, |next| + 1);
    WalkAdd(next, t, i, j - i);
    LoopIsCycle(g, next, Walk(next, t, i).value, j - i);
  }

  /** A walk along edges that comes back to where it started is a cycle. */
  lemma LoopIsCycle(g: Graph, next: map<TypeId, TypeId>, t: TypeId, n: nat)
    requires forall u :: Follows(g, next, u)
    requires n > 0 && Walk(next, t, n) == Some(t)
    ensures HasCycle(g)
  {
    forall k: nat | k <= n ensures Walk(next, t, k).Some? {
      WalkPrefix(next, t, k, n);
    }
    var p := seq(n + 1, k requires 0 <= k <= n => Walk(next, t, k).value);
    forall k | 0 <= k < |p| - 1 ensures Edge(g, p[k], p[k + 1]) {
      WalkPrefix(next, t, k, n);
      WalkAdd(next, t, k, 1);
      assert Walk(next, p[k], 1) == Walk(next, next[p[k]], 0);
      assert Follows(g, next, p[k]);
    }
  }

  /** When Kahn's loop has an empty queue, what it has not ordered is stuck. */
  lemma Unordered(g: Graph, order: seq<TypeId>, degrees: map<TypeId, int>)
    requires g.Valid() && Sorting(g, order, [], degrees)
    ensures Members(order) <= g.m.Keys
    ensures if Members(order) == g.m.Keys then IsBuildOrder(g, order) else HasCycle(g)
  {
    assert order + [] == order;
    forall t | t in Members(order) ensures t in g.m {
      assert TypeOK(g, order, order, degrees, t);
    }
    var stuck := g.m.Keys - Members(order);
    if stuck == {} {
      forall t | t in g.m ensures t in Members(order) {
        assert t !in stuck;
      }
    } else {
      forall t ensures Waits(g, stuck, t) {
        if t in stuck {
          assert TypeOK(g, order, order, degrees, t);
          StuckWaits(g, order, degrees, t);
        }
      }
      StuckTypesCycle(g, stuck);
    }
  }

  lemma StuckWaits(g: Graph, order: seq<TypeId>, degrees: map<TypeId, int>, t: TypeId)
    requires TypeOK(g, order, order, degrees, t) && t in g.m && t !in order
    ensures Waits(g, g.m.Keys - Members(order), t)
  {
    var stuck := g.m.Keys - Members(order);
    PendingZero(g.m[t], stuck);
    var d :| d in g.m[t] && d in stuck;
    assert Edge(g, t, d);
  }

  lemma {:induction false} DistinctSize(ts: seq<TypeId>)
    requires Distinct(ts)
    ensures |Members(ts)| == |ts|
  {
    if ts != [] {
      var rest := ts[..|ts| - 1];
      DistinctSize(rest);
      assert ts == rest + [ts[|ts| - 1]];
      assert Members(ts) == Members(rest) + {ts[|ts| - 1]};
      assert ts[|ts| - 1] !in rest;
    }
  }

  lemma SameSize(a: set<TypeId>, b: set<TypeId>)
    requires a <= b && |a| == |b|
    ensures a == b
  {
    assert b * a == a;
    assert |b - a| == 0;
  }

  // ---------------------------------------------------------------------------
  // The sort
  // ---------------------------------------------------------------------------

  /** The type that a lookup of t finds. */
  function Target(aliases: map<TypeId, TypeId>, t: TypeId): TypeId {
    if t in aliases then aliases[t] else t
  }

  function Targets(aliases: map<TypeId, TypeId>, ts: seq<TypeId>): (r: seq<TypeId>)
    ensures |r| == |ts| && forall i :: 0 <= i < |ts| ==> r[i] == Target(aliases, ts[i])
  {
    seq(|ts|, i requires 0 <= i < |ts| => Target(aliases, ts[i]))
  }

  /** The registrations with every parameter that is an alias replaced by its target. */
  function Resolved(params: Graph, aliases: map<TypeId, TypeId>): (g: Graph)
    ensures params.Valid() ==> g.Valid()
  {
    OMap(map t | t in params.m :: Targets(aliases, params.m[t]), params.keys)
  }

  /** The parameter lists that are not empty, with aliases resolved. */
  method ResolveParams(params: Graph, aliases: map<TypeId, TypeId>) returns (deps: Graph)
    requires params.Valid()
    ensures deps.Valid() && NonEmpty(Resolved(params, aliases), deps)
  {
    deps := Empty();
    for i := 0 to |params.keys|
      invariant deps.Valid()
      invariant forall t :: t in deps.m <==> t in params.keys[..i] && params.m[t] != []
      invariant forall t :: t in deps.m ==> deps.m[t] == Targets(aliases, params.m[t])
    {
      var t := params.keys[i];
      assert params.keys[..i + 1] == params.keys[..i] + [t];
      assert t !in params.keys[..i];
      deps := AppendTargets(deps, t, params.m[t], aliases);
    }
    assert params.keys[..|params.keys|] == params.keys;
  }

  lemma TargetsNext(aliases: map<TypeId, TypeId>, ts: seq<TypeId>, j: nat)
    requires j < |ts|
    ensures Targets(aliases, ts[..j + 1]) == Targets(aliases, ts[..j]) + [Target(aliases, ts[j])]
  {
  }

  /** Appends the targets of ins, one by one, to the entry of t, which has none yet. */
  method AppendTargets(deps: Graph, t: TypeId, ins: seq<TypeId>, aliases: map<TypeId, TypeId>) returns (r: Graph)
    requires deps.Valid() && t !in deps.m
    ensures r.Valid()
    ensures r.m == if ins == [] then deps.m else deps.m[t := Targets(aliases, ins)]
  {
    r := deps;
    for j := 0 to |ins|
      invariant r.Valid()
      invariant r.m == if j == 0 then deps.m else deps.m[t := Targets(aliases, ins[..j])]
    {
      var v := if r.Has(t) then r.m[t] else [];
      TargetsNext(aliases, ins, j);
      assert j == 0 ==> v == Targets(aliases, ins[..0]);
      r := r.Set(t, v + [Target(aliases, ins[j])]);
    }
    assert ins[..|ins|] == ins;
  }

  /** For every registered type, how many of its parameters are registered. */
  method InDegrees(g: Graph) returns (inDegree: map<TypeId, int>)
    requires g.Valid()
    ensures inDegree.Keys == g.m.Keys
    ensures forall t :: t in g.m ==> inDegree[t] == Pending(g.m[t], g.m.Keys)
  {
    inDegree := map[];
    for i := 0 to |g.keys|
      invariant inDegree.Keys == Members(g.keys[..i])
      invariant forall t :: t in inDegree ==> t in g.m && inDegree[t] == Pending(g.m[t], g.m.Keys)
    {
      var t := g.keys[i];
      assert g.keys[..i + 1] == g.keys[..i] + [t];
      var ds := g.m[t];
      var n := 0;
      for j := 0 to |ds|
        invariant n == Pending(ds[..j], g.m.Keys)
      {
        assert ds[..j + 1][..j] == ds[..j];
        if g.Has(ds[j]) {
          n := n + 1;
        }
      }
      assert ds[..|ds|] == ds;
      inDegree := inDegree[t := n];
    }
    assert g.keys[..|g.keys|] == g.keys;
  }

  /** The types with nothing to wait for, in registration order. */
  method Ready(g: Graph, inDegree: map<TypeId, int>) returns (queue: seq<TypeId>)
    requires g.Valid() && inDegree.Keys == g.m.Keys
    ensures Distinct(queue) && forall t :: t in queue <==> t in g.m && inDegree[t] == 0
  {
    queue := [];
    for i := 0 to |g.keys|
      invariant Distinct(queue)
      invariant forall t :: t in queue <==> t in g.keys[..i] && inDegree[t] == 0
    {
      assert g.keys[..i + 1] == g.keys[..i] + [g.keys[i]];
      assert g.keys[i] !in g.keys[..i];
      if inDegree[g.keys[i]] == 0 {
        queue := queue + [g.keys[i]];
      }
    }
    assert g.keys[..|g.keys|] == g.keys;
  }

  /**
    A build order of the registrations, or None. There is none exactly when constructors
    that are all registered take one another in a circle.
   */
  method TopoSort(params: Graph, aliases: map<TypeId, TypeId>) returns (order: Option<seq<TypeId>>)
    requires params.Valid()
    ensures order.None? <==> HasCycle(Resolved(params, aliases))
    ensures order.Some? ==> IsBuildOrder(Resolved(params, aliases), order.value)
  {
    var g := Resolved(params, aliases);
    var deps := ResolveParams(params, aliases);
    var inDegree := InDegrees(g);
    var queue := Ready(g, inDegree);
    StartSorting(g, queue, inDegree);
    var found := TopoSortOrder(g, queue, deps, inDegree);
    ghost var degrees :| Sorting(g, found, [], degrees);
    AllOrdered(g, found, degrees);
    order := if |found| != |params.keys| then None else Some(found);
  }

  lemma StartSorting(g: Graph, queue: seq<TypeId>, inDegree: map<TypeId, int>)
    requires inDegree.Keys == g.m.Keys && forall t :: t in g.m ==> inDegree[t] == Pending(g.m[t], g.m.Keys)
    requires Distinct(queue) && forall t :: t in queue <==> t in g.m && inDegree[t] == 0
    ensures Sorting(g, [], queue, inDegree)
  {
    assert g.m.Keys - Members([]) == g.m.Keys;
    assert [] + queue == queue;
  }

  lemma AllOrdered(g: Graph, found: seq<TypeId>, degrees: map<TypeId, int>)
    requires g.Valid() && Sorting(g, found, [], degrees)
    ensures |found| == |g.keys| ==> IsBuildOrder(g, found) && !HasCycle(g)
    ensures |found| != |g.keys| ==> HasCycle(g)
  {
    Unordered(g, found, degrees);
    assert found + [] == found;
    DistinctSize(found);
    DistinctSize(g.keys);
    assert Members(g.keys) == g.m.Keys;
    if |found| == |g.keys| {
      SameSize(Members(found), g.m.Keys);
      NoCycleInOrder(g, found);
    }
  }
}
