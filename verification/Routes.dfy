/**
  What the router records and the routing tree its records describe.
 */
module Routes {

  /** A middleware given by its registered name, or as a function with a name to show, possibly empty. */
  datatype Middleware = Named(name: string) | Direct(fn: nat, name: string)

  /** A call on a router. A callback is the script of calls it makes on its sub-router. */
  datatype Op =
    | Use(mw: Middleware)
    | Handle(service: string, verb: string, path: string, handler: nat, mws: seq<Middleware>)
    | Group(body: Script)
    | Route(pattern: string, body: Script)

  datatype Script = End | Then(op: Op, rest: Script)

  /** A leaf of the tree: the patterns of the mounts it is under, its method and its own pattern. */
  datatype Key = Key(mounts: seq<string>, verb: string, path: string)

  datatype Leaf<M> = Live(chain: seq<M>, handler: nat) | Unavailable

  /** The middleware of the whole tree, the middleware around each mount, and the leaves. */
  datatype Tree<M> = Tree(top: seq<M>, mounts: map<seq<string>, seq<M>>, leaves: map<Key, Leaf<M>>)

  // ---------------------------------------------------------------------------
  // Recorded calls, flattened
  // ---------------------------------------------------------------------------

  /** One effect of a call: a leaf, a mount, or a middleware that must be known. */
  datatype Entry =
    | Serve(key: Key, chain: seq<Middleware>, handler: nat, service: string, names: seq<string>, autoHead: bool)
    | Mounted(at: seq<string>, chain: seq<Middleware>)
    | Applied(mw: Middleware)

  /** Where a sub-router stands: its mounts, the middleware since the last one, the names in scope. */
  datatype Place = Place(mounts: seq<string>, chain: seq<Middleware>, scope: seq<string>)

  const TOP := Place([], [], [])

  function NamesOf(mws: seq<Middleware>): seq<string> {
    if mws == [] then []
    else
      var m := mws[|mws| - 1];
      NamesOf(mws[..|mws| - 1]) + if m.name != "" then [m.name] else []
  }

  function Concat(parts: seq<string>): string {
    if parts == [] then "" else Concat(parts[..|parts| - 1]) + parts[|parts| - 1]
  }

  /** The pattern of k from the root. */
  function Full(k: Key): string {
    Concat(k.mounts) + k.path
  }

  /** The entries of one Handle call: a GET also serves HEAD. */
  function Serves(p: Place, op: Op): seq<Entry>
    requires op.Handle?
  {
    var e := Serve(Key(p.mounts, op.verb, op.path), p.chain + op.mws, op.handler, op.service,
                   p.scope + NamesOf(op.mws), false);
    if op.verb == "GET" then [e, e.(key := Key(p.mounts, "HEAD", op.path), autoHead := true)] else [e]
  }

  function Inside(p: Place, pattern: string): Place {
    Place(p.mounts + [pattern], [], p.scope)
  }

  /** A Use on a sub-router applies to what follows it. */
  function After(p: Place, op: Op): Place {
    match op
    case Use(m) => Place(p.mounts, p.chain + [m], p.scope + NamesOf([m]))
    case _ => p
  }

  /** The entries of one call on the router at p. */
  function Entries(p: Place, op: Op): seq<Entry>
    decreases op
  {
    match op
    case Use(m) => [Applied(m)]
    case Handle(_, _, _, _, mws) => Checks(mws) + Serves(p, op)
    case Group(body) => Flat(p, body)
    case Route(pattern, body) => [Mounted(p.mounts + [pattern], p.chain)] + Flat(Inside(p, pattern), body)
  }

  function Flat(p: Place, s: Script): seq<Entry>
    decreases s
  {
    match s
    case End => []
    case Then(op, rest) => Entries(p, op) + Flat(After(p, op), rest)
  }

  function Checks(mws: seq<Middleware>): seq<Entry> {
    seq(|mws|, i requires 0 <= i < |mws| => Applied(mws[i]))
  }

  /** The entries of calls on the top-level router. */
  function AllEntries(ops: seq<Op>): seq<Entry> {
    if ops == [] then [] else AllEntries(ops[..|ops| - 1]) + Entries(TOP, ops[|ops| - 1])
  }

  // ---------------------------------------------------------------------------
  // The tree the entries describe
  // ---------------------------------------------------------------------------

  /** A leaf replaces an earlier one with its key; a mount that exists stays. */
  function Put(t: Tree<Middleware>, e: Entry): Tree<Middleware> {
    match e
    case Serve(k, chain, h, _, _, _) => t.(leaves := t.leaves[k := Live(chain, h)])
    case Mounted(at, chain) => if at in t.mounts then t else t.(mounts := t.mounts[at := chain])
    case Applied(_) => t
  }

  function PutAll(t: Tree<Middleware>, es: seq<Entry>): Tree<Middleware> {
    if es == [] then t else Put(PutAll(t, es[..|es| - 1]), es[|es| - 1])
  }

  /** A route as the bookkeeping has it: path is the pattern from the root. */
  datatype Booked = Booked(verb: string, path: string, middleware: seq<string>, autoHead: bool)

  ghost function Pairs(bs: seq<Booked>): set<Key> {
    set b | b in bs :: Key([], b.verb, b.path)
  }

  /** The leaves that are taken down: direct leaves with the routes' full patterns. */
  ghost function Down(removed: map<string, seq<Booked>>): set<Key> {
    set s, b | s in removed && b in removed[s] :: Key([], b.verb, b.path)
  }

  ghost function Overlay<M>(t: Tree<M>, down: set<Key>): Tree<M> {
    t.(leaves := map k | k in t.leaves.Keys + down :: if k in down then Unavailable else t.leaves[k])
  }

  ghost function Plan(mws: seq<Middleware>, es: seq<Entry>, removed: map<string, seq<Booked>>): Tree<Middleware> {
    Overlay(PutAll(Tree(mws, map[], map[]), es), Down(removed))
  }

  // ---------------------------------------------------------------------------
  // Resolving middleware
  // ---------------------------------------------------------------------------

  datatype Owned = Owned(service: string, fn: nat)

  /** The named middleware in use, and the names whose service was removed. */
  datatype Env = Env(registry: map<string, Owned>, retired: map<string, Owned>)

  /** A middleware function, or the one that answers every request with 503. */
  datatype Link = Pass(fn: nat) | Stop

  predicate Knows(env: Env, m: Middleware) {
    m.Direct? || m.name in env.registry || m.name in env.retired
  }

  function Resolve(env: Env, m: Middleware): Link {
    if m.Direct? then Pass(m.fn)
    else if m.name in env.registry then Pass(env.registry[m.name].fn)
    else Stop
  }

  function Links(env: Env, ms: seq<Middleware>): seq<Link> {
    seq(|ms|, i requires 0 <= i < |ms| => Resolve(env, ms[i]))
  }

  function ResolveLeaf(env: Env, l: Leaf<Middleware>): Leaf<Link> {
    match l
    case Live(chain, h) => Live(Links(env, chain), h)
    case Unavailable => Unavailable
  }

  ghost function ResolveTree(env: Env, t: Tree<Middleware>): Tree<Link> {
    Tree(
      Links(env, t.top),
      map at | at in t.mounts :: Links(env, t.mounts[at]),
      map k | k in t.leaves :: ResolveLeaf(env, t.leaves[k]))
  }

  ghost predicate KnowsAll(env: Env, es: seq<Entry>) {
    forall m :: Applied(m) in es ==> Knows(env, m)
  }

  // ---------------------------------------------------------------------------
  // Bookkeeping
  // ---------------------------------------------------------------------------

  /** A leaf booked with the names in scope on the top-level router, or a service removed. */
  datatype Event = Book(scope: seq<string>, e: Entry) | Remove(service: string)

  function Record(scope: seq<string>, e: Entry): Booked
    requires e.Serve?
  {
    Booked(e.key.verb, Full(e.key), scope + e.names, e.autoHead)
  }

  function Listed(m: map<string, seq<Booked>>, s: string): seq<Booked> {
    if s in m then m[s] else []
  }

  /** The routes booked for each service since it was last removed. */
  ghost function RoutesOf(j: seq<Event>): map<string, seq<Booked>> {
    if j == [] then map[]
    else
      var r := RoutesOf(j[..|j| - 1]);
      match j[|j| - 1]
      case Book(scope, e) => if e.Serve? then r[e.service := Listed(r, e.service) + [Record(scope, e)]] else r
      case Remove(s) => r - {s}
  }

  /** The routes each removed service had; booking one for it clears them. */
  ghost function RemovedOf(j: seq<Event>): map<string, seq<Booked>> {
    if j == [] then map[]
    else
      var r := RemovedOf(j[..|j| - 1]);
      match j[|j| - 1]
      case Book(scope, e) => if e.Serve? then r - {e.service} else r
      case Remove(s) =>
        var routes := RoutesOf(j[..|j| - 1]);
        if s in routes then r[s := routes[s]] else r
  }

  /** The bookings of the leaves of es. */
  ghost function Bookings(scope: seq<string>, es: seq<Entry>): seq<Event> {
    if es == [] then []
    else Bookings(scope, es[..|es| - 1]) + if es[|es| - 1].Serve? then [Book(scope, es[|es| - 1])] else []
  }

  /** What building ops books: the callbacks from number from on run for the first time. */
  ghost function FirstRuns(scope: seq<string>, ops: seq<Op>, from: nat): seq<Event> {
    if |ops| <= from then []
    else
      var op := ops[|ops| - 1];
      FirstRuns(scope, ops[..|ops| - 1], from) + if op.Handle? then [] else Bookings(scope, Entries(TOP, op))
  }

  /**
    The leaves that running op books, whether it comes to its end or to an unknown name: a
    Handle call books its leaves before it looks up its middleware.
   */
  ghost function BookedBy(env: Env, p: Place, op: Op): seq<Entry>
    decreases op
  {
    match op
    case Use(_) => []
    case Handle(_, _, _, _, _) => Serves(p, op)
    case Group(body) => BookedIn(env, p, body)
    case Route(pattern, body) => BookedIn(env, Inside(p, pattern), body)
  }

  ghost function BookedIn(env: Env, p: Place, s: Script): seq<Entry>
    decreases s
  {
    match s
    case End => []
    case Then(op, rest) =>
      BookedBy(env, p, op) + if KnowsAll(env, Entries(p, op)) then BookedIn(env, After(p, op), rest) else []
  }

  /** What a build books, whether it comes to its end or to an unknown name. */
  ghost function Tried(env: Env, scope: seq<string>, ops: seq<Op>, from: nat): seq<Event> {
    if |ops| <= from then []
    else
      var rest, op := ops[..|ops| - 1], ops[|ops| - 1];
      Tried(env, scope, rest, from) +
      if op.Handle? || !KnowsAll(env, AllEntries(rest)) then [] else Bookings(scope, BookedBy(env, TOP, op))
  }

  /** The leaves of es, counted. */
  ghost function LeafBag(es: seq<Entry>): multiset<Entry> {
    if es == [] then multiset{}
    else LeafBag(es[..|es| - 1]) + if es[|es| - 1].Serve? then multiset{es[|es| - 1]} else multiset{}
  }

  /** The leaves booked, counted. */
  ghost function BookBag(j: seq<Event>): multiset<Entry> {
    if j == [] then multiset{}
    else BookBag(j[..|j| - 1]) + if j[|j| - 1].Book? then multiset{j[|j| - 1].e} else multiset{}
  }

  /** The leaves of the calls that book at once and of the first booked callbacks. */
  ghost function OpsBag(ops: seq<Op>, booked: nat): multiset<Entry> {
    if ops == [] then multiset{}
    else
      var op := ops[|ops| - 1];
      OpsBag(ops[..|ops| - 1], booked) + if op.Handle? || |ops| <= booked then LeafBag(Entries(TOP, op)) else multiset{}
  }

  /** The environment after the middleware of service s is retired. */
  function Retire(env: Env, s: string): Env {
    Env(
      map n | n in env.registry && env.registry[n].service != s :: env.registry[n],
      env.retired + map n | n in env.registry && env.registry[n].service == s :: env.registry[n])
  }

  lemma {:induction false} BookBagConcat(a: seq<Event>, b: seq<Event>)
    ensures BookBag(a + b) == BookBag(a) + BookBag(b)
    decreases |b|
  {
    if b == [] {
      assert a + b == a;
    } else {
      BookBagConcat(a, b[..|b| - 1]);
      assert (a + b)[..|a + b| - 1] == a + b[..|b| - 1];
    }
  }

  lemma {:induction false} BookBagBookings(scope: seq<string>, es: seq<Entry>)
    ensures BookBag(Bookings(scope, es)) == LeafBag(es)
  {
    if es != [] {
      var rest, e := es[..|es| - 1], es[|es| - 1];
      BookBagBookings(scope, rest);
      if e.Serve? {
        assert Bookings(scope, es)[..|Bookings(scope, es)| - 1] == Bookings(scope, rest);
      } else {
        assert Bookings(scope, es) == Bookings(scope, rest);
      }
    }
  }

  /** After the first runs every recorded leaf is booked. */
  lemma {:induction false} FirstRunsBook(scope: seq<string>, ops: seq<Op>, from: nat)
    requires from <= |ops|
    ensures OpsBag(ops, from) + BookBag(FirstRuns(scope, ops, from)) == OpsBag(ops, |ops|)
    decreases ops
  {
    if |ops| > from {
      var rest, op := ops[..|ops| - 1], ops[|ops| - 1];
      FirstRunsBook(scope, rest, from);
      OpsBagAll(rest, |ops|);
      if !op.Handle? {
        BookBagConcat(FirstRuns(scope, rest, from), Bookings(scope, Entries(TOP, op)));
        BookBagBookings(scope, Entries(TOP, op));
      } else {
        assert FirstRuns(scope, ops, from) == FirstRuns(scope, rest, from);
      }
    }
  }

  lemma {:induction false} OpsBagAll(ops: seq<Op>, n: nat)
    requires |ops| <= n
    ensures OpsBag(ops, n) == OpsBag(ops, |ops|)
    ensures OpsBag(ops, n) == LeafBag(AllEntries(ops))
  {
    if ops != [] {
      OpsBagAll(ops[..|ops| - 1], n);
      OpsBagAll(ops[..|ops| - 1], |ops|);
      LeafBagConcat(AllEntries(ops[..|ops| - 1]), Entries(TOP, ops[|ops| - 1]));
    }
  }

  lemma {:induction false} LeafBagConcat(a: seq<Entry>, b: seq<Entry>)
    ensures LeafBag(a + b) == LeafBag(a) + LeafBag(b)
    decreases |b|
  {
    if b == [] {
      assert a + b == a;
    } else {
      LeafBagConcat(a, b[..|b| - 1]);
      assert (a + b)[..|a + b| - 1] == a + b[..|b| - 1];
    }
  }

  // ---------------------------------------------------------------------------
  // Facts about folding entries
  // ---------------------------------------------------------------------------

  lemma {:induction false} PutAllConcat(t: Tree<Middleware>, a: seq<Entry>, b: seq<Entry>)
    ensures PutAll(PutAll(t, a), b) == PutAll(t, a + b)
    decreases |b|
  {
    if b == [] {
      assert a + b == a;
    } else {
      PutAllConcat(t, a, b[..|b| - 1]);
      assert (a + b)[..|a + b| - 1] == a + b[..|b| - 1];
    }
  }

  lemma PutOne(t: Tree<Middleware>, e: Entry)
    ensures PutAll(t, [e]) == Put(t, e)
  {
    assert [e][..0] == [];
    assert PutAll(t, [e][..0]) == t;
  }

  lemma {:induction false} PutChecks(t: Tree<Middleware>, mws: seq<Middleware>)
    ensures PutAll(t, Checks(mws)) == t
  {
    if mws != [] {
      PutChecks(t, mws[..|mws| - 1]);
      assert Checks(mws)[..|mws| - 1] == Checks(mws[..|mws| - 1]);
    }
  }

  lemma {:induction false} BookingsConcat(scope: seq<string>, a: seq<Entry>, b: seq<Entry>)
    ensures Bookings(scope, a + b) == Bookings(scope, a) + Bookings(scope, b)
    decreases |b|
  {
    if b == [] {
      assert a + b == a;
    } else {
      BookingsConcat(scope, a, b[..|b| - 1]);
      assert (a + b)[..|a + b| - 1] == a + b[..|b| - 1];
    }
  }

  lemma {:induction false} BookingsChecks(scope: seq<string>, mws: seq<Middleware>)
    ensures Bookings(scope, Checks(mws)) == []
  {
    if mws != [] {
      BookingsChecks(scope, mws[..|mws| - 1]);
      assert Checks(mws)[..|mws| - 1] == Checks(mws[..|mws| - 1]);
    }
  }

  lemma BookingsOne(scope: seq<string>, e: Entry)
    ensures Bookings(scope, [e]) == if e.Serve? then [Book(scope, e)] else []
  {
    assert [e][..0] == [];
    assert Bookings(scope, [e][..0]) == [];
  }

  /** Running a call to its end books its leaves. */
  lemma {:induction false} BookedAll(env: Env, scope: seq<string>, p: Place, op: Op)
    requires KnowsAll(env, Entries(p, op))
    ensures Bookings(scope, BookedBy(env, p, op)) == Bookings(scope, Entries(p, op))
    decreases op, 0
  {
    match op {
      case Use(_) => BookingsOne(scope, Entries(p, op)[0]);
      case Handle(_, _, _, _, mws) =>
        BookingsConcat(scope, Checks(mws), Serves(p, op));
        BookingsChecks(scope, mws);
      case Group(body) => BookedAllIn(env, scope, p, body);
      case Route(pattern, body) =>
        var e := Mounted(p.mounts + [pattern], p.chain);
        KnowsConcat(env, [e], Flat(Inside(p, pattern), body));
        BookedAllIn(env, scope, Inside(p, pattern), body);
        BookingsConcat(scope, [e], Flat(Inside(p, pattern), body));
        BookingsOne(scope, e);
    }
  }

  lemma {:induction false} BookedAllIn(env: Env, scope: seq<string>, p: Place, s: Script)
    requires KnowsAll(env, Flat(p, s))
    ensures Bookings(scope, BookedIn(env, p, s)) == Bookings(scope, Flat(p, s))
    decreases s, 1
  {
    if s.Then? {
      var here, rest := Entries(p, s.op), Flat(After(p, s.op), s.rest);
      KnowsConcat(env, here, rest);
      BookedAll(env, scope, p, s.op);
      BookedAllIn(env, scope, After(p, s.op), s.rest);
      BookingsConcat(scope, here, rest);
      BookingsConcat(scope, BookedBy(env, p, s.op), BookedIn(env, After(p, s.op), s.rest));
    }
  }

  /** A build that comes to its end has run everything new for the first time. */
  lemma {:induction false} TriedAll(env: Env, scope: seq<string>, ops: seq<Op>, from: nat)
    requires KnowsAll(env, AllEntries(ops))
    ensures Tried(env, scope, ops, from) == FirstRuns(scope, ops, from)
    decreases |ops|
  {
    if |ops| > from {
      var rest, op := ops[..|ops| - 1], ops[|ops| - 1];
      KnowsConcat(env, AllEntries(rest), Entries(TOP, op));
      TriedAll(env, scope, rest, from);
      BookedAll(env, scope, TOP, op);
    }
  }

  lemma TriedMore(env: Env, scope: seq<string>, ops: seq<Op>, i: nat, from: nat)
    requires i < |ops| && KnowsAll(env, AllEntries(ops[..i]))
    ensures Tried(env, scope, ops[..i + 1], from) == Tried(env, scope, ops[..i], from) +
      if ops[i].Handle? || i < from then [] else Bookings(scope, BookedBy(env, TOP, ops[i]))
  {
    assert ops[..i + 1][..i] == ops[..i];
  }

  /** After the call that fails nothing more is booked. */
  lemma {:induction false} TriedStops(env: Env, scope: seq<string>, ops: seq<Op>, i: nat, from: nat)
    requires i < |ops| && !KnowsAll(env, AllEntries(ops[..i + 1]))
    ensures Tried(env, scope, ops, from) == Tried(env, scope, ops[..i + 1], from)
    decreases |ops|
  {
    if i + 1 == |ops| {
      assert ops[..i + 1] == ops;
    } else {
      var rest := ops[..|ops| - 1];
      assert rest[..i + 1] == ops[..i + 1];
      TriedStops(env, scope, rest, i, from);
      if KnowsAll(env, AllEntries(rest)) {
        KnowsPrefix(env, rest, i + 1);
      }
    }
  }

  lemma KnowsConcat(env: Env, a: seq<Entry>, b: seq<Entry>)
    ensures KnowsAll(env, a + b) <==> KnowsAll(env, a) && KnowsAll(env, b)
  {
    assert forall m :: Applied(m) in a + b <==> Applied(m) in a || Applied(m) in b;
  }

  lemma KnowsChecks(env: Env, mws: seq<Middleware>)
    ensures KnowsAll(env, Checks(mws)) <==> forall i :: 0 <= i < |mws| ==> Knows(env, mws[i])
  {
    assert forall i :: 0 <= i < |mws| ==> Checks(mws)[i] == Applied(mws[i]);
    assert forall m :: Applied(m) in Checks(mws) ==> m in mws;
  }

  /** Resolving a tree after putting an entry is putting the resolved entry. */
  lemma ResolvePut(env: Env, t: Tree<Middleware>, e: Entry)
    ensures ResolveTree(env, Put(t, e)) ==
      var r := ResolveTree(env, t);
      match e
      case Serve(k, chain, h, _, _, _) => r.(leaves := r.leaves[k := Live(Links(env, chain), h)])
      case Mounted(at, chain) => if at in r.mounts then r else r.(mounts := r.mounts[at := Links(env, chain)])
      case Applied(_) => r
  {
    var r := ResolveTree(env, t);
    var q := ResolveTree(env, Put(t, e));
    match e {
      case Serve(k, chain, h, _, _, _) =>
        assert q.leaves == r.leaves[k := Live(Links(env, chain), h)];
      case Mounted(at, chain) =>
        assert at !in t.mounts ==> q.mounts == r.mounts[at := Links(env, chain)];
      case Applied(_) =>
    }
  }

  lemma LinksAppend(env: Env, a: seq<Middleware>, b: seq<Middleware>)
    ensures Links(env, a + b) == Links(env, a) + Links(env, b)
  {
  }

  lemma OverlayMore(env: Env, t: Tree<Middleware>, down: set<Key>, k: Key)
    ensures Overlay(t, down + {k}) == Overlay(t, down).(leaves := Overlay(t, down).leaves[k := Unavailable])
    ensures var r := ResolveTree(env, Overlay(t, down));
      ResolveTree(env, Overlay(t, down + {k})) == r.(leaves := r.leaves[k := Unavailable])
  {
    var r := ResolveTree(env, Overlay(t, down));
    assert Overlay(t, down + {k}).leaves == Overlay(t, down).leaves[k := Unavailable];
    assert ResolveTree(env, Overlay(t, down + {k})).leaves == r.leaves[k := Unavailable];
  }

  lemma OverlayNone<M>(t: Tree<M>)
    ensures Overlay(t, {}) == t
  {
    assert Overlay(t, {}).leaves == t.leaves;
  }

  lemma PairsMore(bs: seq<Booked>, i: nat)
    requires i < |bs|
    ensures Pairs(bs[..i + 1]) == Pairs(bs[..i]) + {Key([], bs[i].verb, bs[i].path)}
  {
    assert bs[..i + 1] == bs[..i] + [bs[i]];
  }

  /** The leaves taken down once all services but rest are dealt with. */
  ghost function Taken(removed: map<string, seq<Booked>>, rest: set<string>): set<Key> {
    Down(removed - rest)
  }

  lemma TakenEnds(removed: map<string, seq<Booked>>)
    ensures Taken(removed, removed.Keys) == {} && Taken(removed, {}) == Down(removed)
  {
    assert removed - {} == removed;
  }

  lemma TakenMore(removed: map<string, seq<Booked>>, rest: set<string>, s: string)
    requires s in rest && rest <= removed.Keys
    ensures Taken(removed, rest - {s}) == Taken(removed, rest) + Pairs(removed[s])
  {
    var now, next := removed - rest, removed - (rest - {s});
    forall k
      ensures k in Down(next) <==> k in Down(now) || k in Pairs(removed[s])
    {
      if k in Down(next) {
        var u, b: Booked :| u in next && b in next[u] && k == Key([], b.verb, b.path);
        assert u == s || (u in now && now[u] == next[u]);
      }
      if k in Down(now) {
        var u, b: Booked :| u in now && b in now[u] && k == Key([], b.verb, b.path);
        assert u in next && next[u] == now[u];
      }
      if k in Pairs(removed[s]) {
        assert s in next && next[s] == removed[s];
      }
    }
  }

  lemma OneMore(ops: seq<Op>, i: nat)
    requires i < |ops|
    ensures AllEntries(ops[..i + 1]) == AllEntries(ops[..i]) + Entries(TOP, ops[i])
  {
    assert ops[..i + 1][..i] == ops[..i];
  }

  /** What builds as a whole builds up to every call. */
  lemma {:induction false} KnowsPrefix(env: Env, ops: seq<Op>, i: nat)
    requires i <= |ops| && KnowsAll(env, AllEntries(ops))
    ensures KnowsAll(env, AllEntries(ops[..i]))
    decreases |ops|
  {
    if i == |ops| {
      assert ops[..i] == ops;
    } else {
      KnowsConcat(env, AllEntries(ops[..|ops| - 1]), Entries(TOP, ops[|ops| - 1]));
      KnowsPrefix(env, ops[..|ops| - 1], i);
      assert ops[..|ops| - 1][..i] == ops[..i];
    }
  }

  lemma KnowsAppend(env: Env, ops: seq<Op>, op: Op)
    ensures KnowsAll(env, AllEntries(ops + [op])) <==> KnowsAll(env, AllEntries(ops)) && KnowsAll(env, Entries(TOP, op))
  {
    assert (ops + [op])[..|ops|] == ops;
    KnowsConcat(env, AllEntries(ops), Entries(TOP, op));
  }

  /** A name that stays known keeps what uses it buildable. */
  lemma KnowsStill(env: Env, env': Env, es: seq<Entry>)
    requires env.registry.Keys + env.retired.Keys <= env'.registry.Keys + env'.retired.Keys
    ensures forall m :: Knows(env, m) ==> Knows(env', m)
    ensures KnowsAll(env, es) ==> KnowsAll(env', es)
  {
    forall m | Knows(env, m)
      ensures Knows(env', m)
    {
      if m.Named? {
        assert m.name in env.registry.Keys + env.retired.Keys;
      }
    }
  }

  lemma {:induction false} FirstRunsNone(scope: seq<string>, ops: seq<Op>, from: nat)
    requires |ops| <= from
    ensures FirstRuns(scope, ops, from) == []
  {
  }

  lemma FirstRunsMore(scope: seq<string>, ops: seq<Op>, op: Op)
    ensures FirstRuns(scope, ops + [op], |ops|) == if op.Handle? then [] else Bookings(scope, Entries(TOP, op))
  {
    assert (ops + [op])[..|ops|] == ops;
  }

  /** A Handle call is booked when it is made. */
  lemma TallyHandle(scope: seq<string>, j: seq<Event>, ops: seq<Op>, booked: nat, op: Op)
    requires op.Handle? && BookBag(j) == OpsBag(ops, booked)
    ensures BookBag(j + Bookings(scope, Serves(TOP, op))) == OpsBag(ops + [op], booked)
  {
    assert (ops + [op])[..|ops|] == ops;
    BookBagConcat(j, Bookings(scope, Serves(TOP, op)));
    BookBagBookings(scope, Serves(TOP, op));
    LeafBagConcat(Checks(op.mws), Serves(TOP, op));
    BookBagBookings(scope, Checks(op.mws));
    BookingsChecks(scope, op.mws);
  }

  /** A callback is booked when it first runs. */
  lemma TallyCallback(ops: seq<Op>, booked: nat, op: Op)
    requires !op.Handle? && booked <= |ops|
    ensures OpsBag(ops + [op], booked) == OpsBag(ops, booked)
  {
    assert (ops + [op])[..|ops|] == ops;
  }

  lemma JournalRemove(j: seq<Event>, s: string)
    ensures var routes, removed := RoutesOf(j), RemovedOf(j);
      RoutesOf(j + [Remove(s)]) == (if s in routes then routes - {s} else routes)
      && RemovedOf(j + [Remove(s)]) == (if s in routes then removed[s := routes[s]] else removed)
      && BookBag(j + [Remove(s)]) == BookBag(j)
  {
    assert (j + [Remove(s)])[..|j|] == j;
    assert s !in RoutesOf(j) ==> RoutesOf(j) - {s} == RoutesOf(j);
  }

  lemma NamesMore(mws: seq<Middleware>, i: nat)
    requires i < |mws|
    ensures NamesOf(mws[..i + 1]) == NamesOf(mws[..i]) + NamesOf([mws[i]])
    ensures mws[..i + 1] == mws[..i] + [mws[i]]
  {
    assert mws[..i + 1][..i] == mws[..i] && [mws[i]][..0] == [];
  }

  lemma {:induction false} NamesJoin(a: seq<Middleware>, b: seq<Middleware>)
    ensures NamesOf(a + b) == NamesOf(a) + NamesOf(b)
    decreases |b|
  {
    if b == [] {
      assert a + b == a;
    } else {
      NamesJoin(a, b[..|b| - 1]);
      assert (a + b)[..|a + b| - 1] == a + b[..|b| - 1];
    }
  }

  /** The environment once the middleware of s is retired, except that under names. */
  ghost function RetiredBut(env: Env, s: string, names: set<string>): Env {
    Env(
      map n | n in env.registry && (n in names || env.registry[n].service != s) :: env.registry[n],
      env.retired + map n | n in env.registry && n !in names && env.registry[n].service == s :: env.registry[n])
  }

  lemma RetiredEnds(env: Env, s: string)
    ensures RetiredBut(env, s, env.registry.Keys) == env
    ensures RetiredBut(env, s, {}) == Retire(env, s)
  {
    assert RetiredBut(env, s, env.registry.Keys).registry == env.registry;
    assert RetiredBut(env, s, env.registry.Keys).retired == env.retired;
    assert RetiredBut(env, s, {}).registry == Retire(env, s).registry;
    assert RetiredBut(env, s, {}).retired == Retire(env, s).retired;
  }

  lemma RetiredMore(env: Env, s: string, names: set<string>, n: string)
    requires n in names && names <= env.registry.Keys
    ensures n in RetiredBut(env, s, names).registry && RetiredBut(env, s, names).registry[n] == env.registry[n]
    ensures env.registry[n].service != s ==> RetiredBut(env, s, names - {n}) == RetiredBut(env, s, names)
    ensures env.registry[n].service == s ==>
      var now := RetiredBut(env, s, names);
      RetiredBut(env, s, names - {n}) == Env(now.registry - {n}, now.retired[n := env.registry[n]])
  {
    var now, next := RetiredBut(env, s, names), RetiredBut(env, s, names - {n});
    if env.registry[n].service == s {
      assert next.registry == now.registry - {n};
      assert next.retired == now.retired[n := env.registry[n]];
    } else {
      assert next.registry == now.registry;
      assert next.retired == now.retired;
    }
  }
}
