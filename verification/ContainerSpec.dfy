/**
  What the registrations of a container say about resolving: which types depend on
  which, and what a resolution that fails must be able to point at.
 */
module ContainerSpec {
  import opened Wrappers
  import opened OrderedMaps
  import opened BuildProtocol
  import T = TopoSort

  datatype Lifetime = Singleton | Scoped | Transient | Unknown

  /** What happens when the constructor of a type, and then the Init of what it returns, is called. */
  datatype Behaviour = Succeeds | CtorFails | InitFails

  datatype Registration = Registration(params: seq<TypeId>, lifetime: Lifetime, behaviour: Behaviour, service: bool)

  /** Everything the container knows, and for the ghost fields what it has done. */
  datatype State = State(
    regs: OMap<TypeId, Registration>,
    aliases: OMap<TypeId, TypeId>,
    sh: Shared,
    inited: set<TypeId>,
    services: set<Value>,
    badInit: set<Value>,
    nextValue: Value,
    constructed: set<TypeId>,
    initLog: seq<Value>,
    deepest: nat)
  {
    function Insts(): OMap<TypeId, Value> {
      sh.instances
    }

    function Lookup(t: TypeId): TypeId {
      T.Target(aliases.m, t)
    }

    /** The types the constructor of t takes, aliases resolved. */
    function Deps(t: TypeId): seq<TypeId> {
      if t in regs.m then T.Targets(aliases.m, regs.m[t].params) else []
    }

    predicate Has(t: TypeId) {
      t in sh.instances.m
    }

    predicate Lives(t: TypeId, l: Lifetime) {
      t in regs.m && regs.m[t].lifetime == l
    }
  }

  ghost predicate Edge(s: State, t: TypeId, d: TypeId) {
    d in s.Deps(t)
  }

  ghost predicate Path(s: State, p: seq<TypeId>) {
    forall i :: 0 <= i < |p| - 1 ==> Edge(s, p[i], p[i + 1])
  }

  /** Constructing from may call for to, through any number of constructors. */
  ghost predicate Leads(s: State, from: TypeId, to: TypeId) {
    exists p: seq<TypeId> :: p != [] && p[0] == from && p[|p| - 1] == to && Path(s, p)
  }

  // ---------------------------------------------------------------------------
  // Reasons to fail
  // ---------------------------------------------------------------------------

  /** The type an error is about. */
  function Subject(e: DIError): TypeId {
    match e
    case Circular(c) => if c == [] then 0 else c[|c| - 1]
    case WaitCycle(t) => t
    case TooDeep(t) => t
    case NotRegistered(_, t) => t
    case ScopeRequired(t) => t
    case InvalidLifetime(t) => t
    case NoConstructor(t) => t
    case Captive(t, _) => t
    case CtorFailed(t) => t
    case InitFailed(t) => t
  }

  /** The registrations bear the error out. */
  ghost predicate BornOut(s: State, e: DIError) {
    match e
    case Circular(c) => |c| >= 2 && c[0] == c[|c| - 1] && Path(s, c)
    case TooDeep(t) => exists p :: |p| == MAX_RESOLVE_DEPTH + 1 && NoDups(p) && Path(s, p) && p[|p| - 1] == t
    case NotRegistered(asked, t) => t == s.Lookup(asked) && t !in s.regs.m && !s.Has(t)
    case ScopeRequired(t) => s.Lives(t, Scoped) && !s.Has(t)
    case InvalidLifetime(t) => s.Lives(t, Unknown) && !s.Has(t)
    case NoConstructor(t) => t !in s.regs.m
    case CtorFailed(t) => t in s.regs.m && s.regs.m[t].behaviour == CtorFails
    case InitFailed(t) => t in s.regs.m && s.regs.m[t].behaviour == InitFails && s.regs.m[t].service
    case WaitCycle(_) => false
    case Captive(_, _) => false
  }

  /** The error points at something wrong with a type that t calls for. */
  ghost predicate Blamed(s: State, t: TypeId, e: DIError) {
    BornOut(s, e) && Leads(s, t, Subject(e))
  }

  // ---------------------------------------------------------------------------
  // Well-formed states
  // ---------------------------------------------------------------------------

  /** An alias leads to a type that is not an alias, and is not itself registered. */
  ghost predicate AliasFlat(s: State, a: TypeId) {
    a in s.aliases.m ==> s.aliases.m[a] !in s.aliases.m && a !in s.regs.m && !s.Has(a)
  }

  ghost predicate Before(keys: seq<TypeId>, d: TypeId, u: TypeId) {
    d in keys && u in keys && IndexOf(keys, d) < IndexOf(keys, u)
  }

  /** d was there before u, or is built anew for everyone who asks. */
  ghost predicate DepFirst(s: State, u: TypeId, d: TypeId) {
    u in s.constructed && Edge(s, u, d) ==>
      ((s.Lives(d, Transient) && !s.Has(d)) || Before(s.Insts().keys, d, u))
  }

  /** The instance order puts what a constructor took before what it made. */
  ghost predicate DepsFirst(s: State) {
    forall u: TypeId, d: TypeId :: DepFirst(s, u, d)
  }

  ghost predicate Origin(s: State, t: TypeId) {
    && (t in s.constructed ==> s.Lives(t, Singleton) && s.Has(t))
    && (s.Has(t) ==> s.Insts().m[t] < s.nextValue)
    && (s.Lives(t, Transient) ==> !s.regs.m[t].service)
  }

  ghost predicate ServiceKnown(s: State, v: Value) {
    v in s.services ==> v < s.nextValue
  }

  ghost predicate Basics(s: State) {
    && s.regs.Valid() && s.aliases.Valid() && s.Insts().Valid()
    && (forall a: TypeId :: AliasFlat(s, a))
    && DepsFirst(s)
    && (forall t: TypeId :: Origin(s, t))
    && (forall v: Value :: ServiceKnown(s, v))
  }

  ghost predicate BuildMine(s: State, g: Gid, starting: set<TypeId>, t: TypeId) {
    t in s.sh.builds ==>
      && s.sh.builds[t] < |s.sh.heap|
      && s.sh.heap[s.sh.builds[t]].gid == g && s.sh.heap[s.sh.builds[t]].t == t
      && !s.Has(t)
      && (t in StackOf(s.sh, g) || t in starting)
  }

  /**
    Goroutine g is the only one at work. What it is building is on its stack, apart from
    the builds it is just starting.
   */
  ghost predicate Alone(s: State, g: Gid, starting: set<TypeId>) {
    && s.sh.waiting == map[]
    && (forall t: TypeId :: BuildMine(s, g, starting, t))
    && NoDups(StackOf(s.sh, g)) && |StackOf(s.sh, g)| <= MAX_RESOLVE_DEPTH
    && (g in s.sh.stacks ==> s.sh.stacks[g] != [])
    && Path(s, StackOf(s.sh, g))
  }

  /** t is asked for from outside, or by the constructor on top of g's stack. */
  ghost predicate Asked(s: State, g: Gid, t: TypeId) {
    var stack := StackOf(s.sh, g);
    stack != [] ==> Edge(s, stack[|stack| - 1], t)
  }

  /** What a resolution may change: it adds singletons it constructed, and nothing else. */
  ghost predicate Grew(a: State, b: State) {
    && b.regs == a.regs && b.aliases == a.aliases && b.inited == a.inited && b.badInit == a.badInit
    && b.sh.stacks == a.sh.stacks && b.sh.builds == a.sh.builds && b.sh.waiting == a.sh.waiting
    && a.Insts().keys <= b.Insts().keys
    && (forall t: TypeId :: Kept(a, b, t))
    && a.constructed <= b.constructed
    && a.deepest <= b.deepest && a.nextValue <= b.nextValue
    && (forall v: Value :: SameService(a, b, v))
    && (forall t: TypeId, u: TypeId :: NoNewTwins(a, b, t, u))
  }

  /** One instance is held under the types t and u. */
  ghost predicate Twins(s: State, t: TypeId, u: TypeId) {
    t != u && s.Has(t) && s.Has(u) && s.Insts().m[t] == s.Insts().m[u]
  }

  /** What is constructed is held under one type: it is no instance held before. */
  ghost predicate NoNewTwins(a: State, b: State, t: TypeId, u: TypeId) {
    Twins(b, t, u) ==> Twins(a, t, u) && (t in b.constructed ==> t in a.constructed)
  }

  /** No instance that was constructed is held under another type too. */
  ghost predicate MadeOnce(s: State) {
    forall t: TypeId, u: TypeId :: Twins(s, t, u) ==> t !in s.constructed
  }

  /** No service is held under two types. */
  ghost predicate OneType(s: State) {
    forall t: TypeId, u: TypeId :: !ServiceTwins(s, t, u)
  }

  ghost predicate ServiceTwins(s: State, t: TypeId, u: TypeId) {
    Twins(s, t, u) && s.Insts().m[t] in s.services
  }

  ghost predicate SameService(a: State, b: State, v: Value) {
    v < a.nextValue ==> (v in b.services <==> v in a.services)
  }

  ghost predicate Kept(a: State, b: State, t: TypeId) {
    && (a.Has(t) ==> b.Has(t) && b.Insts().m[t] == a.Insts().m[t])
    && (b.Has(t) && !a.Has(t) ==> b.Lives(t, Singleton) && t in b.constructed)
  }

  lemma GrewTrans(a: State, b: State, c: State)
    requires Grew(a, b) && Grew(b, c)
    ensures Grew(a, c)
  {
    forall t: TypeId ensures Kept(a, c, t) {
      assert Kept(a, b, t) && Kept(b, c, t);
    }
    forall v: Value ensures SameService(a, c, v) {
      assert SameService(a, b, v) && SameService(b, c, v);
    }
    forall t: TypeId, u: TypeId ensures NoNewTwins(a, c, t, u) {
      assert NoNewTwins(a, b, t, u) && NoNewTwins(b, c, t, u);
    }
  }

  lemma GrewSelf(a: State)
    ensures Grew(a, a)
  {
  }

  /** An error borne out after more was built was borne out before. */
  lemma LeadsSelf(s: State, t: TypeId)
    ensures Leads(s, t, t)
  {
    assert [t][0] == t && Path(s, [t]);
  }

  lemma LeadsStep(s: State, t: TypeId, d: TypeId, u: TypeId)
    requires Edge(s, t, d) && Leads(s, d, u)
    ensures Leads(s, t, u)
  {
    var p: seq<TypeId> :| p != [] && p[0] == d && p[|p| - 1] == u && Path(s, p);
    var q := [t] + p;
    forall i | 0 <= i < |q| - 1 ensures Edge(s, q[i], q[i + 1]) {
      if i > 0 {
        assert Edge(s, p[i - 1], p[i]);
      }
    }
    assert q[0] == t && q[|q| - 1] == u && Path(s, q);
  }

  /** The first type from position i on that there is no instance for yet. */
  function FirstMissing(s: State, ts: seq<TypeId>, i: nat): Option<TypeId>
    requires i <= |ts|
    decreases |ts| - i
  {
    if i == |ts| then None
    else if !s.Has(s.Lookup(ts[i])) then Some(ts[i])
    else FirstMissing(s, ts, i + 1)
  }

  lemma IndexKept(a: seq<TypeId>, b: seq<TypeId>, t: TypeId)
    requires a <= b && t in a
    ensures IndexOf(a, t) == IndexOf(b, t)
  {
    var i, j := IndexOf(a, t), IndexOf(b, t);
    assert b[i] == t;
    assert j <= i && a[j] == b[j];
  }

  // ---------------------------------------------------------------------------
  // What has been initialized
  // ---------------------------------------------------------------------------

  /** The instance of t is a service whose Init has succeeded. */
  predicate IsMarked(s: State, t: TypeId) {
    s.Has(t) && s.Insts().m[t] in s.services && (t in s.inited || t in s.constructed)
  }

  /** The services among the instances at keys that are marked as initialized, in order. */
  function Marked(s: State, keys: seq<TypeId>): seq<Value> {
    if keys == [] then []
    else
      var t := keys[|keys| - 1];
      Marked(s, keys[..|keys| - 1]) + if IsMarked(s, t) then [s.Insts().m[t]] else []
  }

  /** The Inits that succeeded are those of the marked instances, in instance order. */
  ghost predicate Tracked(s: State) {
    s.initLog == Marked(s, s.Insts().keys)
  }

  ghost predicate SameMark(a: State, b: State, t: TypeId) {
    && (a.Has(t) <==> b.Has(t))
    && (a.Has(t) ==>
          a.Insts().m[t] == b.Insts().m[t] && (a.Insts().m[t] in a.services <==> b.Insts().m[t] in b.services))
    && (t in a.inited || t in a.constructed <==> t in b.inited || t in b.constructed)
  }

  lemma {:induction false} MarkedSame(a: State, b: State, keys: seq<TypeId>)
    requires forall t :: t in keys ==> SameMark(a, b, t)
    ensures Marked(a, keys) == Marked(b, keys)
  {
    if keys != [] {
      assert keys[|keys| - 1] in keys;
      MarkedSame(a, b, keys[..|keys| - 1]);
    }
  }

  lemma MarkedNext(s: State, keys: seq<TypeId>, t: TypeId)
    ensures Marked(s, keys + [t]) == Marked(s, keys) + if IsMarked(s, t) then [s.Insts().m[t]] else []
  {
    assert (keys + [t])[..|keys|] == keys;
  }
}
