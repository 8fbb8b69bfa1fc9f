/**
  The dependency-injection container. The first group of methods are the regions that
  run with the mutex held; the second resolves types on one goroutine.
 */
module Container {
  import opened Wrappers
  import opened Walks
  import opened OrderedMaps
  import opened BuildProtocol
  import opened ContainerSpec
  import opened ContainerProofs
  import opened BuildPlan
  import T = TopoSort

  class ServiceContainer {
    var registrations: OMap<TypeId, Registration>
    var instances: OMap<TypeId, Value>
    var aliases: OMap<TypeId, TypeId>
    var initedInstances: set<TypeId>

    var builds: map<TypeId, BuildId>
    var heap: seq<Build>
    var stacks: map<Gid, seq<TypeId>>
    var waiting: map<Gid, BuildId>

    // The services' own behaviour: the value the next constructor returns, the values
    // that implement Service, and the pre-registered ones whose Init fails.
    var nextValue: Value
    var services: set<Value>
    var badInit: set<Value>

    // The types built, the Inits that succeeded, and the deepest nesting of constructors.
    ghost var constructed: set<TypeId>
    ghost var initLog: seq<Value>
    ghost var deepest: nat

    ghost function Sh(): Shared
      reads this
    {
      Shared(instances, builds, heap, stacks, waiting)
    }

    ghost function S(): State
      reads this
    {
      State(registrations, aliases, Sh(), initedInstances, services, badInit, nextValue, constructed, initLog, deepest)
    }

    /** Every build the container refers to exists. */
    ghost predicate BuildsExist()
      reads this
    {
      && (forall g :: g in waiting ==> waiting[g] < |heap|)
      && (forall t :: t in builds ==> builds[t] < |heap|)
    }

    // -------------------------------------------------------------------------
    // Regions under the mutex
    // -------------------------------------------------------------------------

    method CycleOnStack(stack: seq<TypeId>, t: TypeId) returns (path: Option<seq<TypeId>>)
      ensures path == CycleIn(stack, t)
    {
      for i := 0 to |stack|
        invariant t !in stack[..i]
      {
        if stack[i] == t {
          assert IndexOf(stack, t) == i by {
            assert forall j :: 0 <= j < i ==> stack[..i][j] == stack[j];
          }
          return Some(stack[i..] + [t]);
        }
      }
      assert stack[..|stack|] == stack;
      return None;
    }

    /**
      Whether the goroutine running b is, through a chain of builds each waiting on the
      next, waiting on g. Walking one step more than there are waits decides it.
     */
    method WaitsOn(b: BuildId, g: Gid) returns (r: bool)
      requires BuildsExist() && b < |heap|
      ensures r <==> Reaches(Next(Sh()), heap[b].gid, g)
    {
      ghost var next, start := Next(Sh()), heap[b].gid;
      var cur: BuildId := b;
      for i := 0 to |waiting| + 1
        invariant cur < |heap| && Walk(next, start, i) == Some(heap[cur].gid)
        invariant forall j: nat :: j < i ==> Walk(next, start, j) != Some(g)
      {
        if heap[cur].gid == g {
          return true;
        }
        if heap[cur].gid !in waiting {
          forall n: nat ensures Walk(next, start, n) != Some(g) {
            if n > i {
              WalkAdd(next, start, i, n - i);
            }
          }
          return false;
        }
        WalkAdd(next, start, i, 1);
        assert Walk(next, heap[cur].gid, 1) == Walk(next, next[heap[cur].gid], 0);
        cur := waiting[heap[cur].gid];
      }
      assert next.Keys == waiting.Keys;
      assert |next| == |next.Keys| == |waiting|;
      if n: nat :| Walk(next, start, n) == Some(g) {
        var m := ReachesWithin(next, start, g, n);
      }
      return false;
    }

    /** The region that decides what happens to a request for the singleton t. */
    method Begin(g: Gid, t: TypeId) returns (d: Decision)
      requires BuildsExist()
      modifies this
      ensures d == Decide(old(Sh()), g, t)
      ensures S() == old(S()).(sh := Decided(old(Sh()), g, t))
    {
      if instances.Has(t) {
        return Hit(instances.m[t]);
      }
      if t in builds {
        var b := builds[t];
        if heap[b].gid == g {
          var path := CycleOnStack(if g in stacks then stacks[g] else [], t);
          return if path.Some? then Refuse(Circular(path.value)) else Refuse(Circular([t]));
        }
        var deadlock := WaitsOn(b, g);
        if deadlock {
          return Refuse(WaitCycle(t));
        }
        waiting := waiting[g := b];
        return Wait(b);
      }
      builds := builds[t := |heap|];
      heap := heap + [Build(t, g, None, false)];
      return Start(|heap| - 1);
    }

    method EnterBuild(g: Gid, t: TypeId) returns (e: Option<DIError>)
      modifies this
      ensures e == EnterError(old(Sh()), g, t)
      ensures S() == old(S()).(sh := Entered(old(Sh()), g, t),
                               deepest := if e.None? then Max(old(deepest), |StackOf(old(Sh()), g)| + 1)
                                          else old(deepest))
    {
      var stack := if g in stacks then stacks[g] else [];
      var path := CycleOnStack(stack, t);
      if path.Some? {
        return Some(Circular(path.value));
      }
      if |stack| >= MAX_RESOLVE_DEPTH {
        return Some(TooDeep(t));
      }
      stacks := stacks[g := stack + [t]];
      deepest := Max(deepest, |stack| + 1);
      return None;
    }

    method LeaveBuild(g: Gid)
      modifies this
      ensures S() == old(S()).(sh := Left(old(Sh()), g))
    {
      var stack := if g in stacks then stacks[g] else [];
      if |stack| <= 1 {
        stacks := stacks - {g};
        return;
      }
      stacks := stacks[g := stack[..|stack| - 1]];
    }

    /** Publishes the result of build b of t. */
    method FinishBuild(t: TypeId, b: BuildId, out: Outcome)
      requires b < |heap|
      modifies this
      ensures S() == old(S()).(sh := Finished(old(Sh()), t, b, out),
                               constructed := old(constructed) + if out.Ok? then {t} else {})
    {
      if out.Ok? {
        instances := instances.Set(t, out.value);
        constructed := constructed + {t};
      }
      builds := builds - {t};
      heap := heap[b := heap[b].(result := Some(out))];
    }

    method CloseDone(b: BuildId)
      requires b < |heap|
      modifies this
      ensures S() == old(S()).(sh := Closed(old(Sh()), b))
    {
      heap := heap[b := heap[b].(done := true)];
    }

    method EndWait(g: Gid)
      modifies this
      ensures S() == old(S()).(sh := Woken(old(Sh()), g))
    {
      waiting := waiting - {g};
    }

    // -------------------------------------------------------------------------
    // Resolving on one goroutine
    // -------------------------------------------------------------------------

    function AliasTarget(t: TypeId): TypeId
      reads this
    {
      if aliases.Has(t) then aliases.m[t] else t
    }

    /**
      Returns the instance for asked, building it and what it takes. It ends for every
      registration graph; when it fails, the error points at something wrong with a type
      that asked calls for.
     */
    method ResolveType(g: Gid, asked: TypeId) returns (r: Outcome)
      requires Basics(S()) && Alone(S(), g, {}) && Asked(S(), g, S().Lookup(asked))
      modifies this
      ensures Basics(S()) && Alone(S(), g, {}) && Grew(old(S()), S())
      ensures Tracked(old(S())) ==> Tracked(S())
      ensures r.Ok? ==> Provides(S(), S().Lookup(asked), r.value)
      ensures r.Err? ==> Blamed(S(), S().Lookup(asked), r.error)
      ensures old(S()).Has(old(S()).Lookup(asked)) ==> r.Ok? && S() == old(S())
      ensures r.Ok? && !old(S()).Has(old(S()).Lookup(asked)) ==>
        MadeNow(old(S()), S(), old(S()).Lookup(asked), r.value)
      ensures r.Ok? && !S().Has(S().Lookup(asked)) ==> Fresh(S(), r.value)
      ensures StackOf(old(Sh()), g) == [] && TransientAsked(old(S()), asked) ==>
        Shallow(old(S()), S(), old(S()).Lookup(asked), r)
      ensures Refused(old(S()), asked).Some? ==> r == Err(Refused(old(S()), asked).value) && S() == old(S())
      decreases MAX_RESOLVE_DEPTH + 1 - |StackOf(Sh(), g)|, 4
    {
      var t := AliasTarget(asked);
      assert t == S().Lookup(asked);
      LeadsSelf(S(), t);
      if instances.Has(t) {
        return Ok(instances.m[t]);
      }
      if !registrations.Has(t) {
        return Err(NotRegistered(asked, t));
      }
      match registrations.m[t].lifetime {
        case Singleton => r := ResolveSingleton(g, t);
        case Transient =>
          ghost var s0 := S();
          r := Invoke(g, t, {});
          assert Kept(s0, S(), t) && Origin(S(), t);
        case Scoped => r := Err(ScopeRequired(t));
        case Unknown => r := Err(InvalidLifetime(t));
      }
    }

    method ResolveSingleton(g: Gid, t: TypeId) returns (r: Outcome)
      requires Basics(S()) && Alone(S(), g, {}) && Asked(S(), g, t) && S().Lives(t, Singleton)
      modifies this
      ensures Basics(S()) && Alone(S(), g, {}) && Grew(old(S()), S())
      ensures Tracked(old(S())) ==> Tracked(S())
      ensures r.Ok? ==> S().Has(t) && r.value == S().Insts().m[t]
      ensures r.Err? ==> Blamed(S(), t, r.error)
      ensures old(S()).Has(t) ==> r.Ok? && S() == old(S())
      ensures r.Ok? && !old(S()).Has(t) ==> MadeNow(old(S()), S(), t, r.value)
      ensures StackOf(old(Sh()), g) == [] && !old(S()).Has(t) && t !in old(builds) ==>
        Shallow(old(S()), S(), t, r) && (ShallowCase(old(S()), t) ==> AddsOnly(old(S()), S(), t, r))
      decreases MAX_RESOLVE_DEPTH + 1 - |StackOf(Sh(), g)|, 3
    {
      ghost var s0 := S();
      AloneBuildsExist(s0, g, {});
      NeverWaits(s0, g, t);
      var d := Begin(g, t);
      match d {
        case Hit(v) =>
          r := Ok(v);
        case Refuse(e) =>
          OwnBuildRefused(s0, g, t);
          r := Err(e);
        case Wait(b) =>
          assert false;
        case Start(b) =>
          r := RunBuild(g, t, b, s0);
      }
    }

    /** Runs build b of t, which was started in the state s0, and publishes what comes of it. */
    method RunBuild(g: Gid, t: TypeId, b: BuildId, ghost s0: State) returns (r: Outcome)
      requires Startable(s0, g, t) && S() == s0.(sh := Decided(s0.sh, g, t)) && b == |s0.sh.heap|
      modifies this
      ensures Resolved(s0, S(), g, t, r)
      decreases MAX_RESOLVE_DEPTH + 1 - |StackOf(Sh(), g)|, 2
    {
      ghost var s1 := S();
      StartAlone(s0, s1, g, t);
      r := Invoke(g, t, {t});
      ghost var s2 := S();
      assert Kept(s1, s2, t) && BuildMine(s2, g, {t}, t);
      FinishBuild(t, b, r);
      CloseDone(b);
      FinishAlone(s0, s1, s2, S(), g, t, b, r);
    }

    method Invoke(g: Gid, t: TypeId, ghost starting: set<TypeId>) returns (r: Outcome)
      requires Basics(S()) && Alone(S(), g, starting) && Asked(S(), g, t)
      requires starting <= {t} && !S().Has(t)
      modifies this
      ensures Invoked(old(S()), S(), g, t, starting, r)
      decreases MAX_RESOLVE_DEPTH + 1 - |StackOf(Sh(), g)|, 1
    {
      ghost var s0 := S();
      if !registrations.Has(t) {
        NotInvoked(s0, g, t, starting, NoConstructor(t));
        return Err(NoConstructor(t));
      }
      var e := EnterBuild(g, t);
      if e.Some? {
        EnterRefused(s0, g, t, starting);
        NotInvoked(s0, g, t, starting, e.value);
        return Err(e.value);
      }
      EnterAlone(s0, S(), g, t, starting);
      r := Construct(g, t, s0, starting);
    }

    /** Resolves what the constructor of t takes, calls it, and leaves t. */
    method Construct(g: Gid, t: TypeId, ghost s0: State, ghost starting: set<TypeId>) returns (r: Outcome)
      requires Entering(s0, S(), g, t, starting) && Basics(S()) && Alone(S(), g, {})
      requires StackOf(Sh(), g) != [] && StackOf(Sh(), g)[|StackOf(Sh(), g)| - 1] == t
      modifies this
      ensures Invoked(s0, S(), g, t, starting, r)
      decreases MAX_RESOLVE_DEPTH + 1 - |StackOf(Sh(), g)|, 6
    {
      ghost var s1 := S();
      var argsErr := ResolveCtorArgs(g, t, registrations.m[t].params);
      ghost var s2 := S();
      if argsErr.Some? {
        LeaveBuild(g);
        InvokeFailed(s0, s1, s2, S(), g, t, starting, argsErr.value);
        return Err(argsErr.value);
      }
      r := CallConstructor(t);
      LeaveBuild(g);
      InvokeCalled(s0, s1, s2, S(), g, t, starting, r);
    }

    /** Calls the constructor of t and, if it made a service, its Init. */
    method CallConstructor(t: TypeId) returns (r: Outcome)
      requires t in registrations.m
      modifies this
      ensures Called(old(S()), S(), t, r)
    {
      var reg := registrations.m[t];
      if reg.behaviour == CtorFails {
        return Err(CtorFailed(t));
      }
      var v := nextValue;
      nextValue := nextValue + 1;
      if !reg.service {
        return Ok(v);
      }
      services := services + {v};
      if reg.behaviour == InitFails {
        return Err(InitFailed(t));
      }
      initLog := initLog + [v];
      return Ok(v);
    }

    method ResolveCtorArgs(g: Gid, t: TypeId, params: seq<TypeId>) returns (e: Option<DIError>)
      requires Basics(S()) && Alone(S(), g, {})
      requires StackOf(Sh(), g) != [] && StackOf(Sh(), g)[|StackOf(Sh(), g)| - 1] == t
      requires t in registrations.m && registrations.m[t].params == params
      modifies this
      ensures ArgsDone(old(S()), S(), g, t, e)
      decreases MAX_RESOLVE_DEPTH + 1 - |StackOf(Sh(), g)|, 5
    {
      ghost var s0, quiet := S(), true;
      for i := 0 to |params|
        invariant Basics(S()) && Alone(S(), g, {}) && Grew(s0, S())
        invariant Tracked(s0) ==> Tracked(S())
        invariant ArgsSoFar(s0, S(), params, i, quiet)
      {
        ghost var s1 := S();
        assert Edge(s1, t, s1.Lookup(params[i])) by { assert s1.Deps(t)[i] == s1.Lookup(params[i]); }
        var r := ResolveType(g, params[i]);
        if r.Err? {
          ArgFailed(s0, s1, S(), t, params, i, quiet, r.error);
          return Some(r.error);
        }
        NextArg(s0, s1, S(), params, i, quiet);
        quiet := quiet && s0.Has(s0.Lookup(params[i]));
      }
      AllProvided(S(), t, params);
      return None;
    }

    // -------------------------------------------------------------------------
    // Building everything
    // -------------------------------------------------------------------------

    /** Reports the first alias, in registration order, that leads nowhere. */
    method ValidateAliases() returns (e: Option<DIError>)
      requires aliases.Valid()
      ensures e.None? <==> AliasesBound(S())
      ensures e.Some? ==> FirstUnbound(S(), e.value)
    {
      for i := 0 to |aliases.keys|
        invariant forall j :: 0 <= j < i ==> Bound(S(), aliases.keys[j])
      {
        var a := aliases.keys[i];
        var t := aliases.m[a];
        if !registrations.Has(t) && !instances.Has(t) {
          assert !Bound(S(), a) && UnboundAt(S(), NotRegistered(a, t), i);
          return Some(NotRegistered(a, t));
        }
      }
      forall a: TypeId ensures Bound(S(), a) {
        if a in aliases.m {
          assert aliases.keys[IndexOf(aliases.keys, a)] == a;
        }
      }
      return None;
    }

    /** Reports a singleton that takes a scoped or transient service. */
    method ValidateLifetimes() returns (e: Option<DIError>)
      requires registrations.Valid()
      ensures e.None? <==> NoCaptives(S())
      ensures e.Some? ==> e.value.Captive? && CaptiveAt(S(), e.value.t, e.value.dep)
    {
      for i := 0 to |registrations.keys|
        invariant forall j, d: TypeId :: 0 <= j < i ==> !CaptiveAt(S(), registrations.keys[j], d)
      {
        var t := registrations.keys[i];
        var params := registrations.m[t].params;
        for k := 0 to |params|
          invariant forall j :: 0 <= j < k ==> !CaptiveAt(S(), t, S().Lookup(params[j]))
        {
          var d := AliasTarget(params[k]);
          assert d == S().Deps(t)[k];
          if !instances.Has(d) && registrations.Has(d)
             && registrations.m[t].lifetime == Singleton
             && (registrations.m[d].lifetime == Scoped || registrations.m[d].lifetime == Transient) {
            assert CaptiveAt(S(), t, d);
            return Some(Captive(t, d));
          }
        }
        forall d: TypeId ensures !CaptiveAt(S(), t, d) {
          if d in S().Deps(t) {
            var k :| 0 <= k < |params| && S().Deps(t)[k] == d;
          }
        }
      }
      forall t: TypeId, d: TypeId ensures !CaptiveAt(S(), t, d) {
        if t in registrations.m {
          assert registrations.keys[IndexOf(registrations.keys, t)] == t;
        }
      }
      return None;
    }

    /** Calls Init on every instance that is a service and is not marked, in registration order. */
    method InitInstances() returns (e: Option<DIError>)
      requires instances.Valid()
      modifies this
      ensures e.None? <==> InitsWork(old(S()))
      ensures OnlyInits(old(S()), S())
      ensures S() == InitedUpTo(old(S()), GoodInits(old(S()), 0))
      ensures e.None? ==> GoodInits(old(S()), 0) == |instances.keys|
      ensures e.Some? ==> e.value.InitFailed?
    {
      ghost var s0 := S();
      var keys := instances.keys;
      NothingInited(s0);
      for i := 0 to |keys|
        invariant instances.keys == keys && S() == InitedUpTo(s0, i) && GoodSoFar(s0, i)
      {
        var t := keys[i];
        InitNext(s0, i);
        assert t !in InitKeys(s0, keys[..i]);
        if t !in initedInstances && instances.m[t] in services {
          initedInstances := initedInstances + {t};
          if instances.m[t] in badInit {
            initedInstances := initedInstances - {t};
            assert S() == InitedUpTo(s0, i);
            InitsEnd(s0, i);
            return Some(InitFailed(t));
          }
          initLog := initLog + [instances.m[t]];
        }
      }
      InitsEnd(s0, |keys|);
      return None;
    }

    /**
      Initializes the instances and builds every singleton, in dependency order. Success
      is decided by what is registered; constructors never nest; the only cycle it can
      report is one among the registrations, before it has built anything.
     */
    method BuildAll(g: Gid) returns (e: Option<DIError>)
      requires Basics(S()) && Alone(S(), g, {}) && StackOf(Sh(), g) == [] && builds == map[]
      modifies this
      ensures Basics(S()) && Alone(S(), g, {})
      ensures e.None? <==> Buildable(old(S()))
      ensures e.None? ==> forall t: TypeId :: S().Lives(t, Singleton) ==> S().Has(t)
      ensures !AliasesBound(old(S())) ==> e.Some? && FirstUnbound(old(S()), e.value) && S() == old(S())
      ensures AliasesBound(old(S())) && !NoCaptives(old(S())) ==>
        e.Some? && e.value.Captive? && CaptiveAt(old(S()), e.value.t, e.value.dep) && S() == old(S())
      ensures AliasesBound(old(S())) && NoCaptives(old(S())) && !InitsWork(old(S())) ==>
        e.Some? && e.value.InitFailed? && instances == old(instances)
      ensures e.Some? && e.value.Circular? <==>
        AliasesBound(old(S())) && NoCaptives(old(S())) && InitsWork(old(S())) && T.HasCycle(Graph(old(S())))
      ensures e.Some? && e.value.Circular? ==> instances == old(instances)
      ensures e.Some? ==> !e.value.TooDeep? && !e.value.WaitCycle?
      ensures deepest <= Max(old(deepest), 1)
      ensures FirstStart(old(S())) ==> Tracked(S())
      ensures e.None? ==> forall t: TypeId :: Running(S(), t)
      ensures StartedFrom(old(S()), S())
    {
      ghost var s0 := S();
      e := ValidateAliases();
      if e.Some? {
        NotStarted(s0);
        return;
      }
      e := ValidateLifetimes();
      if e.Some? {
        NotStarted(s0);
        return;
      }
      e := InitInstances();
      ghost var s1 := S();
      OnlyInitsKeep(s0, s1, g);
      InitsStarted(s0, s1);
      if e.Some? {
        return;
      }
      var params := OMap(map t | t in registrations.m :: registrations.m[t].params, registrations.keys);
      var order := T.TopoSort(params, aliases.m);
      if order.None? {
        return Some(Circular([]));
      }
      e := BuildInOrder(g, order.value);
      BuiltStarted(s0, s1, S());
    }

    method BuildInOrder(g: Gid, order: seq<TypeId>) returns (e: Option<DIError>)
      requires Basics(S()) && Alone(S(), g, {}) && StackOf(Sh(), g) == [] && builds == map[]
      requires NoCaptives(S()) && T.IsBuildOrder(Graph(S()), order)
      modifies this
      ensures Basics(S()) && Alone(S(), g, {}) && Grew(old(S()), S())
      ensures e.None? <==> forall t: TypeId :: CanBuild(old(S()), t)
      ensures e.None? ==> forall t: TypeId :: S().Lives(t, Singleton) ==> S().Has(t)
      ensures e.Some? ==> !e.value.TooDeep? && !e.value.WaitCycle? && !e.value.Circular?
      ensures deepest <= Max(old(deepest), 1)
      ensures Tracked(old(S())) ==> Tracked(S())
    {
      ghost var s0 := S();
      GrewSelf(s0);
      for i := 0 to |order|
        invariant Progress(s0, S(), g, order, i)
      {
        ghost var s1 := S();
        var t := order[i];
        assert t in T.Members(order) && t in registrations.m;
        if instances.Has(t) || registrations.m[t].lifetime != Singleton {
          ProgressSkip(s0, s1, g, order, i);
          continue;
        }
        NextIsShallow(s0, s1, order, i);
        var r := ResolveSingleton(g, t);
        ProgressBuild(s0, s1, S(), g, order, i, r);
        if r.Err? {
          return Some(r.error);
        }
      }
      ProgressDone(s0, S(), g, order);
      return None;
    }

    /** The services whose Init has succeeded, in instance order, each once. */
    method InitializedServices() returns (out: seq<Value>)
      requires instances.Valid()
      ensures out == Listed(S(), instances.keys)
    {
      out := [];
      var keys := instances.keys;
      for i := 0 to |keys|
        invariant out == Listed(S(), keys[..i])
      {
        var t := keys[i];
        assert keys[..i + 1][..i] == keys[..i];
        var v := instances.m[t];
        var built := registrations.Has(t) && registrations.m[t].lifetime == Singleton;
        if v in services && (t in initedInstances || built) && v !in out {
          out := out + [v];
        }
      }
      assert keys[..|keys|] == keys;
    }

    // -------------------------------------------------------------------------
    // Registering
    // -------------------------------------------------------------------------

    /** Registers a constructor for t; refused, as a panic, when t is an alias. */
    method RegisterService(t: TypeId, reg: Registration) returns (ok: bool)
      requires forall a: TypeId :: AliasFlat(S(), a)
      modifies this`registrations
      ensures forall a: TypeId :: AliasFlat(S(), a)
      ensures ok <==> t !in aliases.m
      ensures registrations == if ok then old(registrations).Set(t, reg) else old(registrations)
    {
      ghost var s0 := S();
      ok := !aliases.Has(t);
      if ok {
        registrations := registrations.Set(t, reg);
      }
      forall a: TypeId ensures AliasFlat(S(), a) {
        assert AliasFlat(s0, a);
      }
    }

    /** Registers an instance for t; refused, as a panic, when t is an alias. */
    method RegisterServiceInstance(t: TypeId, v: Value) returns (ok: bool)
      requires forall a: TypeId :: AliasFlat(S(), a)
      modifies this`instances
      ensures forall a: TypeId :: AliasFlat(S(), a)
      ensures ok <==> t !in aliases.m
      ensures instances == if ok then old(instances).Set(t, v) else old(instances)
    {
      ghost var s0 := S();
      ok := !aliases.Has(t);
      if ok {
        instances := instances.Set(t, v);
      }
      forall a: TypeId ensures AliasFlat(S(), a) {
        assert AliasFlat(s0, a);
      }
    }

    /**
      Makes t resolvable as a too; refused, as a panic, when a is t, a service or the
      target of another alias, or t is an alias. One lookup then always leads to a type
      that is not an alias.
     */
    method RegisterServiceAlias(t: TypeId, a: TypeId) returns (ok: bool)
      requires aliases.Valid() && forall u: TypeId :: AliasFlat(S(), u)
      modifies this`aliases
      ensures aliases.Valid() && forall u: TypeId :: AliasFlat(S(), u)
      ensures ok <==> t != a && a !in registrations.m && a !in instances.m && t !in old(aliases).m
                      && forall other :: other in old(aliases).m ==> old(aliases).m[other] != a
      ensures aliases == if ok then old(aliases).Set(a, t) else old(aliases)
      ensures forall u: TypeId :: S().Lookup(S().Lookup(u)) == S().Lookup(u)
      ensures ok ==> S().Lookup(a) == t && forall u: TypeId :: u != a ==> S().Lookup(u) == old(S()).Lookup(u)
    {
      ghost var s0 := S();
      ok := t != a && !registrations.Has(a) && !instances.Has(a) && !aliases.Has(t);
      for i := 0 to |aliases.keys|
        invariant ok <==> t != a && a !in registrations.m && a !in instances.m && t !in aliases.m
                          && forall j :: 0 <= j < i ==> aliases.m[aliases.keys[j]] != a
      {
        ok := ok && aliases.m[aliases.keys[i]] != a;
      }
      assert forall other :: other in aliases.m ==> aliases.keys[IndexOf(aliases.keys, other)] == other;
      if ok {
        aliases := aliases.Set(a, t);
      }
      forall u: TypeId ensures AliasFlat(S(), u) {
        assert AliasFlat(s0, u);
      }
      forall u: TypeId ensures S().Lookup(S().Lookup(u)) == S().Lookup(u) {
        assert AliasFlat(S(), u);
      }
    }
  }
}
