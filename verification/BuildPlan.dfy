/**
  What BuildAll checks and in which order it builds.
 */
module BuildPlan {
  import opened Wrappers
  import opened OrderedMaps
  import opened BuildProtocol
  import opened ContainerSpec
  import opened ContainerProofs
  import T = TopoSort

  // ---------------------------------------------------------------------------
  // The checks
  // ---------------------------------------------------------------------------

  /** The target of alias a has an instance or a registration. */
  predicate Bound(s: State, a: TypeId) {
    a in s.aliases.m ==> s.Has(s.aliases.m[a]) || s.aliases.m[a] in s.regs.m
  }

  /** e reports the first alias, in registration order, that leads nowhere. */
  ghost predicate FirstUnbound(s: State, e: DIError) {
    exists i: nat :: UnboundAt(s, e, i)
  }

  ghost predicate UnboundAt(s: State, e: DIError, i: nat) {
    && i < |s.aliases.keys| && !Bound(s, s.aliases.keys[i])
    && e == NotRegistered(s.aliases.keys[i], s.aliases.m[s.aliases.keys[i]])
    && (forall j :: 0 <= j < i ==> Bound(s, s.aliases.keys[j]))
  }

  ghost predicate AliasesBound(s: State) {
    forall a: TypeId :: Bound(s, a)
  }

  /** The singleton t would hold on to d for the life of the process. */
  predicate CaptiveAt(s: State, t: TypeId, d: TypeId) {
    s.Lives(t, Singleton) && d in s.Deps(t) && !s.Has(d) && (s.Lives(d, Scoped) || s.Lives(d, Transient))
  }

  ghost predicate NoCaptives(s: State) {
    forall t: TypeId, d: TypeId :: !CaptiveAt(s, t, d)
  }

  /** BuildAll calls Init on the instance of t. */
  predicate ToInit(s: State, t: TypeId) {
    s.Has(t) && s.Insts().m[t] in s.services && t !in s.inited
  }

  ghost predicate InitWorks(s: State, t: TypeId) {
    ToInit(s, t) ==> s.Insts().m[t] !in s.badInit
  }

  ghost predicate InitsWork(s: State) {
    forall t: TypeId :: InitWorks(s, t)
  }

  function Params(s: State): (g: T.Graph)
    ensures s.regs.Valid() ==> g.Valid()
  {
    OMap(map t | t in s.regs.m :: s.regs.m[t].params, s.regs.keys)
  }

  /** The registered types, with the types their constructors take. */
  function Graph(s: State): T.Graph {
    T.Resolved(Params(s), s.aliases.m)
  }

  /** The singleton t, unless it is there already, can be built once the others are. */
  ghost predicate CanBuild(s: State, t: TypeId) {
    s.Lives(t, Singleton) && !s.Has(t) ==>
      Works(s.regs.m[t]) && forall d :: d in s.Deps(t) ==> s.Has(d) || s.Lives(d, Singleton)
  }

  /** Exactly when BuildAll succeeds. */
  ghost predicate Buildable(s: State) {
    && AliasesBound(s) && NoCaptives(s) && InitsWork(s)
    && !T.HasCycle(Graph(s))
    && (forall t: TypeId :: CanBuild(s, t))
  }

  // ---------------------------------------------------------------------------
  // Initializing the instances
  // ---------------------------------------------------------------------------

  /** The values of keys whose Init BuildAll calls, in order. */
  function InitQueue(s: State, keys: seq<TypeId>): seq<Value> {
    if keys == [] then []
    else
      var t := keys[|keys| - 1];
      InitQueue(s, keys[..|keys| - 1]) + if ToInit(s, t) then [s.Insts().m[t]] else []
  }

  ghost function InitKeys(s: State, keys: seq<TypeId>): set<TypeId> {
    set t | t in keys && ToInit(s, t)
  }

  /** s after the Inits of the first n instances succeeded. */
  ghost function InitedUpTo(s: State, n: nat): State
    requires n <= |s.Insts().keys|
  {
    var keys := s.Insts().keys[..n];
    s.(inited := s.inited + InitKeys(s, keys), initLog := s.initLog + InitQueue(s, keys))
  }

  /** If the instance of t is a service, it is initialized: its Init or its build has succeeded. */
  ghost predicate Running(s: State, t: TypeId) {
    s.Has(t) && s.Insts().m[t] in s.services ==> t in s.inited || t in s.constructed
  }

  lemma AllRunning(s0: State, s1: State, s2: State)
    requires Basics(s0) && s1 == InitedUpTo(s0, |s0.Insts().keys|) && Grew(s1, s2)
    ensures forall t: TypeId :: Running(s2, t)
  {
    var keys := s0.Insts().keys;
    assert keys[..|keys|] == keys;
    forall t: TypeId ensures Running(s2, t) {
      assert Kept(s1, s2, t) && Origin(s0, t);
      if s1.Has(t) {
        assert SameService(s1, s2, s1.Insts().m[t]);
        assert t in keys;
      }
    }
  }

  lemma InitNext(s: State, n: nat)
    requires n < |s.Insts().keys|
    ensures InitedUpTo(s, n + 1) ==
      if ToInit(s, s.Insts().keys[n]) then
        InitedUpTo(s, n).(inited := InitedUpTo(s, n).inited + {s.Insts().keys[n]},
                          initLog := InitedUpTo(s, n).initLog + [s.Insts().m[s.Insts().keys[n]]])
      else InitedUpTo(s, n)
  {
    var keys := s.Insts().keys;
    assert keys[..n + 1] == keys[..n] + [keys[n]];
    assert keys[..n + 1][..n] == keys[..n];
  }

  /** Inits touch nothing a resolution looks at. */
  ghost predicate OnlyInits(s: State, s': State) {
    s' == s.(inited := s'.inited, initLog := s'.initLog)
  }

  lemma OnlyInitsKeep(s: State, s': State, g: Gid)
    requires OnlyInits(s, s') && Basics(s) && Alone(s, g, {})
    ensures Basics(s') && Alone(s', g, {})
    ensures NoCaptives(s) <==> NoCaptives(s')
    ensures Graph(s') == Graph(s)
    ensures forall t: TypeId :: CanBuild(s', t) <==> CanBuild(s, t)
  {
    forall t: TypeId
      ensures Origin(s', t) && AliasFlat(s', t) && BuildMine(s', g, {}, t) && (CanBuild(s', t) <==> CanBuild(s, t))
    {
      assert Origin(s, t) && AliasFlat(s, t) && BuildMine(s, g, {}, t);
      assert s'.Deps(t) == s.Deps(t);
    }
    forall t: TypeId, d: TypeId ensures DepFirst(s', t, d) && CaptiveAt(s', t, d) == CaptiveAt(s, t, d) {
      assert DepFirst(s, t, d) && Edge(s', t, d) == Edge(s, t, d);
    }
    forall v: Value ensures ServiceKnown(s', v) {
      assert ServiceKnown(s, v);
    }
    SamePaths(s, s', StackOf(s.sh, g));
  }

  /** Nothing was initialized yet. */
  ghost predicate FirstStart(s: State) {
    s.inited == {} && s.constructed == {} && s.initLog == []
  }

  lemma {:induction false} InitQueueMarks(s: State, s': State, keys: seq<TypeId>, done: nat)
    requires FirstStart(s) && s' == s.(inited := s'.inited, initLog := s'.initLog)
    requires done <= |keys|
    requires forall i, j :: 0 <= i < j < |keys| ==> keys[i] != keys[j]
    requires s'.inited == InitKeys(s, keys[..done])
    ensures Marked(s', keys) == InitQueue(s, keys[..done])
    decreases |keys|
  {
    if done < |keys| {
      var init := keys[..|keys| - 1];
      assert init[..done] == keys[..done];
      InitQueueMarks(s, s', init, done);
      assert keys[|keys| - 1] !in keys[..done];
    } else {
      assert keys[..done] == keys;
      MarksAll(s, s', keys, keys);
    }
  }

  lemma {:induction false} MarksAll(s: State, s': State, keys: seq<TypeId>, all: seq<TypeId>)
    requires FirstStart(s) && s' == s.(inited := s'.inited, initLog := s'.initLog)
    requires s'.inited == InitKeys(s, all) && forall t :: t in keys ==> t in all
    ensures Marked(s', keys) == InitQueue(s, keys)
  {
    if keys != [] {
      var init := keys[..|keys| - 1];
      forall t | t in init ensures t in all {
        assert t in keys;
      }
      MarksAll(s, s', init, all);
      assert keys[|keys| - 1] in keys;
    }
  }

  /** On a first start, what has been initialized is accounted for after any number of Inits. */
  lemma InitedTracked(s: State, n: nat)
    requires FirstStart(s) && s.Insts().Valid() && n <= |s.Insts().keys|
    ensures Tracked(InitedUpTo(s, n))
  {
    InitQueueMarks(s, InitedUpTo(s, n), s.Insts().keys, n);
  }

  lemma FirstTracked(s: State)
    requires s.Insts().Valid()
    ensures FirstStart(s) ==> Tracked(s)
  {
    if FirstStart(s) {
      NothingInited(s);
      InitedTracked(s, 0);
    }
  }

  // ---------------------------------------------------------------------------
  // Building in order
  // ---------------------------------------------------------------------------

  /** The singletons among the first n of order are there. */
  ghost predicate BuiltUpTo(s: State, order: seq<TypeId>, n: nat) {
    forall i: nat :: i < n ==> BuiltAt(s, order, i)
  }

  ghost predicate BuiltAt(s: State, order: seq<TypeId>, i: nat) {
    i < |order| && s.Lives(order[i], Singleton) ==> s.Has(order[i])
  }

  lemma BuiltKept(a: State, b: State, order: seq<TypeId>, n: nat)
    requires Grew(a, b) && BuiltUpTo(a, order, n)
    ensures BuiltUpTo(b, order, n)
  {
    forall i: nat | i < n ensures BuiltAt(b, order, i) {
      assert BuiltAt(a, order, i);
      if i < |order| {
        assert Kept(a, b, order[i]);
      }
    }
  }

  /** What a type still misses when its turn comes is refused at once. */
  lemma NextIsShallow(s0: State, s: State, order: seq<TypeId>, i: nat)
    requires Grew(s0, s) && NoCaptives(s0)
    requires T.IsBuildOrder(Graph(s0), order) && i < |order| && BuiltUpTo(s, order, i)
    requires s.Lives(order[i], Singleton)
    ensures ShallowCase(s, order[i])
  {
    var t := order[i];
    var params := s.regs.m[t].params;
    if FirstMissing(s, params, 0).Some? {
      var k := MissingAt(s, params, 0);
      var d := s.Lookup(params[k]);
      assert s0.Deps(t)[k] == d;
      if d in s.regs.m {
        assert T.Edge(Graph(s0), order[i], d);
        var j :| 0 <= j < i && order[j] == d;
        assert BuiltAt(s, order, j);
        assert Kept(s0, s, d) && !CaptiveAt(s0, t, d);
      }
    }
  }

  lemma {:induction false} MissingAt(s: State, ts: seq<TypeId>, i: nat) returns (k: nat)
    requires i <= |ts| && FirstMissing(s, ts, i).Some?
    ensures i <= k < |ts| && FirstMissing(s, ts, i) == Some(ts[k]) && !s.Has(s.Lookup(ts[k]))
    decreases |ts| - i
  {
    if !s.Has(s.Lookup(ts[i])) {
      k := i;
    } else {
      k := MissingAt(s, ts, i + 1);
    }
  }

  lemma {:induction false} NothingMissing(s: State, ts: seq<TypeId>, i: nat)
    requires i <= |ts| && FirstMissing(s, ts, i).None?
    ensures forall k :: i <= k < |ts| ==> s.Has(s.Lookup(ts[k]))
    decreases |ts| - i
  {
    if i < |ts| {
      NothingMissing(s, ts, i + 1);
    }
  }

  /** Building t succeeds, when its turn comes, exactly if it could be built from the start. */
  lemma BuildsIff(s0: State, s: State, s': State, t: TypeId, r: Outcome)
    requires Grew(s0, s) && s.Lives(t, Singleton) && !s.Has(t)
    requires ShallowCase(s, t) && Shallow(s, s', t, r)
    ensures r.Ok? <==> CanBuild(s0, t)
    ensures r.Err? ==> !r.error.TooDeep? && !r.error.Circular?
    ensures s'.deepest == Max(s.deepest, 1)
  {
    var params := s.regs.m[t].params;
    assert Kept(s0, s, t);
    assert s0.Deps(t) == s.Deps(t);
    if FirstMissing(s, params, 0).Some? {
      var k := MissingAt(s, params, 0);
      var d := s.Lookup(params[k]);
      assert s0.Deps(t)[k] == d;
      assert Kept(s0, s, d);
    } else {
      NothingMissing(s, params, 0);
      forall d | d in s0.Deps(t) ensures s0.Has(d) || s0.Lives(d, Singleton) {
        var k :| 0 <= k < |params| && s0.Deps(t)[k] == d;
        assert s.Has(s.Lookup(params[k]));
        assert Kept(s0, s, d);
      }
    }
  }

  /** Once every type of the order is built, everything could be built. */
  lemma AllCanBuild(s: State, order: seq<TypeId>)
    requires T.IsBuildOrder(Graph(s), order)
    requires forall i: nat :: i < |order| ==> CanBuild(s, order[i])
    ensures forall t: TypeId :: CanBuild(s, t)
  {
    forall t: TypeId ensures CanBuild(s, t) {
      if t in s.regs.m {
        assert t in Graph(s).m.Keys;
        var i :| 0 <= i < |order| && order[i] == t;
        assert CanBuild(s, order[i]);
      }
    }
  }

  /** t, if it was built, is among the first i of order. */
  ghost predicate FromOrder(s0: State, s: State, order: seq<TypeId>, i: nat, t: TypeId)
    requires i <= |order|
  {
    s.Has(t) && !s0.Has(t) ==> t in order[..i]
  }

  /** The singletons among the first i of order are built, and could be from the start. */
  ghost predicate Progress(s0: State, s: State, g: Gid, order: seq<TypeId>, i: nat) {
    && i <= |order|
    && Basics(s) && Alone(s, g, {}) && Grew(s0, s)
    && BuiltUpTo(s, order, i)
    && (forall t: TypeId :: FromOrder(s0, s, order, i, t))
    && (forall j: nat :: j < i ==> CanBuild(s0, order[j]))
    && s.deepest <= Max(s0.deepest, 1)
    && (Tracked(s0) ==> Tracked(s))
  }

  lemma ProgressSkip(s0: State, s: State, g: Gid, order: seq<TypeId>, i: nat)
    requires Progress(s0, s, g, order, i) && i < |order| && T.Distinct(order)
    requires s.Has(order[i]) || !s.Lives(order[i], Singleton)
    ensures Progress(s0, s, g, order, i + 1)
  {
    var n := i + 1;
    assert FromOrder(s0, s, order, i, order[i]);
    forall j: nat | j < n ensures BuiltAt(s, order, j) && CanBuild(s0, order[j]) {}
    forall t: TypeId ensures FromOrder(s0, s, order, n, t) {
      assert FromOrder(s0, s, order, i, t);
      assert order[..n] == order[..i] + [order[i]];
    }
  }

  lemma ProgressBuild(s0: State, s1: State, s2: State, g: Gid, order: seq<TypeId>, i: nat, r: Outcome)
    requires Progress(s0, s1, g, order, i) && i < |order|
    requires s1.Lives(order[i], Singleton) && !s1.Has(order[i])
    requires Basics(s2) && Alone(s2, g, {}) && Grew(s1, s2) && (Tracked(s1) ==> Tracked(s2))
    requires ShallowCase(s1, order[i]) && Shallow(s1, s2, order[i], r) && AddsOnly(s1, s2, order[i], r)
    requires r.Ok? ==> s2.Has(order[i])
    ensures Grew(s0, s2) && s2.deepest <= Max(s0.deepest, 1) && (Tracked(s0) ==> Tracked(s2))
    ensures r.Ok? ==> CanBuild(s0, order[i]) && Progress(s0, s2, g, order, i + 1)
    ensures r.Err? ==> !CanBuild(s0, order[i]) && !r.error.TooDeep? && !r.error.Circular?
  {
    BuildsIff(s0, s1, s2, order[i], r);
    GrewTrans(s0, s1, s2);
    if r.Ok? {
      var n := i + 1;
      BuiltKept(s1, s2, order, i);
      forall j: nat | j < n ensures BuiltAt(s2, order, j) && CanBuild(s0, order[j]) {}
      forall t: TypeId ensures FromOrder(s0, s2, order, n, t) {
        assert FromOrder(s0, s1, order, i, t);
        assert order[..n] == order[..i] + [order[i]];
        assert s2.Has(t) <==> t in s2.Insts().keys;
      }
    }
  }

  /** A finished loop has built every singleton. */
  lemma ProgressDone(s0: State, s: State, g: Gid, order: seq<TypeId>)
    requires T.IsBuildOrder(Graph(s0), order) && Progress(s0, s, g, order, |order|)
    ensures forall t: TypeId :: CanBuild(s0, t)
    ensures forall t: TypeId :: s.Lives(t, Singleton) ==> s.Has(t)
  {
    AllCanBuild(s0, order);
    forall t: TypeId | s.Lives(t, Singleton) ensures s.Has(t) {
      assert t in T.Members(order);
      var i :| 0 <= i < |order| && order[i] == t;
      assert BuiltAt(s, order, i);
    }
  }

  // ---------------------------------------------------------------------------
  // Initialized services
  // ---------------------------------------------------------------------------

  /** The container reports the instance of t as an initialized service. */
  predicate Counts(s: State, t: TypeId) {
    s.Has(t) && s.Insts().m[t] in s.services && (t in s.inited || s.Lives(t, Singleton))
  }

  /** The services at keys that count as initialized, each once. */
  function Listed(s: State, keys: seq<TypeId>): seq<Value> {
    if keys == [] then []
    else
      var t := keys[|keys| - 1];
      var rest := Listed(s, keys[..|keys| - 1]);
      if Counts(s, t) && s.Insts().m[t] !in rest then rest + [s.Insts().m[t]] else rest
  }

  // ---------------------------------------------------------------------------
  // What BuildAll changes
  // ---------------------------------------------------------------------------

  /** How many instances, from number i on, come before the first whose Init fails. */
  ghost function GoodInits(s: State, i: nat): (n: nat)
    requires i <= |s.Insts().keys|
    ensures i <= n <= |s.Insts().keys|
    ensures forall j :: i <= j < n ==> InitWorks(s, s.Insts().keys[j])
    ensures n < |s.Insts().keys| ==> !InitWorks(s, s.Insts().keys[n])
    decreases |s.Insts().keys| - i
  {
    if i < |s.Insts().keys| && InitWorks(s, s.Insts().keys[i]) then GoodInits(s, i + 1) else i
  }

  ghost predicate GoodSoFar(s: State, i: nat) {
    i <= |s.Insts().keys| && forall j :: 0 <= j < i ==> InitWorks(s, s.Insts().keys[j])
  }

  /** Where the Inits end, and whether all of them have succeeded. */
  lemma InitsEnd(s: State, i: nat)
    requires s.Insts().Valid() && GoodSoFar(s, i)
    requires i < |s.Insts().keys| ==> !InitWorks(s, s.Insts().keys[i])
    ensures GoodInits(s, 0) == i && (InitsWork(s) <==> i == |s.Insts().keys|)
  {
    var keys := s.Insts().keys;
    forall t: TypeId | i == |keys|
      ensures InitWorks(s, t)
    {
      if s.Has(t) {
        assert keys[IndexOf(keys, t)] == t;
      }
    }
  }

  /** How many instances BuildAll has gone through when it stops initializing. */
  ghost function InitsRun(s: State): (n: nat)
    ensures n <= |s.Insts().keys|
  {
    if AliasesBound(s) && NoCaptives(s) then GoodInits(s, 0) else 0
  }

  /** s is s0 after the Inits that succeeded and, if all of them did, what was built then. */
  ghost predicate StartedFrom(s0: State, s: State) {
    var s1 := InitedUpTo(s0, InitsRun(s0));
    Grew(s1, s) && (InitsRun(s0) < |s0.Insts().keys| ==> s == s1)
  }

  lemma NothingInited(s: State)
    ensures InitedUpTo(s, 0) == s
  {
    assert InitKeys(s, s.Insts().keys[..0]) == {} && s.Insts().keys[..0] == [];
  }

  /** A BuildAll that its checks stop has changed nothing. */
  lemma NotStarted(s: State)
    requires s.Insts().Valid() && (!AliasesBound(s) || !NoCaptives(s))
    ensures StartedFrom(s, s) && (FirstStart(s) ==> Tracked(s))
  {
    NothingInited(s);
    GrewSelf(s);
    FirstTracked(s);
  }

  /** A BuildAll has got as far as the Inits. */
  lemma InitsStarted(s0: State, s1: State)
    requires s0.Insts().Valid() && AliasesBound(s0) && NoCaptives(s0)
    requires s1 == InitedUpTo(s0, GoodInits(s0, 0))
    ensures StartedFrom(s0, s1) && (FirstStart(s0) ==> Tracked(s1))
  {
    GrewSelf(s1);
    if FirstStart(s0) {
      InitedTracked(s0, GoodInits(s0, 0));
    }
  }

  /** It has gone on to build. */
  lemma BuiltStarted(s0: State, s1: State, s2: State)
    requires Basics(s0) && StartedFrom(s0, s1) && InitsRun(s0) == |s0.Insts().keys|
    requires s1 == InitedUpTo(s0, |s0.Insts().keys|) && Grew(s1, s2)
    ensures StartedFrom(s0, s2) && forall t: TypeId :: Running(s2, t)
  {
    AllRunning(s0, s1, s2);
  }
}
