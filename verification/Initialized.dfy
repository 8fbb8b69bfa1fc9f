/**
  Which services a start has initialized, how often, and which of them the container
  reports.
 */
module Initialized {
  import opened Wrappers
  import opened OrderedMaps
  import opened BuildProtocol
  import opened ContainerSpec
  import opened BuildPlan
  import T = TopoSort

  // ---------------------------------------------------------------------------
  // Lists without repeats
  // ---------------------------------------------------------------------------

  ghost predicate Once(vs: seq<Value>) {
    forall i, j :: 0 <= i < j < |vs| ==> vs[i] != vs[j]
  }

  ghost predicate NoRepeats(keys: seq<TypeId>) {
    forall i, j :: 0 <= i < j < |keys| ==> keys[i] != keys[j]
  }

  lemma OnceConcat(a: seq<Value>, b: seq<Value>)
    ensures Once(a + b) <==> Once(a) && Once(b) && forall v :: v in a ==> v !in b
  {
    var c := a + b;
    if Once(c) {
      assert forall i, j :: 0 <= i < j < |a| ==> c[i] == a[i] && c[j] == a[j];
      assert forall i, j :: 0 <= i < j < |b| ==> c[|a| + i] == b[i] && c[|a| + j] == b[j];
      forall v | v in a
        ensures v !in b
      {
        var i :| 0 <= i < |a| && a[i] == v;
        forall j | 0 <= j < |b|
          ensures b[j] != v
        {
          assert c[i] == v && c[|a| + j] == b[j];
        }
      }
    }
    if Once(a) && Once(b) && forall v :: v in a ==> v !in b {
      forall i, j | 0 <= i < j < |c|
        ensures c[i] != c[j]
      {
        assert i < |a| <= j ==> c[i] in a && c[j] in b;
      }
    }
  }

  /** The instances of the types in ts, in the order of keys. */
  ghost function Picked(s: State, keys: seq<TypeId>, ts: set<TypeId>): seq<Value> {
    if keys == [] then []
    else
      var t := keys[|keys| - 1];
      Picked(s, keys[..|keys| - 1], ts) + if t in ts && s.Has(t) then [s.Insts().m[t]] else []
  }

  lemma {:induction false} PickedFrom(s: State, keys: seq<TypeId>, ts: set<TypeId>)
    ensures forall v :: v in Picked(s, keys, ts) <==>
      exists t :: t in keys && t in ts && s.Has(t) && s.Insts().m[t] == v
  {
    if keys != [] {
      PickedFrom(s, keys[..|keys| - 1], ts);
      assert keys == keys[..|keys| - 1] + [keys[|keys| - 1]];
    }
  }

  /** No two types of ts at keys hold one instance. */
  ghost predicate NoTwins(s: State, keys: seq<TypeId>, ts: set<TypeId>) {
    forall t, u :: t in keys && u in keys && t in ts && u in ts ==> !Twins(s, t, u)
  }

  lemma {:induction false} PickedOnceIff(s: State, keys: seq<TypeId>, ts: set<TypeId>)
    requires NoRepeats(keys)
    ensures Once(Picked(s, keys, ts)) <==> NoTwins(s, keys, ts)
  {
    if keys != [] {
      var rest, t := keys[..|keys| - 1], keys[|keys| - 1];
      assert keys == rest + [t] && t !in rest;
      PickedOnceIff(s, rest, ts);
      PickedFrom(s, rest, ts);
      if t in ts && s.Has(t) {
        OnceConcat(Picked(s, rest, ts), [s.Insts().m[t]]);
        assert s.Insts().m[t] in [s.Insts().m[t]];
        assert Once(Picked(s, keys, ts)) <==> NoTwins(s, rest, ts) && s.Insts().m[t] !in Picked(s, rest, ts);
        assert forall u :: u in rest && u in ts && Twins(s, t, u) ==> Twins(s, u, t);
        assert forall u :: u in rest && u in ts && s.Has(u) && s.Insts().m[u] == s.Insts().m[t] ==> Twins(s, t, u);
      } else {
        assert Picked(s, keys, ts) == Picked(s, rest, ts);
      }
    }
  }

  lemma {:induction false} MarkedPicked(s: State, keys: seq<TypeId>, ts: set<TypeId>)
    requires forall t :: t in keys ==> (t in ts <==> IsMarked(s, t))
    ensures Marked(s, keys) == Picked(s, keys, ts)
  {
    if keys != [] {
      assert keys[|keys| - 1] in keys;
      MarkedPicked(s, keys[..|keys| - 1], ts);
    }
  }

  lemma {:induction false} QueuePicked(s: State, keys: seq<TypeId>, ts: set<TypeId>)
    requires forall t :: t in keys ==> (t in ts <==> ToInit(s, t))
    ensures InitQueue(s, keys) == Picked(s, keys, ts)
  {
    if keys != [] {
      assert keys[|keys| - 1] in keys;
      QueuePicked(s, keys[..|keys| - 1], ts);
    }
  }

  // ---------------------------------------------------------------------------
  // How often a service is initialized
  // ---------------------------------------------------------------------------

  /** t was built, and so initialized, before BuildAll, which will initialize it again. */
  predicate InitializedAgain(s: State, t: TypeId) {
    t in s.constructed && ToInit(s, t)
  }

  /**
    When the Inits of BuildAll succeed, every service has been initialized at most once if
    and only if none was built, by an earlier Resolve, before BuildAll first ran, and none
    is held under two types.
   */
  lemma InitializedOnceIff(s: State)
    requires Basics(s) && Tracked(s)
    ensures Once(InitedUpTo(s, |s.Insts().keys|).initLog) <==>
      OneType(s) && forall t: TypeId :: !InitializedAgain(s, t)
  {
    var keys := s.Insts().keys;
    var marked, todo := set t | t in keys && IsMarked(s, t), set t | t in keys && ToInit(s, t);
    assert keys[..|keys|] == keys;
    MarkedPicked(s, keys, marked);
    QueuePicked(s, keys, todo);
    OnceConcat(Picked(s, keys, marked), Picked(s, keys, todo));
    PickedOnceIff(s, keys, marked);
    PickedOnceIff(s, keys, todo);
    PickedApart(s, keys, marked, todo);
    AgainOrTwins(s, keys, marked, todo);
  }

  lemma PickedApart(s: State, keys: seq<TypeId>, a: set<TypeId>, b: set<TypeId>)
    requires a <= (set t | t in keys) && b <= (set t | t in keys)
    ensures (forall v :: v in Picked(s, keys, a) ==> v !in Picked(s, keys, b)) <==> NoneBoth(s, a, b)
  {
    PickedFrom(s, keys, a);
    PickedFrom(s, keys, b);
    forall t, u | t in a && u in b && s.Has(t) && s.Has(u)
      ensures s.Insts().m[t] in Picked(s, keys, a) && s.Insts().m[u] in Picked(s, keys, b)
    {
      assert t in keys && u in keys;
    }
  }

  lemma AgainOrTwins(s: State, keys: seq<TypeId>, marked: set<TypeId>, todo: set<TypeId>)
    requires Basics(s) && keys == s.Insts().keys
    requires marked == (set t | t in keys && IsMarked(s, t)) && todo == (set t | t in keys && ToInit(s, t))
    ensures (NoTwins(s, keys, marked) && NoTwins(s, keys, todo) && NoneBoth(s, marked, todo)) <==>
      OneType(s) && forall t: TypeId :: !InitializedAgain(s, t)
  {
    forall t | t in marked && t in todo
      ensures InitializedAgain(s, t)
    {
    }
    if NoTwins(s, keys, marked) && NoTwins(s, keys, todo) && NoneBoth(s, marked, todo) {
      forall t: TypeId
        ensures !InitializedAgain(s, t)
      {
        assert Origin(s, t);
      }
      forall t: TypeId, u: TypeId
        ensures !ServiceTwins(s, t, u)
      {
      }
    }
    if OneType(s) && forall t: TypeId :: !InitializedAgain(s, t) {
      forall t, u | t in keys && u in keys && (t in marked || t in todo)
        ensures !Twins(s, t, u)
      {
        assert !ServiceTwins(s, t, u);
      }
    }
  }

  /** No type to initialize has the instance of a type that is marked. */
  ghost predicate NoneBoth(s: State, marked: set<TypeId>, todo: set<TypeId>) {
    forall t, u :: t in marked && u in todo && s.Has(t) && s.Has(u) ==> s.Insts().m[t] != s.Insts().m[u]
  }

  // ---------------------------------------------------------------------------
  // What the container reports
  // ---------------------------------------------------------------------------

  lemma {:induction false} ListedOnce(s: State, keys: seq<TypeId>)
    ensures Once(Listed(s, keys))
  {
    if keys != [] {
      ListedOnce(s, keys[..|keys| - 1]);
    }
  }

  /** Where exactly the marked types count, the two lists differ in repeats only. */
  lemma {:induction false} ListedMarked(s: State, keys: seq<TypeId>)
    requires forall t :: t in keys ==> (Counts(s, t) <==> IsMarked(s, t))
    ensures Listed(s, keys) == Marked(s, keys) <==> Once(Marked(s, keys))
  {
    ListedOnce(s, keys);
    if keys != [] && Once(Marked(s, keys)) {
      var rest, t := keys[..|keys| - 1], keys[|keys| - 1];
      assert t in keys && Marked(s, rest) <= Marked(s, keys);
      ListedMarked(s, rest);
      if IsMarked(s, t) {
        OnceConcat(Marked(s, rest), [s.Insts().m[t]]);
        assert s.Insts().m[t] in [s.Insts().m[t]];
      }
    }
  }

  /** The types from number n on add nothing to the report exactly if it has their instances already. */
  lemma {:induction false} ListedRest(s: State, keys: seq<TypeId>, n: nat)
    requires n <= |keys|
    ensures Listed(s, keys[..n]) <= Listed(s, keys)
    ensures Listed(s, keys) == Listed(s, keys[..n]) <==>
      forall t :: t in keys[n..] && Counts(s, t) ==> s.Insts().m[t] in Listed(s, keys[..n])
    decreases |keys|
  {
    if n == |keys| {
      assert keys[..n] == keys;
    } else {
      var rest, t := keys[..|keys| - 1], keys[|keys| - 1];
      assert rest[..n] == keys[..n] && keys[n..] == rest[n..] + [t];
      ListedRest(s, rest, n);
    }
  }

  /** A service from number n on that counts as initialized, but is no instance of the first n types. */
  ghost predicate Misreported(s: State, n: nat, t: TypeId)
    requires n <= |s.Insts().keys|
  {
    && t in s.Insts().keys[n..] && s.Has(t) && s.Insts().m[t] in s.services && s.Lives(t, Singleton)
    && s.Insts().m[t] !in InitQueue(s, s.Insts().keys[..n])
  }

  ghost predicate OneTypeAmong(s: State, keys: seq<TypeId>) {
    forall t, u :: t in keys && u in keys ==> !ServiceTwins(s, t, u)
  }

  /**
    No service is initialized under two types, and no service that is not initialized has
    a type that is a singleton with a constructor too.
   */
  ghost predicate StartsClean(s: State) {
    var n := InitsRun(s);
    OneTypeAmong(s, s.Insts().keys[..n]) && forall t: TypeId :: !Misreported(s, n, t)
  }

  /** s is how BuildAll, the first time it ran, left s0. */
  ghost predicate FirstRun(s0: State, s: State) {
    Basics(s0) && FirstStart(s0) && StartedFrom(s0, s) && Basics(s) && Tracked(s)
  }

  /**
    After BuildAll, failed or not, the container reports exactly the services whose Init
    succeeded, in the order in which they were initialized, if and only if the state
    before it was clean.
   */
  lemma ListedIsLogIff(s0: State, s: State)
    requires FirstRun(s0, s)
    ensures Listed(s, s.Insts().keys) == s.initLog <==> StartsClean(s0)
  {
    if InitsRun(s0) < |s0.Insts().keys| {
      ListedStopped(s0, s, InitsRun(s0));
    } else {
      ListedBuilt(s0, s);
    }
  }

  lemma ListedStopped(s0: State, s: State, n: nat)
    requires Basics(s0) && FirstStart(s0) && n <= |s0.Insts().keys| && s == InitedUpTo(s0, n) && Tracked(s)
    ensures Listed(s, s.Insts().keys) == s.initLog <==>
      OneTypeAmong(s0, s0.Insts().keys[..n]) && forall t: TypeId :: !Misreported(s0, n, t)
  {
    var keys := s0.Insts().keys;
    var first := keys[..n];
    ListedFirst(s0, s, n);
    QueueOnceIff(s0, first);
    ListedOnce(s, keys);
    ListedRest(s, keys, n);
    if Listed(s, first) == s.initLog {
      RestReported(s0, s, n);
    }
  }

  lemma RestReported(s0: State, s: State, n: nat)
    requires Basics(s0) && FirstStart(s0) && n <= |s0.Insts().keys| && s == InitedUpTo(s0, n)
    ensures var keys := s0.Insts().keys;
      (forall t :: t in keys[n..] && Counts(s, t) ==> s.Insts().m[t] in InitQueue(s0, keys[..n])) <==>
      forall t: TypeId :: !Misreported(s0, n, t)
  {
    var keys := s0.Insts().keys;
    forall t: TypeId | t in keys[n..]
      ensures Misreported(s0, n, t) <==> Counts(s, t) && s.Insts().m[t] !in InitQueue(s0, keys[..n])
    {
      assert t !in keys[..n];
    }
  }

  /** Of the first n, what is reported are the services whose Init succeeded, each once. */
  lemma ListedFirst(s0: State, s: State, n: nat)
    requires Basics(s0) && FirstStart(s0) && n <= |s0.Insts().keys| && s == InitedUpTo(s0, n) && Tracked(s)
    ensures var first := s0.Insts().keys[..n];
      s.initLog == InitQueue(s0, first) && (Listed(s, first) == s.initLog <==> Once(s.initLog))
  {
    var first := s0.Insts().keys[..n];
    MarksAll(s0, s, first, first);
    InitQueueMarks(s0, s, s0.Insts().keys, n);
    ListedMarked(s, first);
  }

  lemma QueueOnceIff(s: State, keys: seq<TypeId>)
    requires NoRepeats(keys) && FirstStart(s)
    ensures Once(InitQueue(s, keys)) <==> OneTypeAmong(s, keys)
  {
    var todo := set t | t in keys && ToInit(s, t);
    QueuePicked(s, keys, todo);
    PickedOnceIff(s, keys, todo);
    forall t, u | t in keys && u in keys
      ensures ServiceTwins(s, t, u) <==> t in todo && u in todo && Twins(s, t, u)
    {
    }
  }

  lemma ListedBuilt(s0: State, s: State)
    requires Basics(s0) && FirstStart(s0) && Grew(InitedUpTo(s0, |s0.Insts().keys|), s) && Basics(s) && Tracked(s)
    ensures Listed(s, s.Insts().keys) == s.initLog <==> OneType(s0)
    ensures Once(s.initLog) <==> OneType(s0)
    ensures OneType(s0) <==> OneTypeAmong(s0, s0.Insts().keys[..|s0.Insts().keys|])
  {
    var n, keys := |s0.Insts().keys|, s.Insts().keys;
    var marked := set t | t in keys && IsMarked(s, t);
    assert s0.Insts().keys[..n] == s0.Insts().keys;
    AllRunning(s0, InitedUpTo(s0, n), s);
    forall t: TypeId
      ensures Counts(s, t) <==> IsMarked(s, t)
      ensures IsMarked(s, t) <==> s.Has(t) && s.Insts().m[t] in s.services
    {
      assert Running(s, t) && Origin(s, t);
    }
    ListedMarked(s, keys);
    MarkedPicked(s, keys, marked);
    PickedOnceIff(s, keys, marked);
    assert NoTwins(s, keys, marked) <==> OneType(s) by {
      forall t: TypeId, u: TypeId | ServiceTwins(s, t, u)
        ensures t in marked && u in marked && Twins(s, t, u)
      {
      }
      forall t, u | t in marked && u in marked && Twins(s, t, u)
        ensures ServiceTwins(s, t, u)
      {
      }
    }
    OneTypeKept(s0, InitedUpTo(s0, n), s);
    assert forall t: TypeId, u: TypeId :: ServiceTwins(s0, t, u) ==> t in s0.Insts().keys && u in s0.Insts().keys;
  }

  /** What is built adds no service held under two types, and takes none away. */
  lemma OneTypeKept(s0: State, s1: State, s: State)
    requires Basics(s0) && OnlyInits(s0, s1) && Grew(s1, s)
    ensures OneType(s0) <==> OneType(s)
  {
    forall t: TypeId, u: TypeId
      ensures ServiceTwins(s0, t, u) <==> ServiceTwins(s, t, u)
    {
      assert Kept(s1, s, t) && Kept(s1, s, u) && NoNewTwins(s1, s, t, u) && Origin(s0, t);
      if s0.Has(t) {
        assert SameService(s1, s, s0.Insts().m[t]);
      }
    }
  }

  /** On a first start that goes through, clean means that no service is held under two types. */
  lemma CleanIff(s0: State, s: State)
    requires FirstRun(s0, s) && InitsRun(s0) == |s0.Insts().keys|
    ensures StartsClean(s0) <==> OneType(s0)
    ensures Once(s.initLog) <==> OneType(s0)
    ensures Listed(s, s.Insts().keys) == s.initLog <==> OneType(s0)
  {
    ListedBuilt(s0, s);
    ListedIsLogIff(s0, s);
  }

  /** A first start leaves no constructed instance under two types. */
  lemma StartMakesOnce(s0: State, s: State)
    requires FirstStart(s0) && StartedFrom(s0, s)
    ensures MadeOnce(s)
  {
    forall t: TypeId, u: TypeId | Twins(s, t, u)
      ensures t !in s.constructed
    {
      assert NoNewTwins(InitedUpTo(s0, InitsRun(s0)), s, t, u);
    }
  }

  // ---------------------------------------------------------------------------
  // Inputs that show it
  // ---------------------------------------------------------------------------

  /** A type with an instance, whose Init fails, and a constructor too. */
  ghost function TwoSources(): State {
    State(
      OMap(map[1 := Registration([], Singleton, Succeeds, true)], [1]),
      OMap(map[], []),
      Shared(OMap(map[1 := 0], [1]), map[], [], map[], map[]),
      {}, {0}, {0}, 1, {}, [], 0)
  }

  /** Its Init fails before anything is initialized, and still the container reports it. */
  lemma ReportedUninitialized()
    ensures var s := TwoSources();
      && Basics(s) && FirstStart(s) && AliasesBound(s) && NoCaptives(s) && !InitWorks(s, 1)
      && StartedFrom(s, s) && s.initLog == [] && Listed(s, s.Insts().keys) == [0]
  {
    var s := TwoSources();
    assert [1][..0] == [];
    assert Listed(s, [1][..0]) == [];
    assert s.Insts().keys[0] == 1;
    assert InitsRun(s) == 0;
    NothingInited(s);
    GrewSelf(s);
    forall u: TypeId, d: TypeId ensures DepFirst(s, u, d) {
    }
  }

  /** A container whose one service, type 1 with value 0, was built and initialized by a Resolve. */
  ghost function Resolved1(): State {
    State(
      OMap(map[1 := Registration([], Singleton, Succeeds, true)], [1]),
      OMap(map[], []),
      Shared(OMap(map[1 := 0], [1]), map[], [Build(1, 0, Some(Ok(0)), true)], map[], map[]),
      {}, {0}, {}, 1, {1}, [0], 1)
  }

  /** BuildAll initializes it once more. */
  lemma InitializedTwice()
    ensures Tracked(Resolved1()) && Basics(Resolved1()) && InitializedAgain(Resolved1(), 1) && OneType(Resolved1())
    ensures InitedUpTo(Resolved1(), 1).initLog == [0, 0]
  {
    var s := Resolved1();
    assert [1][..0] == [] && [1][..1] == [1];
    assert Marked(s, [1][..0]) == [];
    assert InitQueue(s, [1][..0]) == [];
    forall u: TypeId, d: TypeId ensures DepFirst(s, u, d) {
    }
  }

  /** A container with one service, registered as an instance under the types 1 and 2. */
  ghost function TwoTypes(): State {
    State(
      OMap(map[], []),
      OMap(map[], []),
      Shared(OMap(map[1 := 0, 2 := 0], [1, 2]), map[], [], map[], map[]),
      {}, {0}, {}, 1, {}, [], 0)
  }

  lemma TwoTypesBuild()
    ensures Basics(TwoTypes()) && Buildable(TwoTypes())
  {
    var s := TwoTypes();
    forall p: seq<TypeId> | |p| >= 2
      ensures !T.Path(Graph(s), p)
    {
      assert !T.Edge(Graph(s), p[0], p[1]);
    }
    forall u: TypeId, d: TypeId
      ensures DepFirst(s, u, d) && !CaptiveAt(s, u, d)
    {
    }
  }

  /** BuildAll succeeds, and initializes it under both. */
  lemma InitializedUnderTwoTypes()
    ensures var s := TwoTypes();
      && Basics(s) && FirstStart(s) && Buildable(s) && ServiceTwins(s, 1, 2)
      && (forall t: TypeId :: !InitializedAgain(s, t)) && InitedUpTo(s, 2).initLog == [0, 0]
  {
    TwoTypesBuild();
    var s := TwoTypes();
    assert [1, 2][..2] == [1, 2] && [1, 2][..1] == [1] && [1][..0] == [];
    assert InitQueue(s, [1][..0]) == [] && InitQueue(s, [1]) == [0];
    assert InitQueue(s, [1, 2]) == [0, 0];
  }
}
