/**
  How each step of a resolution on one goroutine keeps the container in order.
 */
module ContainerProofs {
  import opened Wrappers
  import opened OrderedMaps
  import opened BuildProtocol
  import opened ContainerSpec

  /** Asking for t gives v. */
  ghost predicate Provides(s: State, t: TypeId, v: Value) {
    if s.Has(t) then v == s.Insts().m[t] else s.Lives(t, Transient)
  }

  ghost predicate Provided(s: State, t: TypeId) {
    s.Has(t) || s.Lives(t, Transient)
  }

  ghost predicate DepsProvided(s: State, t: TypeId) {
    forall d :: d in s.Deps(t) ==> Provided(s, d)
  }

  /** v has been made and is not cached under any type. */
  ghost predicate Fresh(s: State, v: Value) {
    v < s.nextValue && forall u: TypeId :: NotHeld(s, v, u)
  }

  ghost predicate NotHeld(s: State, v: Value, u: TypeId) {
    s.Has(u) ==> s.Insts().m[u] != v
  }

  /** All Inits that succeeded are accounted for, counting the one just run for r. */
  ghost predicate LogsInit(s: State, r: Outcome) {
    s.initLog == Marked(s, s.Insts().keys) + if r.Ok? && r.value in s.services then [r.value] else []
  }

  /** asked leads to a transient without an instance. */
  predicate TransientAsked(s: State, asked: TypeId) {
    s.Lives(s.Lookup(asked), Transient) && !s.Has(s.Lookup(asked))
  }

  /** What two resolutions make differs, whatever they are asked for. */
  lemma MadeDiffers(s0: State, s1: State, t: TypeId, v: Value, s2: State, s3: State, u: TypeId, w: Value)
    requires MadeNow(s0, s1, t, v) && Grew(s1, s2) && MadeNow(s2, s3, u, w)
    ensures v < w
  {
  }

  /**
    The constructor of t, which has all it takes and works, has been called since s and
    made v, the last of what was made.
   */
  ghost predicate MadeNow(s: State, s': State, t: TypeId, v: Value) {
    && s.nextValue <= v && v + 1 == s'.nextValue
    && DepsProvided(s', t) && t in s'.regs.m
    && s'.regs.m[t].behaviour != CtorFails && (s'.regs.m[t].service ==> s'.regs.m[t].behaviour != InitFails)
  }

  /** What invoking the constructor of t may change, and what it returns. */
  ghost predicate Invoked(s: State, s': State, g: Gid, t: TypeId, starting: set<TypeId>, r: Outcome) {
    && Basics(s') && Alone(s', g, starting) && Grew(s, s')
    && (Tracked(s) ==> LogsInit(s', r))
    && (r.Err? ==> Blamed(s', t, r.error))
    && (r.Ok? ==>
          && Fresh(s', r.value) && MadeNow(s, s', t, r.value)
          && (r.value in s'.services <==> s'.regs.m[t].service))
    && (StackOf(s.sh, g) == [] ==> Shallow(s, s', t, r) && (ShallowCase(s, t) ==> s'.Insts() == s.Insts()))
  }

  ghost predicate ShallowCase(s: State, t: TypeId) {
    t in s.regs.m ==>
      var d := FirstMissing(s, s.regs.m[t].params, 0);
      d.Some? ==> Refused(s, d.value).Some?
  }

  lemma NotInvoked(s: State, g: Gid, t: TypeId, starting: set<TypeId>, e: DIError)
    requires Basics(s) && Alone(s, g, starting)
    requires Blamed(s, t, e) || (e == NoConstructor(t) && t !in s.regs.m)
    requires StackOf(s.sh, g) == [] ==> t !in s.regs.m
    ensures Invoked(s, s, g, t, starting, Err(e))
  {
    LeadsSelf(s, t);
    GrewSelf(s);
  }

  /** g has gone from s0 into the constructor of t. */
  ghost predicate Entering(s0: State, s1: State, g: Gid, t: TypeId, starting: set<TypeId>) {
    && Basics(s0) && Alone(s0, g, starting) && EnterError(s0.sh, g, t).None?
    && s1 == s0.(sh := Entered(s0.sh, g, t), deepest := Max(s0.deepest, |StackOf(s0.sh, g)| + 1))
    && (Tracked(s0) ==> Tracked(s1)) && t in s0.regs.m
  }

  /** What the constructor of t takes has been resolved, or could not be. */
  ghost predicate ArgsDone(s1: State, s2: State, g: Gid, t: TypeId, e: Option<DIError>) {
    && Basics(s2) && Alone(s2, g, {}) && Grew(s1, s2)
    && (Tracked(s1) ==> Tracked(s2))
    && (e.None? ==> DepsProvided(s2, t))
    && (e.Some? ==> Blamed(s2, t, e.value))
    && ArgsShallow(s1, s2, t, e)
  }

  lemma InvokeFailed(s0: State, s1: State, s2: State, s3: State, g: Gid, t: TypeId, starting: set<TypeId>, e: DIError)
    requires Entering(s0, s1, g, t, starting) && ArgsDone(s1, s2, g, t, Some(e))
    requires s3 == s2.(sh := Left(s2.sh, g))
    ensures Invoked(s0, s3, g, t, starting, Err(e))
  {
    LeaveBasics(s2, s3, g, t, Err(e));
    LeaveAlone(s0, s1, s2, s3, g, t, starting, Err(e));
    BlamedAfter(s2, s3, g, t, Err(e), e);
    if StackOf(s0.sh, g) == [] {
      FailedShallow(s0, s1, s2, s3, g, t, e);
    }
  }

  lemma FailedShallow(s0: State, s1: State, s2: State, s3: State, g: Gid, t: TypeId, e: DIError)
    requires t in s0.regs.m && StackOf(s0.sh, g) == [] && EnterError(s0.sh, g, t).None?
    requires s1 == s0.(sh := Entered(s0.sh, g, t), deepest := Max(s0.deepest, 1))
    requires ArgsShallow(s1, s2, t, Some(e)) && s3 == s2.(sh := Left(s2.sh, g))
    ensures Shallow(s0, s3, t, Err(e)) && (ShallowCase(s0, t) ==> s3.Insts() == s0.Insts())
  {
    MissingRefused(s0, s1, t);
  }

  /** Entering a constructor changes nothing about what its first missing parameter is, and why it is refused. */
  lemma MissingRefused(s0: State, s1: State, t: TypeId)
    requires t in s0.regs.m && s1 == s0.(sh := s1.sh, deepest := s1.deepest) && s1.Insts() == s0.Insts()
    ensures var d := FirstMissing(s0, s0.regs.m[t].params, 0);
      FirstMissing(s1, s1.regs.m[t].params, 0) == d && (d.Some? ==> Refused(s1, d.value) == Refused(s0, d.value))
  {
    SameMissing(s0, s1, s0.regs.m[t].params, 0);
  }

  lemma InvokeCalled(s0: State, s1: State, s2: State, s3: State, g: Gid, t: TypeId, starting: set<TypeId>, r: Outcome)
    requires Entering(s0, s1, g, t, starting) && ArgsDone(s1, s2, g, t, None)
    requires Called(s2.(sh := Left(s2.sh, g)), s3, t, r)
    ensures Invoked(s0, s3, g, t, starting, r)
  {
    LeaveBasics(s2, s3, g, t, r);
    LeaveAlone(s0, s1, s2, s3, g, t, starting, r);
    CalledProvided(s2, s3, g, t, r);
    if r.Err? {
      LeadsSelf(s3, t);
      assert BornOut(s3, r.error);
    }
    if StackOf(s0.sh, g) == [] {
      CalledShallow(s0, s1, s2, s3, g, t, r);
    }
  }

  lemma CalledShallow(s0: State, s1: State, s2: State, s3: State, g: Gid, t: TypeId, r: Outcome)
    requires t in s0.regs.m && StackOf(s0.sh, g) == [] && EnterError(s0.sh, g, t).None?
    requires s1 == s0.(sh := Entered(s0.sh, g, t), deepest := Max(s0.deepest, 1))
    requires s2.regs == s1.regs && Called(s2.(sh := Left(s2.sh, g)), s3, t, r)
    requires ArgsShallow(s1, s2, t, None)
    ensures Shallow(s0, s3, t, r)
    ensures ShallowCase(s0, t) ==> s3.Insts() == s0.Insts()
  {
    MissingRefused(s0, s1, t);
  }

  lemma CalledProvided(s2: State, s3: State, g: Gid, t: TypeId, r: Outcome)
    requires t in s2.regs.m && DepsProvided(s2, t) && Called(s2.(sh := Left(s2.sh, g)), s3, t, r)
    ensures DepsProvided(s3, t)
  {
    forall d | d in s3.Deps(t) ensures Provided(s3, d) {
      assert Provided(s2, d);
    }
  }

  lemma {:induction false} SameMissing(a: State, b: State, ts: seq<TypeId>, i: nat)
    requires i <= |ts| && a.aliases == b.aliases && a.Insts() == b.Insts()
    ensures FirstMissing(a, ts, i) == FirstMissing(b, ts, i)
    decreases |ts| - i
  {
    if i < |ts| {
      SameMissing(a, b, ts, i + 1);
    }
  }

  /** Why a request for asked fails at once, if it does. */
  function Refused(s: State, asked: TypeId): Option<DIError> {
    var t := s.Lookup(asked);
    if s.Has(t) then None
    else if t !in s.regs.m then Some(NotRegistered(asked, t))
    else match s.regs.m[t].lifetime
      case Scoped => Some(ScopeRequired(t))
      case Unknown => Some(InvalidLifetime(t))
      case _ => None
  }

  /** Resolving parameters that are all there, or the first missing of which is refused, builds nothing. */
  ghost predicate ArgsShallow(s: State, s': State, t: TypeId, e: Option<DIError>) {
    t in s.regs.m ==>
      match FirstMissing(s, s.regs.m[t].params, 0)
      case None => e.None? && s' == s
      case Some(d) => Refused(s, d).Some? ==> e == Refused(s, d) && s' == s
  }

  /**
    With nothing under construction, and every parameter of t there or the first missing
    one refused, no constructor nests and the outcome is known.
   */
  ghost predicate Shallow(s: State, s': State, t: TypeId, r: Outcome) {
    t in s.regs.m ==>
      match FirstMissing(s, s.regs.m[t].params, 0)
      case None =>
        && s'.deepest == Max(s.deepest, 1)
        && (r.Ok? <==> Works(s.regs.m[t]))
        && (r.Err? ==> r.error == CtorFailed(t) || r.error == InitFailed(t))
      case Some(d) => Refused(s, d).Some? ==>
        && s'.deepest == Max(s.deepest, 1)
        && r == Err(Refused(s, d).value)
  }

  predicate Works(reg: Registration) {
    reg.behaviour == Succeeds || (reg.behaviour == InitFails && !reg.service)
  }

  /** The only instance a build of t adds is t itself. */
  ghost predicate AddsOnly(s: State, s': State, t: TypeId, r: Outcome) {
    && (r.Ok? ==> s'.Insts().keys == s.Insts().keys + [t])
    && (r.Err? ==> s'.Insts() == s.Insts())
  }

  /** s' is s after build b of t was published with result r and its channel closed. */
  ghost predicate Published(s: State, s': State, t: TypeId, b: BuildId, r: Outcome) {
    s' == s.(sh := Closed(Finished(s.sh, t, b, r), b), constructed := s.constructed + if r.Ok? then {t} else {})
  }

  lemma BeforeKept(keys: seq<TypeId>, keys': seq<TypeId>, d: TypeId, u: TypeId)
    requires keys <= keys' && Before(keys, d, u)
    ensures Before(keys', d, u)
  {
    IndexKept(keys, keys', d);
    IndexKept(keys, keys', u);
    assert keys'[IndexOf(keys, d)] == d && keys'[IndexOf(keys, u)] == u;
  }

  lemma BeforeLast(keys: seq<TypeId>, d: TypeId, t: TypeId)
    requires d in keys && t !in keys
    ensures Before(keys + [t], d, t)
  {
    var keys' := keys + [t];
    assert keys'[|keys|] == t;
    IndexKept(keys, keys', d);
    assert keys'[IndexOf(keys, d)] == d;
    assert forall j :: 0 <= j < |keys| ==> keys'[j] == keys[j];
  }

  lemma PublishDep(s2: State, s3: State, t: TypeId, b: BuildId, r: Outcome, u: TypeId, d: TypeId)
    requires Basics(s2) && !s2.Has(t) && s2.Lives(t, Singleton) && Published(s2, s3, t, b, r)
    requires r.Ok? && DepsProvided(s2, t) && u in s3.constructed && Edge(s2, u, d)
    ensures (s3.Lives(d, Transient) && !s3.Has(d)) || Before(s3.Insts().keys, d, u)
  {
    assert s3.Insts().keys == s2.Insts().keys + [t];
    if u == t {
      assert Provided(s2, d);
      if s2.Has(d) {
        BeforeLast(s2.Insts().keys, d, t);
      }
    } else {
      assert DepFirst(s2, u, d);
      if Before(s2.Insts().keys, d, u) {
        BeforeKept(s2.Insts().keys, s3.Insts().keys, d, u);
      }
    }
  }

  lemma PublishDeps(s2: State, s3: State, t: TypeId, b: BuildId, r: Outcome)
    requires Basics(s2) && !s2.Has(t) && s2.Lives(t, Singleton) && Published(s2, s3, t, b, r)
    requires r.Ok? ==> DepsProvided(s2, t)
    ensures DepsFirst(s3)
  {
    forall u: TypeId, d: TypeId ensures DepFirst(s3, u, d) {
      assert Edge(s3, u, d) == Edge(s2, u, d);
      if r.Ok? {
        if u in s3.constructed && Edge(s2, u, d) {
          PublishDep(s2, s3, t, b, r, u, d);
        }
      } else {
        assert DepFirst(s2, u, d);
      }
    }
  }

  lemma PublishBasics(s2: State, s3: State, g: Gid, t: TypeId, b: BuildId, r: Outcome)
    requires Basics(s2) && !s2.Has(t) && s2.Lives(t, Singleton) && Published(s2, s3, t, b, r)
    requires r.Ok? ==> DepsProvided(s2, t) && Fresh(s2, r.value)
    ensures Basics(s3)
  {
    PublishDeps(s2, s3, t, b, r);
    forall u: TypeId ensures Origin(s3, u) && AliasFlat(s3, u) {
      assert Origin(s2, u) && AliasFlat(s2, u);
    }
    forall v: Value ensures ServiceKnown(s3, v) {
      assert ServiceKnown(s2, v);
    }
  }

  lemma PublishTracked(s2: State, s3: State, t: TypeId, b: BuildId, r: Outcome)
    requires Basics(s2) && !s2.Has(t) && Published(s2, s3, t, b, r) && LogsInit(s2, r)
    ensures Tracked(s3)
  {
    var keys := s2.Insts().keys;
    forall u | u in keys ensures SameMark(s2, s3, u) {
      assert Origin(s2, u);
    }
    MarkedSame(s2, s3, keys);
    if r.Ok? {
      MarkedNext(s3, keys, t);
    }
  }

  /** A build of the singleton t can be started. */
  ghost predicate Startable(s: State, g: Gid, t: TypeId) {
    && Basics(s) && Alone(s, g, {}) && Asked(s, g, t)
    && !s.Has(t) && t !in s.sh.builds && s.Lives(t, Singleton)
  }

  /** What a build of the singleton t may change, and what it comes to. */
  ghost predicate Resolved(s: State, s': State, g: Gid, t: TypeId, r: Outcome) {
    && Basics(s') && Alone(s', g, {}) && Grew(s, s')
    && (Tracked(s) ==> Tracked(s'))
    && (r.Ok? ==> s'.Has(t) && r.value == s'.Insts().m[t] && MadeNow(s, s', t, r.value))
    && (r.Err? ==> Blamed(s', t, r.error))
    && (StackOf(s.sh, g) == [] ==> Shallow(s, s', t, r) && (ShallowCase(s, t) ==> AddsOnly(s, s', t, r)))
  }

  lemma FinishAlone(s0: State, s1: State, s2: State, s3: State, g: Gid, t: TypeId, b: BuildId, r: Outcome)
    requires Startable(s0, g, t)
    requires s1 == s0.(sh := Decided(s0.sh, g, t)) && b == |s0.sh.heap|
    requires Invoked(s1, s2, g, t, {t}, r) && Published(s2, s3, t, b, r)
    ensures Resolved(s0, s3, g, t, r)
  {
    assert BuildMine(s2, g, {t}, t);
    PublishBasics(s2, s3, g, t, b, r);
    if Tracked(s0) {
      FinishTracked(s0, s1, s2, s3, t, b, r);
    }
    FinishGrew(s0, s1, s2, s3, g, t, b, r);
    if r.Err? {
      BlamedPublished(s2, s3, t, b, r, r.error);
    } else {
      FinishMade(s0, s1, s2, s3, t, b, r);
    }
    if StackOf(s0.sh, g) == [] {
      FinishShallow(s0, s1, s2, s3, g, t, b, r);
    }
  }

  lemma FinishMade(s0: State, s1: State, s2: State, s3: State, t: TypeId, b: BuildId, r: Outcome)
    requires s1 == s0.(sh := s1.sh) && r.Ok? && MadeNow(s1, s2, t, r.value) && Published(s2, s3, t, b, r)
    ensures MadeNow(s0, s3, t, r.value)
  {
    forall d | d in s3.Deps(t)
      ensures Provided(s3, d)
    {
      assert d in s2.Deps(t) && Provided(s2, d);
    }
  }

  lemma FinishTracked(s0: State, s1: State, s2: State, s3: State, t: TypeId, b: BuildId, r: Outcome)
    requires Basics(s0) && Tracked(s0)
    requires s1 == s0.(sh := s1.sh) && s1.Insts() == s0.Insts()
    requires (Tracked(s1) ==> LogsInit(s2, r)) && Basics(s2) && !s2.Has(t) && Published(s2, s3, t, b, r)
    ensures Tracked(s3)
  {
    MarkedSame(s0, s1, s0.Insts().keys);
    PublishTracked(s2, s3, t, b, r);
  }

  lemma FinishShallow(s0: State, s1: State, s2: State, s3: State, g: Gid, t: TypeId, b: BuildId, r: Outcome)
    requires s0.Lives(t, Singleton) && !s0.Has(t) && Basics(s0)
    requires s1.regs == s0.regs && s1.aliases == s0.aliases && s1.Insts() == s0.Insts() && s1.deepest == s0.deepest
    requires Shallow(s1, s2, t, r) && (ShallowCase(s1, t) ==> s2.Insts() == s1.Insts())
    requires Published(s2, s3, t, b, r)
    ensures Shallow(s0, s3, t, r) && (ShallowCase(s0, t) ==> AddsOnly(s0, s3, t, r))
  {
    SameMissing(s0, s1, s0.regs.m[t].params, 0);
  }

  lemma FinishGrew(s0: State, s1: State, s2: State, s3: State, g: Gid, t: TypeId, b: BuildId, r: Outcome)
    requires Basics(s0) && Alone(s0, g, {}) && !s0.Has(t) && t !in s0.sh.builds && s0.Lives(t, Singleton)
    requires s1 == s0.(sh := Decided(s0.sh, g, t)) && b == |s0.sh.heap|
    requires Grew(s1, s2) && Alone(s2, g, {t}) && Published(s2, s3, t, b, r) && (r.Ok? ==> Fresh(s2, r.value))
    ensures Alone(s3, g, {}) && Grew(s0, s3)
  {
    assert BuildMine(s2, g, {t}, t);
    assert s2.sh.builds == s0.sh.builds[t := b];
    assert s3.sh.builds == s0.sh.builds;
    forall u: TypeId ensures Kept(s0, s3, u) {
      assert Kept(s1, s2, u);
    }
    forall v: Value ensures SameService(s0, s3, v) {
      assert SameService(s1, s2, v);
    }
    forall u: TypeId ensures BuildMine(s3, g, {}, u) {
      assert BuildMine(s0, g, {}, u) && BuildMine(s2, g, {t}, u);
    }
    SamePaths(s0, s3, StackOf(s0.sh, g));
    forall u: TypeId, w: TypeId ensures NoNewTwins(s0, s3, u, w) {
      assert NoNewTwins(s1, s2, u, w);
      FreshApart(s2, s3, t, b, r, u, w);
    }
  }

  /** An instance that no type held before is held under one type. */
  lemma FreshApart(s: State, s': State, t: TypeId, b: BuildId, r: Outcome, u: TypeId, w: TypeId)
    requires Published(s, s', t, b, r) && (r.Ok? ==> Fresh(s, r.value))
    ensures NoNewTwins(s, s', u, w)
  {
    assert r.Ok? ==> NotHeld(s, r.value, u) && NotHeld(s, r.value, w);
  }

  lemma BlamedPublished(s: State, s': State, t: TypeId, b: BuildId, r: Outcome, e: DIError)
    requires Published(s, s', t, b, r) && r.Err? && Blamed(s, t, e)
    ensures Blamed(s', t, e)
  {
    forall u: TypeId, d: TypeId ensures Edge(s', u, d) == Edge(s, u, d) {}
    var p: seq<TypeId> :| p != [] && p[0] == t && p[|p| - 1] == Subject(e) && Path(s, p);
    SamePaths(s, s', p);
    if e.Circular? {
      SamePaths(s, s', e.cycle);
    }
    if e.TooDeep? {
      var q :| |q| == MAX_RESOLVE_DEPTH + 1 && NoDups(q) && Path(s, q) && q[|q| - 1] == e.t;
      SamePaths(s, s', q);
    }
  }

  lemma ProvidedKept(a: State, b: State, t: TypeId)
    requires Grew(a, b) && Provided(a, t)
    ensures Provided(b, t)
  {
    assert Kept(a, b, t);
  }

  lemma AllProvided(s: State, t: TypeId, params: seq<TypeId>)
    requires t in s.regs.m && s.regs.m[t].params == params
    requires forall j :: 0 <= j < |params| ==> Provided(s, s.Lookup(params[j]))
    ensures DepsProvided(s, t)
  {
    forall d | d in s.Deps(t) ensures Provided(s, d) {
      var j :| 0 <= j < |params| && s.Deps(t)[j] == d;
    }
  }

  /** The first i parameters are resolved; while all of them were there, nothing has happened. */
  ghost predicate ArgsSoFar(s0: State, s: State, params: seq<TypeId>, i: nat, quiet: bool) {
    && i <= |params|
    && (forall j :: 0 <= j < i ==> Provided(s, s0.Lookup(params[j])))
    && (quiet ==> s == s0 && FirstMissing(s0, params, 0) == FirstMissing(s0, params, i))
    && (!quiet ==> FirstMissing(s0, params, 0).Some? && Refused(s0, FirstMissing(s0, params, 0).value).None?)
  }

  lemma NextArg(s0: State, s1: State, s2: State, params: seq<TypeId>, i: nat, quiet: bool)
    requires ArgsSoFar(s0, s1, params, i, quiet) && i < |params|
    requires Grew(s0, s1) && Grew(s1, s2) && Provided(s2, s2.Lookup(params[i]))
    requires Refused(s1, params[i]).None? && (s1.Has(s1.Lookup(params[i])) ==> s2 == s1)
    ensures ArgsSoFar(s0, s2, params, i + 1, quiet && s0.Has(s0.Lookup(params[i]))) && Grew(s0, s2)
  {
    GrewTrans(s0, s1, s2);
    forall j | 0 <= j < i + 1
      ensures Provided(s2, s0.Lookup(params[j]))
    {
      if j < i {
        assert Provided(s1, s0.Lookup(params[j]));
        ProvidedKept(s1, s2, s0.Lookup(params[j]));
      }
    }
  }

  lemma ArgFailed(s0: State, s1: State, s2: State, t: TypeId, params: seq<TypeId>, i: nat, quiet: bool, e: DIError)
    requires ArgsSoFar(s0, s1, params, i, quiet) && i < |params|
    requires t in s0.regs.m && s0.regs.m[t].params == params
    requires Grew(s0, s1) && Grew(s1, s2) && Blamed(s2, s2.Lookup(params[i]), e)
    requires !s1.Has(s1.Lookup(params[i]))
    requires Refused(s1, params[i]).Some? ==> e == Refused(s1, params[i]).value && s2 == s1
    ensures Blamed(s2, t, e) && ArgsShallow(s0, s2, t, Some(e)) && Grew(s0, s2)
  {
    GrewTrans(s0, s1, s2);
    assert s2.Deps(t)[i] == s2.Lookup(params[i]);
    LeadsStep(s2, t, s2.Lookup(params[i]), Subject(e));
  }

  lemma AloneBuildsExist(s: State, g: Gid, starting: set<TypeId>)
    requires Alone(s, g, starting)
    ensures forall t :: t in s.sh.builds ==> s.sh.builds[t] < |s.sh.heap|
    ensures forall h :: h in s.sh.waiting ==> s.sh.waiting[h] < |s.sh.heap|
  {
    forall t | t in s.sh.builds ensures s.sh.builds[t] < |s.sh.heap| {
      assert BuildMine(s, g, starting, t);
    }
  }

  lemma PathSuffix(s: State, p: seq<TypeId>, i: nat, t: TypeId)
    requires Path(s, p) && i < |p| && Edge(s, p[|p| - 1], t)
    ensures Path(s, p[i..] + [t])
  {
    var q := p[i..] + [t];
    forall k | 0 <= k < |q| - 1 ensures Edge(s, q[k], q[k + 1]) {
      if k + 1 < |p| - i {
        assert Edge(s, p[i + k], p[i + k + 1]);
      }
    }
  }

  /** A type found on g's own stack is a real cycle, and t is where it closes. */
  lemma StackCycle(s: State, g: Gid, t: TypeId, starting: set<TypeId>)
    requires Alone(s, g, starting) && Asked(s, g, t) && t in StackOf(s.sh, g)
    ensures Blamed(s, t, Circular(StackOf(s.sh, g)[IndexOf(StackOf(s.sh, g), t)..] + [t]))
  {
    var stack := StackOf(s.sh, g);
    PathSuffix(s, stack, IndexOf(stack, t), t);
    LeadsSelf(s, t);
  }

  /** A goroutine alone has nobody to wait for. */
  lemma NeverWaits(s: State, g: Gid, t: TypeId)
    requires Alone(s, g, {})
    ensures !Decide(s.sh, g, t).Wait?
  {
    assert BuildMine(s, g, {}, t);
  }

  lemma OwnBuildRefused(s: State, g: Gid, t: TypeId)
    requires Alone(s, g, {}) && Asked(s, g, t) && !s.Has(t) && t in s.sh.builds
    ensures Decide(s.sh, g, t).Refuse? && Blamed(s, t, Decide(s.sh, g, t).e)
  {
    assert BuildMine(s, g, {}, t);
    StackCycle(s, g, t, {});
  }

  lemma StartAlone(s0: State, s1: State, g: Gid, t: TypeId)
    requires Basics(s0) && Alone(s0, g, {}) && !s0.Has(t) && t !in s0.sh.builds
    requires s1 == s0.(sh := Decided(s0.sh, g, t))
    ensures Basics(s1) && Alone(s1, g, {t})
  {
    forall u: TypeId ensures BuildMine(s1, g, {t}, u) && Origin(s1, u) {
      assert BuildMine(s0, g, {}, u) && Origin(s0, u);
    }
    SameAliases(s0, s1);
    forall u: TypeId, d: TypeId ensures DepFirst(s1, u, d) {
      assert DepFirst(s0, u, d) && Edge(s1, u, d) == Edge(s0, u, d);
    }
    SamePaths(s0, s1, StackOf(s0.sh, g));
  }

  lemma SameAliases(a: State, b: State)
    requires forall u: TypeId :: AliasFlat(a, u)
    requires forall v: Value :: ServiceKnown(a, v)
    requires b == a.(sh := b.sh, deepest := b.deepest) && b.sh.instances == a.sh.instances
    ensures forall u: TypeId :: AliasFlat(b, u)
    ensures forall v: Value :: ServiceKnown(b, v)
  {
    forall u: TypeId ensures AliasFlat(b, u) {
      assert AliasFlat(a, u);
    }
    forall v: Value ensures ServiceKnown(b, v) {
      assert ServiceKnown(a, v);
    }
  }

  lemma SamePaths(a: State, b: State, p: seq<TypeId>)
    requires a.regs == b.regs && a.aliases == b.aliases && Path(a, p)
    ensures Path(b, p)
  {
    forall i | 0 <= i < |p| - 1 ensures Edge(b, p[i], p[i + 1]) {
      assert Edge(a, p[i], p[i + 1]);
    }
  }

  lemma EnterRefused(s: State, g: Gid, t: TypeId, starting: set<TypeId>)
    requires Alone(s, g, starting) && Asked(s, g, t) && EnterError(s.sh, g, t).Some?
    ensures Blamed(s, t, EnterError(s.sh, g, t).value)
  {
    var stack := StackOf(s.sh, g);
    if t in stack {
      StackCycle(s, g, t, starting);
    } else {
      assert stack[0..] == stack;
      PathSuffix(s, stack, 0, t);
      assert NoDups(stack + [t]);
      LeadsSelf(s, t);
    }
  }

  lemma EnterAlone(s0: State, s1: State, g: Gid, t: TypeId, starting: set<TypeId>)
    requires Basics(s0) && Alone(s0, g, starting) && Asked(s0, g, t) && starting <= {t}
    requires t in s0.regs.m && EnterError(s0.sh, g, t).None?
    requires s1 == s0.(sh := Entered(s0.sh, g, t), deepest := s1.deepest)
    ensures Basics(s1) && Alone(s1, g, {})
    ensures StackOf(s1.sh, g) == StackOf(s0.sh, g) + [t]
    ensures Tracked(s0) ==> Tracked(s1)
  {
    var stack := StackOf(s0.sh, g);
    forall u: TypeId ensures BuildMine(s1, g, {}, u) && Origin(s1, u) {
      assert BuildMine(s0, g, starting, u) && Origin(s0, u);
    }
    SameAliases(s0, s1);
    forall u: TypeId, d: TypeId ensures DepFirst(s1, u, d) {
      assert DepFirst(s0, u, d) && Edge(s1, u, d) == Edge(s0, u, d);
    }
    if stack != [] {
      assert stack[0..] == stack;
      PathSuffix(s0, stack, 0, t);
    }
    SamePaths(s0, s1, stack + [t]);
    MarkedSame(s0, s1, s0.Insts().keys);
  }

  /** What calling the constructor of t, and the Init of what it made, changes and returns. */
  ghost predicate Called(s: State, s': State, t: TypeId, r: Outcome)
    requires t in s.regs.m
  {
    var reg := s.regs.m[t];
    if reg.behaviour == CtorFails then r == Err(CtorFailed(t)) && s' == s
    else
      && s' == s.(nextValue := s.nextValue + 1,
                  services := s.services + if reg.service then {s.nextValue} else {},
                  initLog := s.initLog + if reg.service && r.Ok? then [s.nextValue] else [])
      && r == if reg.service && reg.behaviour == InitFails then Err(InitFailed(t)) else Ok(s.nextValue)
  }

  /** s' is s after the constructor of t was called, or could not be, and g left it. */
  ghost predicate MadeOnly(s: State, s': State, g: Gid, t: TypeId, r: Outcome) {
    && t in s.regs.m
    && ((r.Err? && s' == s.(sh := Left(s.sh, g))) || Called(s.(sh := Left(s.sh, g)), s', t, r))
  }

  lemma LeaveBasics(s2: State, s3: State, g: Gid, t: TypeId, r: Outcome)
    requires Basics(s2) && MadeOnly(s2, s3, g, t, r)
    ensures Basics(s3)
    ensures Tracked(s2) ==> LogsInit(s3, r)
    ensures r.Ok? ==> Fresh(s3, r.value) && (r.value in s3.services <==> s3.regs.m[t].service)
  {
    assert ServiceKnown(s2, s2.nextValue);
    forall u: TypeId ensures Origin(s3, u) && AliasFlat(s3, u) {
      assert Origin(s2, u) && AliasFlat(s2, u);
    }
    forall v: Value ensures ServiceKnown(s3, v) {
      assert ServiceKnown(s2, v);
    }
    forall u: TypeId, d: TypeId ensures DepFirst(s3, u, d) {
      assert DepFirst(s2, u, d) && Edge(s3, u, d) == Edge(s2, u, d);
    }
    forall u | u in s2.Insts().keys ensures SameMark(s2, s3, u) {
      assert Origin(s2, u);
    }
    MarkedSame(s2, s3, s2.Insts().keys);
    if r.Ok? {
      forall u: TypeId ensures NotHeld(s3, r.value, u) {
        assert Origin(s2, u);
      }
    }
  }

  lemma LeaveAlone(s0: State, s1: State, s2: State, s3: State, g: Gid, t: TypeId, starting: set<TypeId>, r: Outcome)
    requires Basics(s0) && Alone(s0, g, starting) && EnterError(s0.sh, g, t).None?
    requires s1 == s0.(sh := Entered(s0.sh, g, t), deepest := s1.deepest) && s0.deepest <= s1.deepest
    requires Basics(s2) && Alone(s2, g, {}) && Grew(s1, s2) && MadeOnly(s2, s3, g, t, r)
    ensures Alone(s3, g, starting) && Grew(s0, s3)
  {
    var stack := StackOf(s0.sh, g);
    assert StackOf(s2.sh, g) == stack + [t];
    assert s3.sh.stacks == s0.sh.stacks by {
      assert (stack + [t])[..|stack|] == stack;
      if |stack| == 0 {
        assert g !in s0.sh.stacks;
      }
    }
    forall u: TypeId ensures Kept(s0, s3, u) {
      assert Kept(s1, s2, u);
    }
    forall v: Value ensures SameService(s0, s3, v) {
      assert SameService(s1, s2, v);
    }
    forall u: TypeId ensures BuildMine(s3, g, starting, u) {
      assert BuildMine(s0, g, starting, u) && BuildMine(s2, g, {}, u);
    }
    forall u: TypeId, w: TypeId ensures NoNewTwins(s0, s3, u, w) {
      assert NoNewTwins(s1, s2, u, w);
    }
    SamePaths(s0, s3, stack);
  }

  lemma BlamedAfter(s: State, s': State, g: Gid, t: TypeId, r: Outcome, e: DIError)
    requires MadeOnly(s, s', g, t, r) && Blamed(s, t, e)
    ensures Blamed(s', t, e)
  {
    forall u: TypeId, d: TypeId ensures Edge(s', u, d) == Edge(s, u, d) {}
    var p: seq<TypeId> :| p != [] && p[0] == t && p[|p| - 1] == Subject(e) && Path(s, p);
    SamePaths(s, s', p);
    if e.Circular? {
      SamePaths(s, s', e.cycle);
    }
    if e.TooDeep? {
      var q :| |q| == MAX_RESOLVE_DEPTH + 1 && NoDups(q) && Path(s, q) && q[|q| - 1] == e.t;
      SamePaths(s, s', q);
    }
  }

  function Max(a: nat, b: nat): nat {
    if a < b then b else a
  }
}
