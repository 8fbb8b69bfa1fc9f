/**
  Every interleaving of the build protocol keeps its invariant.
 */
module BuildSafety {
  import opened Wrappers
  import opened Walks
  import opened BuildProtocol

  lemma InitialInv(s: System)
    requires Initial(s)
    ensures Inv(s, s.sh.instances.m)
  {
    forall g: Gid ensures Ends(Next(s.sh), g) {
      assert Walk(Next(s.sh), g, 1) == None;
    }
  }

  // ---------------------------------------------------------------------------
  // Goroutines that do not act
  // ---------------------------------------------------------------------------

  /** The change from sh to sh' is not one that goroutine h can tell. */
  ghost predicate Undisturbed(sh: Shared, sh': Shared, h: Gid) {
    && StackOf(sh', h) == StackOf(sh, h)
    && (h in sh'.waiting <==> h in sh.waiting)
    && (h in sh.waiting ==> sh'.waiting[h] == sh.waiting[h])
    && |sh.heap| <= |sh'.heap|
    && (forall b: nat :: b < |sh.heap| ==> sh'.heap[b].t == sh.heap[b].t)
    && (forall b: nat :: b < |sh.heap| && sh.heap[b].gid == h ==> sh'.heap[b] == sh.heap[b])
    && (forall t :: t in sh.builds && sh.builds[t] < |sh.heap| && sh.heap[sh.builds[t]].gid == h
          ==> t in sh'.builds && sh'.builds[t] == sh.builds[t])
  }

  lemma KeepOther(sh: Shared, sh': Shared, fs: seq<Frame>, h: Gid)
    requires GoroutineOK(sh, fs, h) && Undisturbed(sh, sh', h)
    ensures GoroutineOK(sh', fs, h)
  {
    forall i: nat | i < |fs| ensures FrameOK(sh', fs, h, i) {
      assert FrameOK(sh, fs, h, i);
    }
  }

  /** An action of g changes g's own frames and disturbs nobody else. */
  ghost predicate Local(s: System, s': System, g: Gid) {
    forall h: Gid :: h != g ==> Frames(s', h) == Frames(s, h) && Undisturbed(s.sh, s'.sh, h)
  }

  lemma KeepGoroutines(s: System, s': System, g: Gid)
    requires AllOK(s) && Local(s, s', g) && At(s', g)
    ensures AllOK(s')
  {
    forall h: Gid ensures At(s', h) {
      if h != g {
        assert At(s, h);
        KeepOther(s.sh, s'.sh, Frames(s, h), h);
      }
    }
  }

  lemma ConstructionsPush(fs: seq<Frame>, f: Frame)
    ensures Constructions(fs + [f]) == Constructions(fs) + if f.Constructing? then [f.t] else []
  {
    assert (fs + [f])[..|fs|] == fs;
  }

  lemma ConstructionsReplace(fs: seq<Frame>, f: Frame)
    requires fs != [] && !fs[|fs| - 1].Constructing? && !f.Constructing?
    ensures Constructions(fs[|fs| - 1 := f]) == Constructions(fs)
  {
    assert fs[|fs| - 1 := f][..|fs| - 1] == fs[..|fs| - 1];
  }

  // ---------------------------------------------------------------------------
  // Asking for a singleton
  // ---------------------------------------------------------------------------

  lemma KeepResolve(s: System, g: Gid, t: TypeId, preset: map<TypeId, Value>)
    requires Inv(s, preset) && Enabled(s, Resolve(g, t))
    ensures Inv(Apply(s, Resolve(g, t)), preset)
  {
    match Decide(s.sh, g, t) {
      case Hit(v) => KeepDelivery(s, g, t, v, preset);
      case Refuse(_) =>
      case Wait(b) => KeepWait(s, g, t, b, preset);
      case Start(b) => KeepStart(s, g, t, b, preset);
    }
  }

  /** Handing out a cached instance changes nothing but the log. */
  lemma KeepDelivery(s: System, g: Gid, t: TypeId, v: Value, preset: map<TypeId, Value>)
    requires Inv(s, preset) && t in s.sh.instances.m && s.sh.instances.m[t] == v
    ensures Inv(Deliver(s, g, t, Ok(v)), preset)
  {
    var s' := Deliver(s, g, t, Ok(v));
    forall h: Gid ensures At(s', h) {
      assert At(s, h);
    }
    forall b: BuildId ensures Owned(s', b) {
      assert Owned(s, b);
    }
    forall i: nat ensures DeliveryOK(s', i) {
      assert DeliveryOK(s, i);
    }
  }

  lemma WaitGoroutine(sh: Shared, fs: seq<Frame>, g: Gid, t: TypeId, b: BuildId)
    requires GoroutineOK(sh, fs, g)
    requires fs == [] || fs[|fs| - 1].Constructing?
    requires b < |sh.heap| && sh.heap[b].t == t
    ensures g !in sh.waiting
    ensures GoroutineOK(sh.(waiting := sh.waiting[g := b]), fs + [Awaiting(t, b)], g)
  {
    var sh', fs' := sh.(waiting := sh.waiting[g := b]), fs + [Awaiting(t, b)];
    ConstructionsPush(fs, Awaiting(t, b));
    forall i: nat | i < |fs'| ensures FrameOK(sh', fs', g, i) {
      if i < |fs| {
        assert FrameOK(sh, fs, g, i);
      }
    }
  }

  lemma WaitAcyclic(sh: Shared, g: Gid, b: BuildId)
    requires Acyclic(Next(sh)) && g !in sh.waiting
    requires b < |sh.heap| && !Reaches(Next(sh), sh.heap[b].gid, g)
    ensures Acyclic(Next(sh.(waiting := sh.waiting[g := b])))
  {
    AddEdge(Next(sh), g, sh.heap[b].gid);
    assert Next(sh.(waiting := sh.waiting[g := b])) == Next(sh)[g := sh.heap[b].gid];
  }

  /** Steps that do not touch the builds and the instances keep what is known of them. */
  lemma KeepShared(s: System, s': System, preset: map<TypeId, Value>)
    requires BuildsOK(s.sh) && CacheOK(s.sh, preset) && LogOK(s)
    requires s'.sh.heap == s.sh.heap && s'.sh.builds == s.sh.builds && s'.sh.instances == s.sh.instances
    requires s'.log == s.log
    ensures BuildsOK(s'.sh) && CacheOK(s'.sh, preset) && LogOK(s')
  {
    forall t: TypeId ensures BuildOK(s'.sh, t) && Explained(s'.sh, preset, t) {
      assert BuildOK(s.sh, t) && Explained(s.sh, preset, t);
      if BuiltOnce(s.sh, t) {
        var b: BuildId :| Succeeded(s.sh, b) && s.sh.heap[b].t == t;
        assert Succeeded(s'.sh, b);
      }
    }
    forall b: BuildId ensures ResultOK(s'.sh, b) && Cached(s'.sh, preset, b) {
      assert ResultOK(s.sh, b) && Cached(s.sh, preset, b);
    }
    forall b: BuildId, c: BuildId ensures NotBoth(s'.sh, b, c) {
      assert NotBoth(s.sh, b, c);
    }
    forall i: nat ensures DeliveryOK(s', i) {
      assert DeliveryOK(s, i);
    }
  }

  lemma KeepWait(s: System, g: Gid, t: TypeId, b: BuildId, preset: map<TypeId, Value>)
    requires Inv(s, preset) && Enabled(s, Resolve(g, t)) && Decide(s.sh, g, t) == Wait(b)
    ensures Inv(Apply(s, Resolve(g, t)), preset)
  {
    var s' := Apply(s, Resolve(g, t));
    assert BuildOK(s.sh, t);
    assert At(s, g);
    WaitGoroutine(s.sh, Frames(s, g), g, t, b);
    WaitAcyclic(s.sh, g, b);
    KeepGoroutines(s, s', g);
    KeepOwners(s, s', g);
    KeepShared(s, s', preset);
  }

  /** Builds that exist stay owned when no frame is dropped. */
  lemma KeepOwners(s: System, s': System, g: Gid)
    requires OwnersOK(s) && s'.sh.heap == s.sh.heap && Local(s, s', g)
    requires Frames(s, g) <= Frames(s', g)
    ensures OwnersOK(s')
  {
    forall b: BuildId ensures Owned(s', b) {
      assert Owned(s, b);
    }
  }

  lemma StartGoroutine(sh: Shared, sh': Shared, fs: seq<Frame>, g: Gid, t: TypeId, b: BuildId)
    requires GoroutineOK(sh, fs, g) && b == |sh.heap| && t !in sh.builds
    requires fs == [] || fs[|fs| - 1].Constructing?
    requires sh' == sh.(builds := sh.builds[t := b], heap := sh.heap + [Build(t, g, None, false)])
    ensures GoroutineOK(sh', fs + [Building(t, b, Started)], g)
  {
    var fs' := fs + [Building(t, b, Started)];
    ConstructionsPush(fs, Building(t, b, Started));
    forall i: nat | i < |fs'| ensures FrameOK(sh', fs', g, i) && (i < |fs| && fs[i].Building? ==> fs[i].b < b) {
      if i < |fs| {
        assert FrameOK(sh, fs, g, i);
      }
    }
  }

  lemma StartShared(s: System, s': System, g: Gid, t: TypeId, preset: map<TypeId, Value>)
    requires BuildsOK(s.sh) && CacheOK(s.sh, preset) && LogOK(s) && t !in s.sh.instances.m
    requires s'.sh == s.sh.(builds := s.sh.builds[t := |s.sh.heap|], heap := s.sh.heap + [Build(t, g, None, false)])
    requires s'.log == s.log
    ensures BuildsOK(s'.sh) && CacheOK(s'.sh, preset) && LogOK(s')
  {
    forall u: TypeId ensures BuildOK(s'.sh, u) && Explained(s'.sh, preset, u) {
      assert BuildOK(s.sh, u) && Explained(s.sh, preset, u);
      if BuiltOnce(s.sh, u) {
        var b: BuildId :| Succeeded(s.sh, b) && s.sh.heap[b].t == u;
        assert Succeeded(s'.sh, b);
      }
    }
    forall b: BuildId ensures ResultOK(s'.sh, b) && Cached(s'.sh, preset, b) {
      assert ResultOK(s.sh, b) && Cached(s.sh, preset, b);
    }
    forall b: BuildId, c: BuildId ensures NotBoth(s'.sh, b, c) {
      assert NotBoth(s.sh, b, c);
    }
    forall i: nat ensures DeliveryOK(s', i) {
      assert DeliveryOK(s, i);
    }
  }

  /** A step that records the same waits, on builds of the same goroutines, keeps the graph. */
  lemma SameWaits(s: System, sh': Shared)
    requires AllOK(s) && sh'.waiting == s.sh.waiting
    requires |s.sh.heap| <= |sh'.heap| && forall b: nat :: b < |s.sh.heap| ==> sh'.heap[b].gid == s.sh.heap[b].gid
    ensures Next(sh') == Next(s.sh)
  {
    forall h: Gid | h in s.sh.waiting ensures BuildOf(sh', s.sh.waiting[h]).gid == BuildOf(s.sh, s.sh.waiting[h]).gid {
      assert At(s, h);
    }
  }

  lemma KeepStart(s: System, g: Gid, t: TypeId, b: BuildId, preset: map<TypeId, Value>)
    requires Inv(s, preset) && Enabled(s, Resolve(g, t)) && Decide(s.sh, g, t) == Start(b)
    ensures Inv(Apply(s, Resolve(g, t)), preset)
  {
    var s' := Apply(s, Resolve(g, t));
    assert At(s, g);
    StartGoroutine(s.sh, s'.sh, Frames(s, g), g, t, b);
    KeepGoroutines(s, s', g);
    forall c: BuildId ensures Owned(s', c) {
      assert Owned(s, c);
      assert Frames(s', g)[|Frames(s, g)|].b == b;
    }
    StartShared(s, s', g, t, preset);
    SameWaits(s, s'.sh);
  }

  // ---------------------------------------------------------------------------
  // Entering and leaving a constructor
  // ---------------------------------------------------------------------------

  /** A step of g that only moves stacks keeps the invariant when g's own part does. */
  lemma KeepStacks(s: System, s': System, g: Gid, preset: map<TypeId, Value>)
    requires Inv(s, preset)
    requires Local(s, s', g) && At(s', g) && OwnersOK(s') && s'.log == s.log
    requires s'.sh == s.sh.(stacks := s'.sh.stacks)
    ensures Inv(s', preset)
  {
    KeepGoroutines(s, s', g);
    KeepShared(s, s', preset);
    SameWaits(s, s'.sh);
  }

  lemma EnterGoroutine(sh: Shared, fs: seq<Frame>, g: Gid, t: TypeId, forBuild: bool)
    requires GoroutineOK(sh, fs, g) && EnterError(sh, g, t).None?
    requires forBuild ==> fs != [] && fs[|fs| - 1].Building? && fs[|fs| - 1].t == t && fs[|fs| - 1].phase.Started?
    requires !forBuild ==> fs == [] || fs[|fs| - 1].Constructing?
    ensures GoroutineOK(Entered(sh, g, t), fs + [Constructing(t, forBuild)], g)
  {
    var sh', fs' := Entered(sh, g, t), fs + [Constructing(t, forBuild)];
    ConstructionsPush(fs, Constructing(t, forBuild));
    assert t !in StackOf(sh, g);
    forall i: nat | i < |fs'| ensures FrameOK(sh', fs', g, i) {
      if i < |fs| {
        assert FrameOK(sh, fs, g, i);
      }
    }
  }

  lemma KeepInvoke(s: System, g: Gid, t: TypeId, preset: map<TypeId, Value>)
    requires Inv(s, preset) && Enabled(s, Invoke(g, t))
    ensures Inv(Apply(s, Invoke(g, t)), preset)
  {
    var s' := Apply(s, Invoke(g, t));
    assert At(s, g);
    if EnterError(s.sh, g, t).None? {
      EnterGoroutine(s.sh, Frames(s, g), g, t, false);
      KeepOwners(s, s', g);
      KeepStacks(s, s', g, preset);
    }
  }

  lemma ReplaceGoroutine(sh: Shared, fs: seq<Frame>, g: Gid, out: Outcome)
    requires GoroutineOK(sh, fs, g)
    requires fs != [] && fs[|fs| - 1].Building? && fs[|fs| - 1].phase.Started?
    ensures GoroutineOK(sh, fs[|fs| - 1 := fs[|fs| - 1].(phase := Returned(out))], g)
  {
    var top := |fs| - 1;
    var fs' := fs[top := fs[top].(phase := Returned(out))];
    ConstructionsReplace(fs, fs'[top]);
    forall i: nat | i < |fs'| ensures FrameOK(sh, fs', g, i) {
      assert FrameOK(sh, fs, g, i);
    }
    assert FrameOK(sh, fs, g, top);
  }

  /** Builds stay owned when g's build frames stay. */
  lemma KeepOwnersReplace(s: System, s': System, g: Gid)
    requires OwnersOK(s) && s'.sh.heap == s.sh.heap && Local(s, s', g)
    requires |Frames(s, g)| == |Frames(s', g)|
    requires forall i: nat :: i < |Frames(s, g)| && Frames(s, g)[i].Building?
               ==> Frames(s', g)[i].Building? && Frames(s', g)[i].b == Frames(s, g)[i].b
    ensures OwnersOK(s')
  {
    forall b: BuildId ensures Owned(s', b) {
      assert Owned(s, b);
      if b < |s.sh.heap| && !s.sh.heap[b].done && s.sh.heap[b].gid == g {
        var i: nat :| i < |Frames(s, g)| && Frames(s, g)[i].Building? && Frames(s, g)[i].b == b;
        assert Frames(s', g)[i].b == b;
      }
    }
  }

  lemma KeepEnter(s: System, g: Gid, preset: map<TypeId, Value>)
    requires Inv(s, preset) && Enabled(s, Enter(g))
    ensures Inv(Apply(s, Enter(g)), preset)
  {
    var s' := Apply(s, Enter(g));
    var fs := Frames(s, g);
    assert At(s, g);
    if EnterError(s.sh, g, fs[|fs| - 1].t).None? {
      EnterGoroutine(s.sh, fs, g, fs[|fs| - 1].t, true);
      KeepOwners(s, s', g);
      KeepStacks(s, s', g, preset);
    } else {
      KeepRefusedEnter(s, g, preset);
    }
  }

  lemma KeepRefusedEnter(s: System, g: Gid, preset: map<TypeId, Value>)
    requires Inv(s, preset) && Enabled(s, Enter(g))
    requires EnterError(s.sh, g, Frames(s, g)[|Frames(s, g)| - 1].t).Some?
    ensures Inv(Apply(s, Enter(g)), preset)
  {
    var s' := Apply(s, Enter(g));
    var fs := Frames(s, g);
    assert At(s, g);
    ReplaceGoroutine(s.sh, fs, g, Err(EnterError(s.sh, g, fs[|fs| - 1].t).value));
    KeepGoroutines(s, s', g);
    KeepOwnersReplace(s, s', g);
    KeepShared(s, s', preset);
  }

  lemma LeaveGoroutine(sh: Shared, fs: seq<Frame>, g: Gid)
    requires GoroutineOK(sh, fs, g)
    requires fs != [] && fs[|fs| - 1].Constructing?
    requires !fs[|fs| - 1].forBuild
    ensures GoroutineOK(Left(sh, g), fs[..|fs| - 1], g)
  {
    var sh', fs' := Left(sh, g), fs[..|fs| - 1];
    var f := fs[|fs| - 1];
    assert StackOf(sh, g) == Constructions(fs') + [f.t];
    assert g !in sh.waiting;
    forall i: nat | i < |fs'| ensures FrameOK(sh', fs', g, i) {
      assert FrameOK(sh, fs, g, i);
    }
  }

  lemma LeaveBuildGoroutine(sh: Shared, fs: seq<Frame>, g: Gid, out: Outcome)
    requires GoroutineOK(sh, fs, g)
    requires fs != [] && fs[|fs| - 1].Constructing? && fs[|fs| - 1].forBuild
    ensures |fs| > 1 && fs[|fs| - 2].Building?
    ensures GoroutineOK(Left(sh, g), fs[..|fs| - 1][|fs| - 2 := fs[|fs| - 2].(phase := Returned(out))], g)
  {
    assert FrameOK(sh, fs, g, |fs| - 1);
    var top := |fs| - 2;
    var f := fs[top].(phase := Returned(out));
    var sh', fs' := Left(sh, g), fs[..|fs| - 1][top := f];
    assert FrameOK(sh, fs, g, top);
    ConstructionsReplace(fs[..|fs| - 1], f);
    assert StackOf(sh, g) == Constructions(fs[..|fs| - 1]) + [fs[|fs| - 1].t];
    assert g !in sh.waiting;
    forall i: nat | i < |fs'| ensures FrameOK(sh', fs', g, i) {
      assert FrameOK(sh, fs, g, i);
    }
  }

  /** Builds stay owned when g drops a frame that is not a build. */
  lemma KeepOwnersDrop(s: System, s': System, g: Gid)
    requires OwnersOK(s) && s'.sh.heap == s.sh.heap && Local(s, s', g)
    requires |Frames(s, g)| == |Frames(s', g)| + 1 && !Frames(s, g)[|Frames(s', g)|].Building?
    requires forall i: nat :: i < |Frames(s', g)| && Frames(s, g)[i].Building?
               ==> Frames(s', g)[i].Building? && Frames(s', g)[i].b == Frames(s, g)[i].b
    ensures OwnersOK(s')
  {
    forall b: BuildId ensures Owned(s', b) {
      assert Owned(s, b);
      if b < |s.sh.heap| && !s.sh.heap[b].done && s.sh.heap[b].gid == g {
        var i: nat :| i < |Frames(s, g)| && Frames(s, g)[i].Building? && Frames(s, g)[i].b == b;
        assert Frames(s', g)[i].b == b;
      }
    }
  }

  lemma KeepLeave(s: System, g: Gid, out: Outcome, preset: map<TypeId, Value>)
    requires Inv(s, preset) && Enabled(s, Leave(g, out)) && !Frames(s, g)[|Frames(s, g)| - 1].forBuild
    ensures Inv(Apply(s, Leave(g, out)), preset)
  {
    assert At(s, g);
    var s1 := Pop(s.(sh := Left(s.sh, g)), g);
    KeepPopped(s, s1, g, preset);
  }

  lemma KeepPopped(s: System, s1: System, g: Gid, preset: map<TypeId, Value>)
    requires Inv(s, preset)
    requires Frames(s, g) != [] && Frames(s, g)[|Frames(s, g)| - 1].Constructing?
    requires !Frames(s, g)[|Frames(s, g)| - 1].forBuild
    requires s1 == Pop(s.(sh := Left(s.sh, g)), g)
    ensures Inv(s1, preset)
  {
    assert At(s, g);
    LeaveGoroutine(s.sh, Frames(s, g), g);
    PopApplies(s, s1, g);
    KeepLeft(s, s1, g, preset);
  }

  lemma PopApplies(s: System, s1: System, g: Gid)
    requires Frames(s, g) != []
    requires s1 == Pop(s.(sh := Left(s.sh, g)), g)
    ensures s1.sh == Left(s.sh, g) && s1.log == s.log && Local(s, s1, g)
    ensures Frames(s1, g) == Frames(s, g)[..|Frames(s, g)| - 1]
  {
  }

  lemma KeepLeft(s: System, s1: System, g: Gid, preset: map<TypeId, Value>)
    requires Inv(s, preset) && GoroutineOK(s1.sh, Frames(s1, g), g)
    requires s1.sh == Left(s.sh, g) && s1.log == s.log && Local(s, s1, g)
    requires Frames(s, g) != [] && Frames(s, g)[|Frames(s, g)| - 1].Constructing?
    requires Frames(s1, g) == Frames(s, g)[..|Frames(s, g)| - 1]
    ensures Inv(s1, preset)
  {
    KeepOwnersDrop(s, s1, g);
    KeepStacks(s, s1, g, preset);
  }

  lemma KeepLeaveBuild(s: System, g: Gid, out: Outcome, preset: map<TypeId, Value>)
    requires Inv(s, preset) && Enabled(s, Leave(g, out)) && Frames(s, g)[|Frames(s, g)| - 1].forBuild
    ensures Inv(Apply(s, Leave(g, out)), preset)
  {
    assert At(s, g);
    LeaveBuildGoroutine(s.sh, Frames(s, g), g, out);
    LeaveBuildApplies(s, g, out);
    KeepLeftBuild(s, Apply(s, Leave(g, out)), g, out, preset);
  }

  lemma LeaveBuildApplies(s: System, g: Gid, out: Outcome)
    requires Enabled(s, Leave(g, out))
    requires var fs := Frames(s, g); |fs| > 1 && fs[|fs| - 1].forBuild && fs[|fs| - 2].Building?
    ensures var fs, s' := Frames(s, g), Apply(s, Leave(g, out));
      && s'.sh == Left(s.sh, g) && s'.log == s.log && Local(s, s', g)
      && Frames(s', g) == fs[..|fs| - 1][|fs| - 2 := fs[|fs| - 2].(phase := Returned(out))]
  {
  }

  lemma KeepLeftBuild(s: System, s': System, g: Gid, out: Outcome, preset: map<TypeId, Value>)
    requires Inv(s, preset) && GoroutineOK(s'.sh, Frames(s', g), g)
    requires s'.sh == Left(s.sh, g) && s'.log == s.log && Local(s, s', g)
    requires var fs := Frames(s, g);
      && |fs| > 1 && fs[|fs| - 1].Constructing? && fs[|fs| - 2].Building?
      && Frames(s', g) == fs[..|fs| - 1][|fs| - 2 := fs[|fs| - 2].(phase := Returned(out))]
    ensures Inv(s', preset)
  {
    KeepOwnersDrop(s, s', g);
    KeepStacks(s, s', g, preset);
  }

  // ---------------------------------------------------------------------------
  // Publishing a result and waking the waiters
  // ---------------------------------------------------------------------------

  lemma FinishGoroutine(sh: Shared, fs: seq<Frame>, g: Gid)
    requires GoroutineOK(sh, fs, g)
    requires fs != [] && fs[|fs| - 1].Building? && fs[|fs| - 1].phase.Returned?
    ensures var f := fs[|fs| - 1];
      GoroutineOK(Finished(sh, f.t, f.b, f.phase.out), fs[|fs| - 1 := f.(phase := Published(f.phase.out))], g)
  {
    var top := |fs| - 1;
    var f := fs[top];
    var sh', fs' := Finished(sh, f.t, f.b, f.phase.out), fs[top := f.(phase := Published(f.phase.out))];
    ConstructionsReplace(fs, fs'[top]);
    assert FrameOK(sh, fs, g, top);
    forall i: nat | i < |fs'| ensures FrameOK(sh', fs', g, i) {
      assert FrameOK(sh, fs, g, i);
    }
  }

  lemma FinishShared(s: System, s': System, t: TypeId, b: BuildId, out: Outcome, preset: map<TypeId, Value>)
    requires BuildsOK(s.sh) && CacheOK(s.sh, preset) && LogOK(s)
    requires t in s.sh.builds && s.sh.builds[t] == b && b < |s.sh.heap| && !s.sh.heap[b].done
    requires s'.sh == Finished(s.sh, t, b, out) && s'.log == s.log
    ensures BuildsOK(s'.sh) && CacheOK(s'.sh, preset) && LogOK(s')
  {
    assert BuildOK(s.sh, t);
    forall u: TypeId ensures BuildOK(s'.sh, u) && Explained(s'.sh, preset, u) {
      assert BuildOK(s.sh, u) && Explained(s.sh, preset, u);
      if BuiltOnce(s.sh, u) {
        var c: BuildId :| Succeeded(s.sh, c) && s.sh.heap[c].t == u;
        assert Succeeded(s'.sh, c) && s'.sh.heap[c].t == u;
      } else if u == t && out.Ok? {
        assert Succeeded(s'.sh, b) && s'.sh.heap[b].t == u;
      }
    }
    forall c: BuildId ensures ResultOK(s'.sh, c) && Cached(s'.sh, preset, c) {
      assert ResultOK(s.sh, c) && Cached(s.sh, preset, c);
      assert Explained(s.sh, preset, t);
    }
    forall c: BuildId, d: BuildId ensures NotBoth(s'.sh, c, d) {
      assert NotBoth(s.sh, c, d) && Cached(s.sh, preset, c) && Cached(s.sh, preset, d);
    }
    forall i: nat ensures DeliveryOK(s', i) {
      assert DeliveryOK(s, i);
    }
  }

  lemma KeepFinish(s: System, g: Gid, preset: map<TypeId, Value>)
    requires Inv(s, preset) && Enabled(s, Finish(g))
    ensures Inv(Apply(s, Finish(g)), preset)
  {
    var fs := Frames(s, g);
    assert At(s, g) && FrameOK(s.sh, fs, g, |fs| - 1);
    FinishGoroutine(s.sh, fs, g);
    FinishLocal(s, g);
    KeepFinished(s, Apply(s, Finish(g)), g, fs[|fs| - 1], preset);
  }

  lemma KeepFinished(s: System, s': System, g: Gid, f: Frame, preset: map<TypeId, Value>)
    requires Inv(s, preset) && GoroutineOK(s'.sh, Frames(s', g), g) && Local(s, s', g)
    requires Frames(s, g) != [] && Frames(s, g)[|Frames(s, g)| - 1] == f && f.Building? && f.phase.Returned?
    requires FrameOK(s.sh, Frames(s, g), g, |Frames(s, g)| - 1)
    requires Frames(s', g) == Frames(s, g)[|Frames(s, g)| - 1 := f.(phase := Published(f.phase.out))]
    requires s'.sh == Finished(s.sh, f.t, f.b, f.phase.out) && s'.log == s.log
    ensures Inv(s', preset)
  {
    KeepGoroutines(s, s', g);
    FinishOwners(s, s', g, f);
    FinishShared(s, s', f.t, f.b, f.phase.out, preset);
    SameWaits(s, s'.sh);
  }

  lemma FinishOwners(s: System, s': System, g: Gid, f: Frame)
    requires OwnersOK(s) && Local(s, s', g)
    requires Frames(s, g) != [] && Frames(s, g)[|Frames(s, g)| - 1] == f && f.Building? && f.phase.Returned?
    requires f.t in s.sh.builds && f.b < |s.sh.heap|
    requires Frames(s', g) == Frames(s, g)[|Frames(s, g)| - 1 := f.(phase := Published(f.phase.out))]
    requires s'.sh == Finished(s.sh, f.t, f.b, f.phase.out)
    ensures OwnersOK(s')
  {
    forall b: BuildId ensures Owned(s', b) {
      assert Owned(s, b);
      if b < |s.sh.heap| && !s.sh.heap[b].done && s.sh.heap[b].gid == g {
        var i: nat :| i < |Frames(s, g)| && Frames(s, g)[i].Building? && Frames(s, g)[i].b == b;
        assert Frames(s', g)[i].b == b;
      }
    }
  }

  lemma FinishLocal(s: System, g: Gid)
    requires Enabled(s, Finish(g)) && At(s, g) && BuildsOK(s.sh)
    ensures Local(s, Apply(s, Finish(g)), g)
  {
    var f := Frames(s, g)[|Frames(s, g)| - 1];
    assert FrameOK(s.sh, Frames(s, g), g, |Frames(s, g)| - 1);
    forall t: TypeId | t in s.sh.builds && t != f.t ensures s.sh.builds[t] != f.b {
      assert BuildOK(s.sh, t) && BuildOK(s.sh, f.t);
    }
    FinishDisturbs(s.sh, f.t, f.b, f.phase.out, g);
  }

  /** Publishing a build of g disturbs nobody else. */
  lemma FinishDisturbs(sh: Shared, t: TypeId, b: BuildId, out: Outcome, g: Gid)
    requires t in sh.builds && sh.builds[t] == b && b < |sh.heap| && sh.heap[b].gid == g
    requires forall u: TypeId :: u in sh.builds && u != t ==> sh.builds[u] != b
    ensures forall h: Gid :: h != g ==> Undisturbed(sh, Finished(sh, t, b, out), h)
  {
  }

  lemma CloseGoroutine(sh: Shared, fs: seq<Frame>, g: Gid)
    requires GoroutineOK(sh, fs, g)
    requires fs != [] && fs[|fs| - 1].Building? && fs[|fs| - 1].phase.Published?
    ensures GoroutineOK(Closed(sh, fs[|fs| - 1].b), fs[..|fs| - 1], g)
  {
    var f := fs[|fs| - 1];
    var sh', fs' := Closed(sh, f.b), fs[..|fs| - 1];
    assert FrameOK(sh, fs, g, |fs| - 1);
    assert g !in sh.waiting;
    forall i: nat | i < |fs'| ensures FrameOK(sh', fs', g, i) {
      assert FrameOK(sh, fs, g, i);
    }
  }

  lemma CloseShared(s: System, s': System, b: BuildId, preset: map<TypeId, Value>)
    requires BuildsOK(s.sh) && CacheOK(s.sh, preset) && LogOK(s)
    requires b < |s.sh.heap| && s.sh.heap[b].result.Some?
    requires s'.sh == Closed(s.sh, b) && s'.log == s.log
    ensures BuildsOK(s'.sh) && CacheOK(s'.sh, preset) && LogOK(s')
  {
    forall u: TypeId ensures BuildOK(s'.sh, u) && Explained(s'.sh, preset, u) {
      assert BuildOK(s.sh, u) && Explained(s.sh, preset, u);
      if BuiltOnce(s.sh, u) {
        var c: BuildId :| Succeeded(s.sh, c) && s.sh.heap[c].t == u;
        assert Succeeded(s'.sh, c) && s'.sh.heap[c].t == u;
      }
    }
    forall c: BuildId ensures ResultOK(s'.sh, c) && Cached(s'.sh, preset, c) {
      assert ResultOK(s.sh, c) && Cached(s.sh, preset, c);
    }
    forall c: BuildId, d: BuildId ensures NotBoth(s'.sh, c, d) {
      assert NotBoth(s.sh, c, d);
    }
    forall i: nat ensures DeliveryOK(s', i) {
      assert DeliveryOK(s, i);
    }
  }

  lemma CloseOwners(s: System, s': System, g: Gid)
    requires OwnersOK(s) && Local(s, s', g)
    requires Frames(s, g) != [] && Frames(s, g)[|Frames(s, g)| - 1].Building?
    requires Frames(s', g) == Frames(s, g)[..|Frames(s, g)| - 1]
    requires s'.sh == Closed(s.sh, Frames(s, g)[|Frames(s, g)| - 1].b)
    ensures OwnersOK(s')
  {
    forall b: BuildId ensures Owned(s', b) {
      assert Owned(s, b);
      if b < |s'.sh.heap| && !s'.sh.heap[b].done && s.sh.heap[b].gid == g {
        var i: nat :| i < |Frames(s, g)| && Frames(s, g)[i].Building? && Frames(s, g)[i].b == b;
        assert Frames(s', g)[i].b == b;
      }
    }
  }

  lemma KeepCloseDone(s: System, g: Gid, preset: map<TypeId, Value>)
    requires Inv(s, preset) && Enabled(s, CloseDone(g))
    ensures Inv(Apply(s, CloseDone(g)), preset)
  {
    var f := Frames(s, g)[|Frames(s, g)| - 1];
    var s1 := Pop(s.(sh := Closed(s.sh, f.b)), g);
    assert At(s, g) && FrameOK(s.sh, Frames(s, g), g, |Frames(s, g)| - 1);
    KeepClosed(s, s1, g, preset);
    if f.phase.out.Ok? {
      assert Cached(s.sh, preset, f.b);
      KeepDelivery(s1, g, f.t, f.phase.out.value, preset);
    }
  }

  lemma KeepClosed(s: System, s1: System, g: Gid, preset: map<TypeId, Value>)
    requires Inv(s, preset) && Enabled(s, CloseDone(g))
    requires s1 == Pop(s.(sh := Closed(s.sh, Frames(s, g)[|Frames(s, g)| - 1].b)), g)
    ensures Inv(s1, preset)
  {
    assert At(s, g) && FrameOK(s.sh, Frames(s, g), g, |Frames(s, g)| - 1);
    CloseGoroutine(s.sh, Frames(s, g), g);
    KeepGoroutines(s, s1, g);
    CloseOwners(s, s1, g);
    CloseShared(s, s1, Frames(s, g)[|Frames(s, g)| - 1].b, preset);
    SameWaits(s, s1.sh);
  }

  lemma WakeGoroutine(sh: Shared, fs: seq<Frame>, g: Gid)
    requires GoroutineOK(sh, fs, g)
    requires fs != [] && fs[|fs| - 1].Awaiting?
    ensures GoroutineOK(Woken(sh, g), fs[..|fs| - 1], g)
  {
    var sh', fs' := Woken(sh, g), fs[..|fs| - 1];
    forall i: nat | i < |fs'| ensures FrameOK(sh', fs', g, i) {
      assert FrameOK(sh, fs, g, i);
    }
  }

  lemma KeepWake(s: System, g: Gid, preset: map<TypeId, Value>)
    requires Inv(s, preset) && Enabled(s, Wake(g))
    ensures Inv(Apply(s, Wake(g)), preset)
  {
    var fs := Frames(s, g);
    var f := fs[|fs| - 1];
    assert At(s, g) && FrameOK(s.sh, fs, g, |fs| - 1);
    WakeGoroutine(s.sh, fs, g);
    var s1 := Pop(s.(sh := Woken(s.sh, g)), g);
    KeepWoken(s, s1, g, preset);
    assert ResultOK(s.sh, f.b) && Cached(s.sh, preset, f.b);
    if s.sh.heap[f.b].result.value.Ok? {
      KeepDelivery(s1, g, f.t, s.sh.heap[f.b].result.value.value, preset);
    }
  }

  lemma KeepWoken(s: System, s1: System, g: Gid, preset: map<TypeId, Value>)
    requires Inv(s, preset) && Frames(s, g) != [] && Frames(s, g)[|Frames(s, g)| - 1].Awaiting?
    requires s1 == Pop(s.(sh := Woken(s.sh, g)), g)
    requires GoroutineOK(s1.sh, Frames(s1, g), g)
    ensures Inv(s1, preset)
  {
    KeepGoroutines(s, s1, g);
    KeepOwnersDrop(s, s1, g);
    KeepShared(s, s1, preset);
    RemoveEdge(Next(s.sh), g);
    assert Next(s1.sh) == Next(s.sh) - {g};
  }

  // ---------------------------------------------------------------------------
  // Every run
  // ---------------------------------------------------------------------------

  lemma KeepInv(s: System, a: Action, preset: map<TypeId, Value>)
    requires Inv(s, preset) && Enabled(s, a)
    ensures Inv(Apply(s, a), preset)
  {
    match a {
      case Resolve(g, t) => KeepResolve(s, g, t, preset);
      case Invoke(g, t) => KeepInvoke(s, g, t, preset);
      case Enter(g) => KeepEnter(s, g, preset);
      case Leave(g, out) =>
        if Frames(s, g)[|Frames(s, g)| - 1].forBuild {
          KeepLeaveBuild(s, g, out, preset);
        } else {
          KeepLeave(s, g, out, preset);
        }
      case Finish(g) => KeepFinish(s, g, preset);
      case CloseDone(g) => KeepCloseDone(s, g, preset);
      case Wake(g) => KeepWake(s, g, preset);
    }
  }

  /** The invariant holds in every state of every run. */
  lemma {:induction false} RunInv(run: seq<System>, acts: seq<Action>, i: nat)
    requires IsRun(run, acts) && i < |run|
    ensures Inv(run[i], run[0].sh.instances.m)
  {
    if i == 0 {
      InitialInv(run[0]);
    } else {
      RunInv(run, acts, i - 1);
      assert StepAt(run, acts, i - 1);
      KeepInv(run[i - 1], acts[i - 1], run[0].sh.instances.m);
    }
  }
}
