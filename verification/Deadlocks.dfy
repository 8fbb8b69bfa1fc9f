/**
  When a wait that the container refuses as a deadlock would have been one: what the
  goroutines could still do if the wait were recorded instead.
 */
module Deadlocks {
  import opened Wrappers
  import opened Walks
  import opened BuildProtocol
  import opened BuildSafety
  import opened BuildTheorems

  // ---------------------------------------------------------------------------
  // Going on from a state
  // ---------------------------------------------------------------------------

  ghost predicate TakesAt(ss: seq<System>, acts: seq<Action>, i: nat) {
    i < |acts| && i + 1 < |ss| && Enabled(ss[i], acts[i]) && ss[i + 1] == Apply(ss[i], acts[i])
  }

  /** ss is what some interleaving goes through from s on. */
  ghost predicate Continues(s: System, ss: seq<System>, acts: seq<Action>) {
    |ss| == |acts| + 1 && ss[0] == s && forall i :: 0 <= i < |acts| ==> TakesAt(ss, acts, i)
  }

  /** Some interleaving leads from s to s'. */
  ghost predicate LeadsTo(s: System, s': System) {
    exists ss: seq<System>, acts: seq<Action> :: Continues(s, ss, acts) && ss[|acts|] == s'
  }

  lemma LeadsSelf(s: System)
    ensures LeadsTo(s, s)
  {
    var acts: seq<Action> := [];
    assert Continues(s, [s], acts) && [s][|acts|] == s;
  }

  lemma LeadsStep(s: System, s1: System, a: Action)
    requires LeadsTo(s, s1) && Enabled(s1, a)
    ensures LeadsTo(s, Apply(s1, a))
  {
    var ss: seq<System>, acts: seq<Action> :| Continues(s, ss, acts) && ss[|acts|] == s1;
    var ss', acts' := ss + [Apply(s1, a)], acts + [a];
    forall i | 0 <= i < |acts'|
      ensures TakesAt(ss', acts', i)
    {
      if i < |acts| {
        assert TakesAt(ss, acts, i);
      }
    }
    assert Continues(s, ss', acts') && ss'[|acts'|] == Apply(s1, a);
  }

  /** In every state that s can lead to, h is where it was in s. */
  ghost predicate NeverMoves(s: System, h: Gid) {
    forall s' :: LeadsTo(s, s') ==> Frames(s', h) == Frames(s, h)
  }

  // ---------------------------------------------------------------------------
  // A circle of open waits
  // ---------------------------------------------------------------------------

  /** A goroutine's builds carry its id. */
  ghost predicate OwnsAt(s: System, x: Gid, i: nat) {
    i < |Frames(s, x)| && Frames(s, x)[i].Building? ==>
      Frames(s, x)[i].b < |s.sh.heap| && s.sh.heap[Frames(s, x)[i].b].gid == x
  }

  ghost predicate OwnBuilds(s: System) {
    forall x: Gid, i: nat :: OwnsAt(s, x, i)
  }

  /** h waits on an open build of a goroutine of c. */
  ghost predicate Held(s: System, c: set<Gid>, h: Gid) {
    var fs := Frames(s, h);
    && fs != [] && fs[|fs| - 1].Awaiting?
    && fs[|fs| - 1].b < |s.sh.heap|
    && !s.sh.heap[fs[|fs| - 1].b].done && s.sh.heap[fs[|fs| - 1].b].gid in c
  }

  ghost predicate AllHeld(s: System, c: set<Gid>) {
    forall h :: h in c ==> Held(s, c, h)
  }

  /** The heap keeps its builds and whose they are; a step of x closes only builds of x. */
  ghost predicate HeapKept(s: System, s': System, x: Gid) {
    && |s.sh.heap| <= |s'.sh.heap|
    && forall b: nat :: b < |s.sh.heap| ==>
         && s'.sh.heap[b].gid == s.sh.heap[b].gid
         && (s.sh.heap[b].done ==> s'.sh.heap[b].done)
         && (s'.sh.heap[b].done && !s.sh.heap[b].done ==> s.sh.heap[b].gid == x)
  }

  lemma StepKeepsOthers(s: System, a: Action)
    requires OwnBuilds(s) && Enabled(s, a)
    ensures forall x :: x != a.g ==> Frames(Apply(s, a), x) == Frames(s, x)
    ensures HeapKept(s, Apply(s, a), a.g)
  {
    var fs := Frames(s, a.g);
    if fs != [] {
      assert OwnsAt(s, a.g, |fs| - 1);
    }
  }

  lemma StepKeepsOwn(s: System, a: Action)
    requires OwnBuilds(s) && Enabled(s, a)
    ensures OwnBuilds(Apply(s, a))
  {
    StepKeepsOthers(s, a);
    var s' := Apply(s, a);
    forall x: Gid, i: nat
      ensures OwnsAt(s', x, i)
    {
      assert OwnsAt(s, x, i);
      if x == a.g && i < |Frames(s', x)| && Frames(s', x)[i].Building? {
        FramesAfter(s, a, i);
      }
    }
  }

  /** A frame after a step of its goroutine is one it had, at its place, or a build it has just started. */
  lemma FramesAfter(s: System, a: Action, i: nat)
    requires Enabled(s, a) && i < |Frames(Apply(s, a), a.g)| && Frames(Apply(s, a), a.g)[i].Building?
    ensures var f := Frames(Apply(s, a), a.g)[i];
      || (i < |Frames(s, a.g)| && Frames(s, a.g)[i].Building? && Frames(s, a.g)[i].b == f.b)
      || (f.b == |s.sh.heap| && f.b < |Apply(s, a).sh.heap| && Apply(s, a).sh.heap[f.b].gid == a.g)
  {
  }

  lemma StepKeepsHeld(s: System, c: set<Gid>, a: Action)
    requires OwnBuilds(s) && AllHeld(s, c) && Enabled(s, a)
    ensures a.g !in c && AllHeld(Apply(s, a), c)
    ensures forall h :: h in c ==> Frames(Apply(s, a), h) == Frames(s, h)
  {
    assert a.g in c ==> Held(s, c, a.g);
    StepKeepsOthers(s, a);
    forall h | h in c
      ensures Held(Apply(s, a), c, h)
    {
      assert Held(s, c, h);
    }
  }

  /** Nobody in a circle of open waits ever moves again. */
  lemma {:induction false} HeldForEver(s: System, c: set<Gid>, ss: seq<System>, acts: seq<Action>, k: nat)
    requires OwnBuilds(s) && AllHeld(s, c) && Continues(s, ss, acts) && k <= |acts|
    ensures OwnBuilds(ss[k]) && AllHeld(ss[k], c)
    ensures forall h :: h in c ==> Frames(ss[k], h) == Frames(s, h)
  {
    if k > 0 {
      HeldForEver(s, c, ss, acts, k - 1);
      assert TakesAt(ss, acts, k - 1);
      StepKeepsOwn(ss[k - 1], acts[k - 1]);
      StepKeepsHeld(ss[k - 1], c, acts[k - 1]);
    }
  }

  lemma HeldNeverMove(s: System, c: set<Gid>, h: Gid)
    requires OwnBuilds(s) && AllHeld(s, c) && h in c
    ensures NeverMoves(s, h)
  {
    forall s' | LeadsTo(s, s')
      ensures Frames(s', h) == Frames(s, h)
    {
      var ss: seq<System>, acts: seq<Action> :| Continues(s, ss, acts) && ss[|acts|] == s';
      HeldForEver(s, c, ss, acts, |acts|);
    }
  }

  // ---------------------------------------------------------------------------
  // Getting out of a circle that is not closed
  // ---------------------------------------------------------------------------

  lemma {:induction false} LeadsFurther(s: System, s1: System, ss: seq<System>, acts: seq<Action>, k: nat)
    requires LeadsTo(s, s1) && Continues(s1, ss, acts) && k <= |acts|
    ensures LeadsTo(s, ss[k])
  {
    if k > 0 {
      LeadsFurther(s, s1, ss, acts, k - 1);
      assert TakesAt(ss, acts, k - 1);
      LeadsStep(s, ss[k - 1], acts[k - 1]);
    }
  }

  lemma LeadsTrans(s: System, s1: System, s2: System)
    requires LeadsTo(s, s1) && LeadsTo(s1, s2)
    ensures LeadsTo(s, s2)
  {
    var ss: seq<System>, acts: seq<Action> :| Continues(s1, ss, acts) && ss[|acts|] == s2;
    LeadsFurther(s, s1, ss, acts, |acts|);
  }

  /** Only h has moved from s to s', and closed builds stay closed. */
  ghost predicate OnlyMoved(s: System, s': System, h: Gid) {
    && (forall x :: x != h ==> Frames(s', x) == Frames(s, x))
    && |s.sh.heap| <= |s'.sh.heap|
    && (forall b: nat :: b < |s.sh.heap| && s.sh.heap[b].done ==> s'.sh.heap[b].done)
  }

  /** h waits on nothing, and its builds exist. */
  ghost predicate Running(s: System, h: Gid) {
    forall i: nat :: i < |Frames(s, h)| ==> RunningAt(s, Frames(s, h)[i])
  }

  ghost predicate RunningAt(s: System, f: Frame) {
    !f.Awaiting? && (f.Building? ==> f.b < |s.sh.heap|)
  }

  function Rank(f: Frame): nat {
    if !f.Building? then 0
    else match f.phase
         case Started => 3
         case Returned(_) => 2
         case Published(_) => 1
  }

  /** What h does next on its way out: it leaves the constructor on top or takes the build on top one phase further. */
  ghost function WayOut(f: Frame, h: Gid): Action {
    if !f.Building? then Leave(h, Err(CtorFailed(f.t)))
    else match f.phase
         case Started => Enter(h)
         case Returned(_) => Finish(h)
         case Published(_) => CloseDone(h)
  }

  /** One step out: builds on the stack stay on it until they are closed. */
  ghost predicate StepsOut(s: System, s1: System, h: Gid) {
    && OnlyMoved(s, s1, h) && Running(s1, h)
    && (forall b: BuildId :: Runs(Frames(s, h), b) ==>
      Runs(Frames(s1, h), b) || (b < |s1.sh.heap| && s1.sh.heap[b].done))
  }

  lemma RunsAt(fs: seq<Frame>, b: BuildId, i: nat)
    requires i < |fs| && fs[i].Building? && fs[i].b == b
    ensures Runs(fs, b)
  {
  }

  lemma LeaveOut(s: System, h: Gid)
    requires Frames(s, h) != [] && Frames(s, h)[|Frames(s, h)| - 1].Constructing? && Running(s, h)
    ensures var f := Frames(s, h)[|Frames(s, h)| - 1];
      var s1 := Apply(s, WayOut(f, h));
      Enabled(s, WayOut(f, h)) && StepsOut(s, s1, h) && |Frames(s1, h)| == |Frames(s, h)| - 1
  {
    var fs := Frames(s, h);
    var s1 := Apply(s, WayOut(fs[|fs| - 1], h));
    var fs1 := Frames(s1, h);
    forall i: nat | i < |fs1|
      ensures RunningAt(s1, fs1[i]) && (fs[i].Building? ==> fs1[i].Building? && fs1[i].b == fs[i].b)
    {
      assert RunningAt(s, fs[i]);
    }
    forall b: BuildId | Runs(fs, b)
      ensures Runs(fs1, b)
    {
      var i: nat :| i < |fs| && fs[i].Building? && fs[i].b == b;
      RunsAt(fs1, b, i);
    }
  }

  lemma FinishOut(s: System, h: Gid)
    requires Frames(s, h) != [] && Frames(s, h)[|Frames(s, h)| - 1].Building? && Running(s, h)
    requires Frames(s, h)[|Frames(s, h)| - 1].phase.Returned?
    ensures var f := Frames(s, h)[|Frames(s, h)| - 1];
      var s1 := Apply(s, WayOut(f, h));
      Enabled(s, WayOut(f, h)) && StepsOut(s, s1, h) && |Frames(s1, h)| == |Frames(s, h)| &&
        Rank(Frames(s1, h)[|Frames(s, h)| - 1]) == 1
  {
    var fs := Frames(s, h);
    assert RunningAt(s, fs[|fs| - 1]);
    var s1 := Apply(s, WayOut(fs[|fs| - 1], h));
    SameBuilds(s, s1, h);
  }

  ghost predicate SameKind(f: Frame, f1: Frame) {
    f1.Building? == f.Building? && f1.Awaiting? == f.Awaiting? && (f.Building? ==> f1.b == f.b)
  }

  /** Frames that differ in the phases of builds only. */
  lemma SameBuilds(s: System, s1: System, h: Gid)
    requires Running(s, h) && |s.sh.heap| <= |s1.sh.heap| && |Frames(s1, h)| == |Frames(s, h)|
    requires forall i: nat :: i < |Frames(s, h)| ==> SameKind(Frames(s, h)[i], Frames(s1, h)[i])
    ensures Running(s1, h) && forall b: BuildId :: Runs(Frames(s, h), b) ==> Runs(Frames(s1, h), b)
  {
    var fs, fs1 := Frames(s, h), Frames(s1, h);
    forall i: nat | i < |fs1|
      ensures RunningAt(s1, fs1[i])
    {
      assert RunningAt(s, fs[i]);
    }
    forall b: BuildId | Runs(fs, b)
      ensures Runs(fs1, b)
    {
      var i: nat :| i < |fs| && fs[i].Building? && fs[i].b == b;
      RunsAt(fs1, b, i);
    }
  }

  lemma CloseOut(s: System, h: Gid)
    requires Frames(s, h) != [] && Frames(s, h)[|Frames(s, h)| - 1].Building? && Running(s, h)
    requires Frames(s, h)[|Frames(s, h)| - 1].phase.Published?
    ensures var f := Frames(s, h)[|Frames(s, h)| - 1];
      var s1 := Apply(s, WayOut(f, h));
      Enabled(s, WayOut(f, h)) && StepsOut(s, s1, h) && |Frames(s1, h)| == |Frames(s, h)| - 1
  {
    var fs := Frames(s, h);
    var top := fs[|fs| - 1];
    assert RunningAt(s, top);
    var s1 := Apply(s, WayOut(top, h));
    var fs1 := Frames(s1, h);
    assert fs1 == fs[..|fs| - 1];
    forall i: nat | i < |fs1|
      ensures RunningAt(s1, fs1[i])
    {
      assert RunningAt(s, fs[i]);
    }
    forall b: BuildId | Runs(fs, b)
      ensures Runs(fs1, b) || (b < |s1.sh.heap| && s1.sh.heap[b].done)
    {
      var i: nat :| i < |fs| && fs[i].Building? && fs[i].b == b;
      if i < |fs1| {
        RunsAt(fs1, b, i);
      }
    }
  }

  /** Entering the constructor of the build on top, or being refused it, and then leaving it. */
  lemma EnterOut(s: System, h: Gid)
    requires Frames(s, h) != [] && Frames(s, h)[|Frames(s, h)| - 1].Building? && Running(s, h)
    requires Frames(s, h)[|Frames(s, h)| - 1].phase.Started?
    ensures var fs := Frames(s, h);
      var s1 := Apply(s, WayOut(fs[|fs| - 1], h));
      && Enabled(s, WayOut(fs[|fs| - 1], h)) && StepsOut(s, s1, h)
      && (if |Frames(s1, h)| == |fs| then Rank(Frames(s1, h)[|fs| - 1]) == 2
          else Frames(s1, h) == fs + [Constructing(fs[|fs| - 1].t, true)])
  {
    var fs := Frames(s, h);
    var s1 := Apply(s, WayOut(fs[|fs| - 1], h));
    if EnterError(s.sh, h, fs[|fs| - 1].t).Some? {
      SameBuilds(s, s1, h);
    } else {
      forall i: nat | i < |Frames(s1, h)|
        ensures RunningAt(s1, Frames(s1, h)[i])
      {
        assert i < |fs| ==> RunningAt(s, fs[i]);
      }
      forall b: BuildId | Runs(fs, b)
        ensures Runs(Frames(s1, h), b)
      {
        var i: nat :| i < |fs| && fs[i].Building? && fs[i].b == b;
        RunsAt(Frames(s1, h), b, i);
      }
    }
  }

  lemma OutTrans(s: System, s1: System, s2: System, h: Gid)
    requires StepsOut(s, s1, h) && StepsOut(s1, s2, h)
    ensures StepsOut(s, s2, h)
  {
  }

  /** A goroutine that waits on nothing can come to the end of all it is doing, closing its builds. */
  lemma {:induction false} ComesOut(s: System, h: Gid) returns (s': System)
    requires Running(s, h)
    ensures LeadsTo(s, s') && StepsOut(s, s', h) && Frames(s', h) == []
    decreases |Frames(s, h)|, if Frames(s, h) == [] then 0 else Rank(Frames(s, h)[|Frames(s, h)| - 1])
  {
    var fs := Frames(s, h);
    LeadsSelf(s);
    if fs == [] {
      s' := s;
      return;
    }
    var f := fs[|fs| - 1];
    var a := WayOut(f, h);
    assert RunningAt(s, f);
    var s1 := s;
    if f.Constructing? {
      LeaveOut(s, h);
    } else if f.phase.Started? {
      EnterOut(s, h);
    } else if f.phase.Returned? {
      FinishOut(s, h);
    } else {
      CloseOut(s, h);
    }
    LeadsStep(s, s, a);
    s1 := Apply(s, a);
    if |Frames(s1, h)| > |fs| {
      LeaveOut(s1, h);
      LeaveForBuild(s1, h, fs);
      var b := WayOut(Constructing(f.t, true), h);
      LeadsStep(s, s1, b);
      OutTrans(s, s1, Apply(s1, b), h);
      s1 := Apply(s1, b);
    }
    s' := ComesOut(s1, h);
    LeadsTrans(s, s1, s');
    OutTrans(s, s1, s', h);
  }

  lemma LeaveForBuild(s: System, h: Gid, fs: seq<Frame>)
    requires fs != [] && fs[|fs| - 1].Building? && Frames(s, h) == fs + [Constructing(fs[|fs| - 1].t, true)]
    ensures var s1 := Apply(s, WayOut(Constructing(fs[|fs| - 1].t, true), h));
      |Frames(s1, h)| == |fs| && Rank(Frames(s1, h)[|fs| - 1]) == 2
  {
  }

  /** h waits on build b, and on nothing further down. */
  ghost predicate Waits(s: System, h: Gid, b: BuildId) {
    var fs := Frames(s, h);
    && fs != [] && fs[|fs| - 1].Awaiting? && fs[|fs| - 1].b == b && b < |s.sh.heap|
    && (forall i: nat :: i < |fs| - 1 ==> RunningAt(s, fs[i]))
  }

  /** h waits on a build that is closed, or that w runs. */
  ghost predicate WaitsFor(s: System, h: Gid, w: Gid) {
    exists b: BuildId :: Waits(s, h, b) && (s.sh.heap[b].done || Runs(Frames(s, w), b))
  }

  ghost predicate CanWake(s: System, h: Gid) {
    exists b: BuildId :: Waits(s, h, b) && s.sh.heap[b].done
  }

  /** A goroutine that can wake can come to the end of all it is doing. */
  lemma WakesUp(s: System, h: Gid) returns (s': System)
    requires CanWake(s, h)
    ensures LeadsTo(s, s') && OnlyMoved(s, s', h) && Frames(s', h) == []
    ensures forall b: BuildId :: Runs(Frames(s, h), b) ==> b < |s'.sh.heap| && s'.sh.heap[b].done
  {
    var fs := Frames(s, h);
    var b: BuildId :| Waits(s, h, b) && s.sh.heap[b].done;
    var s1 := Apply(s, Wake(h));
    LeadsSelf(s);
    LeadsStep(s, s, Wake(h));
    WakeApplies(s, h);
    forall i: nat | i < |Frames(s1, h)|
      ensures RunningAt(s1, Frames(s1, h)[i])
    {
      assert RunningAt(s, fs[i]);
    }
    s' := ComesOut(s1, h);
    LeadsTrans(s, s1, s');
    forall c: BuildId | Runs(fs, c)
      ensures c < |s'.sh.heap| && s'.sh.heap[c].done
    {
      var i: nat :| i < |fs| && fs[i].Building? && fs[i].b == c;
      RunsAt(Frames(s1, h), c, i);
    }
  }

  lemma WakeApplies(s: System, h: Gid)
    requires CanWake(s, h)
    ensures Enabled(s, Wake(h))
    ensures var s1 := Apply(s, Wake(h));
      s1.sh.heap == s.sh.heap && OnlyMoved(s, s1, h) && Frames(s1, h) == Frames(s, h)[..|Frames(s, h)| - 1]
  {
  }

  ghost predicate AllApart(hs: seq<Gid>) {
    forall i, j :: 0 <= i < j < |hs| ==> hs[i] != hs[j]
  }

  ghost predicate Chained(s: System, hs: seq<Gid>, k: nat) {
    k + 1 < |hs| ==> WaitsFor(s, hs[k + 1], hs[k])
  }

  lemma StillWaits(s: System, s': System, h: Gid, x: Gid, b: BuildId)
    requires OnlyMoved(s, s', x) && x != h && Waits(s, h, b)
    ensures Waits(s', h, b)
  {
    forall i: nat | i < |Frames(s, h)| - 1
      ensures RunningAt(s', Frames(s', h)[i])
    {
      assert RunningAt(s, Frames(s, h)[i]);
    }
  }

  /** Where the first of a chain of waiters can wake, the last one can get to move. */
  lemma {:induction false} ChainMoves(s: System, hs: seq<Gid>)
    requires hs != [] && AllApart(hs) && CanWake(s, hs[0])
    requires forall k: nat :: Chained(s, hs, k)
    ensures !NeverMoves(s, hs[|hs| - 1])
    decreases |hs|
  {
    var h := hs[0];
    var s' := WakesUp(s, h);
    if |hs| == 1 {
      assert Frames(s', h) != Frames(s, h);
    } else {
      var rest := hs[1..];
      assert Chained(s, hs, 0);
      var b: BuildId :| Waits(s, hs[1], b) && (s.sh.heap[b].done || Runs(Frames(s, h), b));
      StillWaits(s, s', hs[1], h, b);
      forall k: nat
        ensures Chained(s', rest, k)
      {
        if k + 1 < |rest| {
          assert Chained(s, hs, k + 1) && hs[k + 2] == rest[k + 1] && hs[k + 1] == rest[k];
          var c: BuildId :| Waits(s, rest[k + 1], c) && (s.sh.heap[c].done || Runs(Frames(s, rest[k]), c));
          StillWaits(s, s', rest[k + 1], h, c);
        }
      }
      ChainMoves(s', rest);
      MovesEarlier(s, s', rest[|rest| - 1]);
    }
  }

  lemma MovesEarlier(s: System, s': System, g: Gid)
    requires LeadsTo(s, s') && Frames(s', g) == Frames(s, g) && !NeverMoves(s', g)
    ensures !NeverMoves(s, g)
  {
    var q :| LeadsTo(s', q) && Frames(q, g) != Frames(s', g);
    LeadsTrans(s, s', q);
  }

  // ---------------------------------------------------------------------------
  // The refused wait
  // ---------------------------------------------------------------------------

  /** The state in which g's wait for t is recorded instead of refused. */
  ghost function Waiting(s: System, g: Gid, t: TypeId): System
    requires t in s.sh.builds
  {
    var b := s.sh.builds[t];
    Push(s.(sh := s.sh.(waiting := s.sh.waiting[g := b])), g, Awaiting(t, b))
  }

  /** Every wait recorded from owner on is for a build whose channel is open. */
  ghost predicate AllOpen(sh: Shared, owner: Gid) {
    forall h: Gid :: h in sh.waiting && Reaches(Next(sh), owner, h) ==> !BuildOf(sh, sh.waiting[h]).done
  }

  /** The recorded waits lead from owner to g in n steps, and end there. */
  ghost predicate Circle(s: System, g: Gid, t: TypeId, owner: Gid, n: nat) {
    && t in s.sh.builds && s.sh.builds[t] < |s.sh.heap| && s.sh.heap[s.sh.builds[t]].gid == owner
    && !s.sh.heap[s.sh.builds[t]].done
    && g !in s.sh.waiting && Walk(Next(s.sh), owner, n) == Some(g) && n > 0
  }

  lemma RefusedCircle(s: System, preset: map<TypeId, Value>, g: Gid, t: TypeId) returns (n: nat)
    requires Inv(s, preset) && Enabled(s, Resolve(g, t)) && Decide(s.sh, g, t) == Refuse(WaitCycle(t))
    ensures t in s.sh.builds && Circle(s, g, t, BuildOf(s.sh, s.sh.builds[t]).gid, n)
  {
    var owner := BuildOf(s.sh, s.sh.builds[t]).gid;
    assert BuildOK(s.sh, t) && ResultOK(s.sh, s.sh.builds[t]) && At(s, g);
    n :| Walk(Next(s.sh), owner, n) == Some(g);
    assert owner != g;
  }

  /** Nothing is reached from owner beyond g. */
  lemma CircleEnds(s: System, g: Gid, t: TypeId, owner: Gid, n: nat, m: nat)
    requires Circle(s, g, t, owner, n) && Walk(Next(s.sh), owner, m).Some?
    ensures m <= n
  {
    if m > n {
      WalkAdd(Next(s.sh), owner, n, m - n);
    }
  }

  lemma OwnBuildsHold(s: System, preset: map<TypeId, Value>, g: Gid, t: TypeId)
    requires Inv(s, preset) && t in s.sh.builds
    ensures OwnBuilds(Waiting(s, g, t))
  {
    var w := Waiting(s, g, t);
    forall x: Gid, i: nat
      ensures OwnsAt(w, x, i)
    {
      assert At(s, x);
      if i < |Frames(s, x)| {
        assert FrameOK(s.sh, Frames(s, x), x, i);
      }
    }
  }

  /** A goroutine whose wait is recorded has that wait on top. */
  lemma RecordedWait(s: System, preset: map<TypeId, Value>, h: Gid)
    requires Inv(s, preset) && h in s.sh.waiting
    ensures var b := s.sh.waiting[h];
      && Waits(s, h, b) && Next(s.sh)[h] == s.sh.heap[b].gid
      && (!s.sh.heap[b].done ==> Runs(Frames(s, s.sh.heap[b].gid), b))
  {
    var fs := Frames(s, h);
    assert At(s, h) && Owned(s, s.sh.waiting[h]);
    forall i: nat | i < |fs| - 1
      ensures RunningAt(s, fs[i])
    {
      assert FrameOK(s.sh, fs, h, i);
    }
  }

  lemma SameWait(s: System, g: Gid, t: TypeId, h: Gid, b: BuildId)
    requires t in s.sh.builds && h != g && Waits(s, h, b)
    ensures Waits(Waiting(s, g, t), h, b)
  {
    forall i: nat | i < |Frames(s, h)| - 1
      ensures RunningAt(Waiting(s, g, t), Frames(s, h)[i])
    {
      assert RunningAt(s, Frames(s, h)[i]);
    }
  }

  /** The wait that was refused, once it is recorded. */
  lemma NewWait(s: System, preset: map<TypeId, Value>, g: Gid, t: TypeId, owner: Gid, n: nat)
    requires Inv(s, preset) && Enabled(s, Resolve(g, t)) && Circle(s, g, t, owner, n)
    ensures Waits(Waiting(s, g, t), g, s.sh.builds[t]) && Runs(Frames(s, owner), s.sh.builds[t])
  {
    var w, fs := Waiting(s, g, t), Frames(s, g);
    assert Owned(s, s.sh.builds[t]) && At(s, g);
    forall i: nat | i < |fs|
      ensures RunningAt(w, fs[i])
    {
      assert FrameOK(s.sh, fs, g, i);
    }
  }

  /** With every wait open, the circle is closed and nobody on it ever moves. */
  lemma ClosedCircle(s: System, preset: map<TypeId, Value>, g: Gid, t: TypeId, owner: Gid, n: nat, h: Gid)
    requires Inv(s, preset) && Enabled(s, Resolve(g, t)) && Circle(s, g, t, owner, n)
    requires AllOpen(s.sh, owner) && Reaches(Next(s.sh), owner, h)
    ensures NeverMoves(Waiting(s, g, t), h)
  {
    var w, next := Waiting(s, g, t), Next(s.sh);
    forall i: nat | i < n + 1
      ensures Walk(next, owner, i).Some?
    {
      WalkPrefix(next, owner, i, n);
    }
    var c := Nodes(next, owner, n + 1);
    NewWait(s, preset, g, t, owner, n);
    assert Walk(next, owner, 0) == Some(owner);
    forall x | x in c
      ensures Held(w, c, x)
    {
      var i: nat :| i < n + 1 && Walk(next, owner, i).value == x;
      if x != g {
        OnCircle(s, preset, g, t, owner, n, i);
      }
    }
    OwnBuildsHold(s, preset, g, t);
    var m: nat :| Walk(next, owner, m) == Some(h);
    CircleEnds(s, g, t, owner, n, m);
    HeldNeverMove(w, c, h);
  }

  /** The i-th goroutine on the circle, before g, waits on a build of the one after it. */
  lemma OnCircle(s: System, preset: map<TypeId, Value>, g: Gid, t: TypeId, owner: Gid, n: nat, i: nat)
    requires Inv(s, preset) && Circle(s, g, t, owner, n)
    requires i <= n && Walk(Next(s.sh), owner, i).Some? && Walk(Next(s.sh), owner, i).value != g
    ensures i < n && Walk(Next(s.sh), owner, i + 1).Some?
    ensures var x := Walk(Next(s.sh), owner, i).value;
      && x in s.sh.waiting && Waits(Waiting(s, g, t), x, s.sh.waiting[x])
      && s.sh.heap[s.sh.waiting[x]].gid == Walk(Next(s.sh), owner, i + 1).value
      && (!s.sh.heap[s.sh.waiting[x]].done ==> Runs(Frames(s, Walk(Next(s.sh), owner, i + 1).value), s.sh.waiting[x]))
  {
    var next := Next(s.sh);
    var x := Walk(next, owner, i).value;
    WalkPrefix(next, owner, i + 1, n);
    WalkAdd(next, owner, i, 1);
    assert Walk(next, x, 1).Some? && x in next;
    assert Walk(next, x, 1) == Walk(next, next[x], 0);
    RecordedWait(s, preset, x);
    SameWait(s, g, t, x, s.sh.waiting[x]);
  }

  /** The goroutines on the circle from the j-th back to the builder, and then g. */
  ghost function Back(next: map<Gid, Gid>, owner: Gid, j: nat, g: Gid): seq<Gid> {
    seq(j + 2, k requires 0 <= k < j + 2 =>
      if k == j + 1 then g else if Walk(next, owner, j - k).Some? then Walk(next, owner, j - k).value else g)
  }

  /** The waits come to g only at their end. */
  lemma NotYet(s: System, g: Gid, t: TypeId, owner: Gid, n: nat, i: nat)
    requires Circle(s, g, t, owner, n) && i < n
    ensures Walk(Next(s.sh), owner, i).Some? && Walk(Next(s.sh), owner, i).value != g
  {
    var next := Next(s.sh);
    WalkPrefix(next, owner, i, n);
    WalkPrefix(next, owner, i + 1, n);
    WalkAdd(next, owner, i, 1);
    assert Walk(next, Walk(next, owner, i).value, 1).Some?;
  }

  /** With one wait over, g can come to be woken. */
  lemma OpenCircle(s: System, preset: map<TypeId, Value>, g: Gid, t: TypeId, owner: Gid, n: nat, j: nat)
    requires Inv(s, preset) && Enabled(s, Resolve(g, t)) && Circle(s, g, t, owner, n)
    requires j < n && Walk(Next(s.sh), owner, j).Some? && Walk(Next(s.sh), owner, j).value in s.sh.waiting
    requires BuildOf(s.sh, s.sh.waiting[Walk(Next(s.sh), owner, j).value]).done
    ensures !NeverMoves(Waiting(s, g, t), g)
  {
    var w, next := Waiting(s, g, t), Next(s.sh);
    var hs := Back(next, owner, j, g);
    forall i: nat | i <= j
      ensures Walk(next, owner, i).Some? && Walk(next, owner, i).value != g
    {
      NotYet(s, g, t, owner, n, i);
    }
    BackApart(s, preset, owner, j, g);
    OnCircle(s, preset, g, t, owner, n, j);
    assert CanWake(w, hs[0]);
    NewWait(s, preset, g, t, owner, n);
    forall k: nat
      ensures Chained(w, hs, k)
    {
      if k + 1 == j + 1 {
        assert hs[k] == owner && hs[k + 1] == g && owner != g;
        assert WaitsFor(w, g, owner);
      } else if k + 1 < j + 1 {
        OnCircle(s, preset, g, t, owner, n, j - k - 1);
        assert hs[k + 1] == Walk(next, owner, j - k - 1).value && hs[k] == Walk(next, owner, j - k).value;
        assert WaitsFor(w, hs[k + 1], hs[k]);
      }
    }
    ChainMoves(w, hs);
  }

  lemma BackApart(s: System, preset: map<TypeId, Value>, owner: Gid, j: nat, g: Gid)
    requires Inv(s, preset)
    requires forall i: nat :: i <= j ==> Walk(Next(s.sh), owner, i).Some? && Walk(Next(s.sh), owner, i).value != g
    ensures AllApart(Back(Next(s.sh), owner, j, g))
  {
    var next := Next(s.sh);
    var hs := Back(next, owner, j, g);
    AcyclicMeansNoCycle(next);
    forall a, b | 0 <= a < b < |hs|
      ensures hs[a] != hs[b]
    {
      if b < j + 1 {
        WalkAdd(next, owner, j - b, b - a);
      }
    }
  }

  /**
    Where the container refuses a wait as a deadlock, let it be recorded instead. Then the
    caller would wait for ever, whatever anyone does, if and only if no build that is
    waited on, from the builder on along the recorded waits, is closed; and that is also
    exactly when everyone on the way would.
   */
  lemma RefusalIsGenuine(run: seq<System>, acts: seq<Action>, i: nat, g: Gid, t: TypeId)
    requires IsRun(run, acts) && i < |run| && Enabled(run[i], Resolve(g, t))
    requires Decide(run[i].sh, g, t) == Refuse(WaitCycle(t))
    ensures t in run[i].sh.builds
    ensures var s, owner := run[i], BuildOf(run[i].sh, run[i].sh.builds[t]).gid;
      && (NeverMoves(Waiting(s, g, t), g) <==> AllOpen(s.sh, owner))
      && ((forall h: Gid :: Reaches(Next(s.sh), owner, h) ==> NeverMoves(Waiting(s, g, t), h)) <==>
        AllOpen(s.sh, owner))
  {
    var s := run[i];
    var preset := run[0].sh.instances.m;
    RunInv(run, acts, i);
    var n := RefusedCircle(s, preset, g, t);
    var owner := BuildOf(s.sh, s.sh.builds[t]).gid;
    assert Reaches(Next(s.sh), owner, g);
    if AllOpen(s.sh, owner) {
      forall h: Gid | Reaches(Next(s.sh), owner, h)
        ensures NeverMoves(Waiting(s, g, t), h)
      {
        ClosedCircle(s, preset, g, t, owner, n, h);
      }
    } else {
      var h: Gid :| h in s.sh.waiting && Reaches(Next(s.sh), owner, h) && BuildOf(s.sh, s.sh.waiting[h]).done;
      var j: nat :| Walk(Next(s.sh), owner, j) == Some(h);
      CircleEnds(s, g, t, owner, n, j);
      OpenCircle(s, preset, g, t, owner, n, j);
    }
  }

  /** A run whose last state refuses a wait in which goroutine 1 would not have been stuck. */
  lemma RefusedYetFree(v: Value) returns (run: seq<System>, acts: seq<Action>)
    ensures IsRun(run, acts)
    ensures var s := run[|run| - 1];
      && Enabled(s, Resolve(1, 20)) && Decide(s.sh, 1, 20) == Refuse(WaitCycle(20))
      && 20 in s.sh.builds && !NeverMoves(Waiting(s, 1, 20), 1)
  {
    run, acts := RefusedWithoutDeadlock(v);
    var sh := run[|run| - 1].sh;
    RefusalIsGenuine(run, acts, |run| - 1, 1, 20);
    assert Walk(Next(sh), 2, 0) == Some(2);
    assert !AllOpen(sh, 2);
  }
}
