/**
  What the build protocol promises in every state of every run, for any number of
  goroutines and any behaviour of the constructors.
 */
module BuildTheorems {
  import opened Wrappers
  import opened Walks
  import opened OrderedMaps
  import opened BuildProtocol
  import opened BuildSafety

  // ---------------------------------------------------------------------------
  // Waiting
  // ---------------------------------------------------------------------------

  /** No goroutine ever waits, through any chain of builds, on itself. */
  lemma NeverWaitsOnItself(run: seq<System>, acts: seq<Action>, i: nat, g: Gid, k: nat)
    requires IsRun(run, acts) && i < |run| && k > 0
    ensures Walk(Next(run[i].sh), g, k) != Some(g)
  {
    RunInv(run, acts, i);
    AcyclicMeansNoCycle(Next(run[i].sh));
  }

  /** g is blocked on a build whose channel is still open. */
  ghost predicate Blocked(s: System, g: Gid) {
    var fs := Frames(s, g);
    fs != [] && fs[|fs| - 1].Awaiting? && !BuildOf(s.sh, fs[|fs| - 1].b).done
  }

  ghost predicate CanAct(s: System, g: Gid) {
    exists a: Action :: a.g == g && Enabled(s, a)
  }

  lemma UnblockedCanAct(s: System, g: Gid)
    requires !Blocked(s, g)
    ensures CanAct(s, g)
  {
    var fs := Frames(s, g);
    var a :=
      if fs == [] || fs[|fs| - 1].Constructing? then Resolve(g, 0)
      else if fs[|fs| - 1].Awaiting? then Wake(g)
      else match fs[|fs| - 1].phase
           case Started => Enter(g)
           case Returned(_) => Finish(g)
           case Published(_) => CloseDone(g);
    assert a.g == g && Enabled(s, a);
  }

  /** Following the waits from a blocked goroutine leads to a builder that can go on. */
  lemma {:induction false} FindRunner(
      s: System, preset: map<TypeId, Value>, g: Gid, n: nat)
    returns (h: Gid, b: BuildId)
    requires Inv(s, preset) && Blocked(s, g) && Walk(Next(s.sh), g, n) == None
    ensures b < |s.sh.heap| && !s.sh.heap[b].done && s.sh.heap[b].gid == h
    ensures !Blocked(s, h)
    decreases n
  {
    var fs := Frames(s, g);
    assert At(s, g) && FrameOK(s.sh, fs, g, |fs| - 1);
    b := fs[|fs| - 1].b;
    h := s.sh.heap[b].gid;
    if Blocked(s, h) {
      h, b := FindRunner(s, preset, h, n - 1);
    }
  }

  /** While anybody is blocked, some goroutine with an unfinished build can take a step. */
  lemma NoDeadlock(run: seq<System>, acts: seq<Action>, i: nat, g: Gid)
    requires IsRun(run, acts) && i < |run| && Blocked(run[i], g)
    ensures exists b: BuildId ::
      b < |run[i].sh.heap| && !run[i].sh.heap[b].done
      && Runs(Frames(run[i], run[i].sh.heap[b].gid), b) && CanAct(run[i], run[i].sh.heap[b].gid)
  {
    var s := run[i];
    RunInv(run, acts, i);
    assert Ends(Next(s.sh), g);
    var n: nat :| Walk(Next(s.sh), g, n) == None;
    var h, b := FindRunner(s, run[0].sh.instances.m, g, n);
    UnblockedCanAct(s, h);
    assert Owned(s, b);
  }

  // ---------------------------------------------------------------------------
  // One build, one instance
  // ---------------------------------------------------------------------------

  /** The goroutine g runs build b of t, which has no published result yet. */
  ghost predicate Underway(s: System, g: Gid, i: nat, t: TypeId, b: BuildId) {
    && i < |Frames(s, g)|
    && Frames(s, g)[i].Building? && Frames(s, g)[i].t == t && Frames(s, g)[i].b == b
    && !Frames(s, g)[i].phase.Published?
  }

  /** Two builds of one singleton are never under way at once. */
  lemma OneBuildAtATime(run: seq<System>, acts: seq<Action>, k: nat,
                        g: Gid, i: nat, b: BuildId, h: Gid, j: nat, c: BuildId, t: TypeId)
    requires IsRun(run, acts) && k < |run|
    requires Underway(run[k], g, i, t, b) && Underway(run[k], h, j, t, c)
    ensures g == h && i == j && b == c
  {
    var s := run[k];
    RunInv(run, acts, k);
    assert At(s, g) && At(s, h);
    assert FrameOK(s.sh, Frames(s, g), g, i) && FrameOK(s.sh, Frames(s, h), h, j);
  }

  /** A constructor that runs for a singleton build runs for the one build under way. */
  lemma ConstructorOnce(run: seq<System>, acts: seq<Action>, k: nat, g: Gid, i: nat, h: Gid, j: nat, t: TypeId)
    requires IsRun(run, acts) && k < |run|
    requires i < |Frames(run[k], g)| && Frames(run[k], g)[i] == Constructing(t, true)
    requires j < |Frames(run[k], h)| && Frames(run[k], h)[j] == Constructing(t, true)
    ensures g == h && i == j
  {
    var s := run[k];
    RunInv(run, acts, k);
    assert At(s, g) && At(s, h);
    assert FrameOK(s.sh, Frames(s, g), g, i) && FrameOK(s.sh, Frames(s, h), h, j);
    OneBuildAtATime(run, acts, k, g, i - 1, Frames(s, g)[i - 1].b, h, j - 1, Frames(s, h)[j - 1].b, t);
  }

  /** Build b is still on record in sh', with the result it had. */
  ghost predicate Kept(sh: Shared, sh': Shared, b: BuildId) {
    && b < |sh.heap| && b < |sh'.heap|
    && sh'.heap[b].t == sh.heap[b].t
    && (sh.heap[b].result.Some? ==> sh'.heap[b].result == sh.heap[b].result)
  }

  lemma StepKeepsHeap(s: System, a: Action, preset: map<TypeId, Value>, b: BuildId)
    requires Inv(s, preset) && Enabled(s, a) && b < |s.sh.heap|
    ensures Kept(s.sh, Apply(s, a).sh, b)
  {
    var fs := Frames(s, a.g);
    match a {
      case Finish(g) =>
        assert At(s, g) && FrameOK(s.sh, fs, g, |fs| - 1);
        FinishKeepsHeap(s, g, b);
      case CloseDone(g) =>
        assert At(s, g) && FrameOK(s.sh, fs, g, |fs| - 1);
        CloseKeepsHeap(s, g, b);
      case _ =>
        OtherKeepsHeap(s, a, b);
    }
  }

  lemma FinishKeepsHeap(s: System, g: Gid, b: BuildId)
    requires Enabled(s, Finish(g)) && b < |s.sh.heap|
    requires FrameOK(s.sh, Frames(s, g), g, |Frames(s, g)| - 1)
    ensures Kept(s.sh, Apply(s, Finish(g)).sh, b)
  {
  }

  lemma CloseKeepsHeap(s: System, g: Gid, b: BuildId)
    requires Enabled(s, CloseDone(g)) && b < |s.sh.heap|
    requires FrameOK(s.sh, Frames(s, g), g, |Frames(s, g)| - 1)
    ensures Kept(s.sh, Apply(s, CloseDone(g)).sh, b)
  {
  }

  lemma OtherKeepsHeap(s: System, a: Action, b: BuildId)
    requires Enabled(s, a) && !a.Finish? && !a.CloseDone? && b < |s.sh.heap|
    ensures Kept(s.sh, Apply(s, a).sh, b)
  {
  }

  /** A published result is never lost or changed. */
  lemma {:induction false} ResultsLast(run: seq<System>, acts: seq<Action>, i: nat, j: nat, b: BuildId)
    requires IsRun(run, acts) && i <= j < |run| && b < |run[i].sh.heap|
    ensures Kept(run[i].sh, run[j].sh, b)
    decreases j
  {
    if i < j {
      ResultsLast(run, acts, i, j - 1, b);
      RunInv(run, acts, j - 1);
      assert StepAt(run, acts, j - 1);
      StepKeepsHeap(run[j - 1], acts[j - 1], run[0].sh.instances.m, b);
    }
  }

  /** Over a whole run, at most one build of a singleton succeeds. */
  lemma OneSuccess(run: seq<System>, acts: seq<Action>, i: nat, b: BuildId, j: nat, c: BuildId)
    requires IsRun(run, acts) && i <= j < |run|
    requires Succeeded(run[i].sh, b) && Succeeded(run[j].sh, c)
    requires run[i].sh.heap[b].t == run[j].sh.heap[c].t
    ensures b == c && run[i].sh.heap[b].result == run[j].sh.heap[c].result
  {
    ResultsLast(run, acts, i, j, b);
    RunInv(run, acts, j);
    assert NotBoth(run[j].sh, b, c);
  }

  /** Everybody who is ever given an instance of t is given the same one. */
  lemma SameInstance(run: seq<System>, acts: seq<Action>, k: nat, i: nat, j: nat)
    requires IsRun(run, acts) && k < |run| && i < |run[k].log| && j < |run[k].log|
    requires run[k].log[i].t == run[k].log[j].t
    ensures run[k].log[i].v == run[k].log[j].v
  {
    RunInv(run, acts, k);
    assert DeliveryOK(run[k], i) && DeliveryOK(run[k], j);
  }

  /** A failed build leaves nothing cached: whoever asks next builds again. */
  lemma FailureNotCached(run: seq<System>, acts: seq<Action>, i: nat, g: Gid, t: TypeId, e: DIError, h: Gid)
    requires IsRun(run, acts) && i < |acts| && acts[i] == Finish(g)
    requires Enabled(run[i], Finish(g))
    requires Frames(run[i], g)[|Frames(run[i], g)| - 1].t == t
    requires Frames(run[i], g)[|Frames(run[i], g)| - 1].phase == Returned(Err(e))
    ensures run[i + 1].sh.instances == run[i].sh.instances
    ensures Decide(run[i + 1].sh, h, t).Start?
  {
    RunInv(run, acts, i);
    var fs := Frames(run[i], g);
    assert StepAt(run, acts, i);
    assert At(run[i], g) && FrameOK(run[i].sh, fs, g, |fs| - 1) && BuildOK(run[i].sh, t);
  }

  /** A successful build is cached, and everybody who asks from then on gets it. */
  lemma SuccessCached(run: seq<System>, acts: seq<Action>, i: nat, j: nat, b: BuildId, h: Gid)
    requires IsRun(run, acts) && i <= j < |run| && Succeeded(run[i].sh, b)
    ensures Decide(run[j].sh, h, run[i].sh.heap[b].t) == Hit(run[i].sh.heap[b].result.value.value)
  {
    ResultsLast(run, acts, i, j, b);
    RunInv(run, acts, j);
    assert Cached(run[j].sh, run[0].sh.instances.m, b);
  }

  // ---------------------------------------------------------------------------
  // Refusals
  // ---------------------------------------------------------------------------

  lemma {:induction false} OnStack(fs: seq<Frame>, i: nat)
    requires i < |fs| && fs[i].Constructing?
    ensures fs[i].t in Constructions(fs)
  {
    if i < |fs| - 1 {
      OnStack(fs[..|fs| - 1], i);
    }
  }

  /**
    A goroutine that asks for the singleton it is itself building is refused with the
    cycle on its own stack: the case where no cycle is found does not arise.
   */
  lemma OwnBuildNamesCycle(run: seq<System>, acts: seq<Action>, i: nat, g: Gid, t: TypeId)
    requires IsRun(run, acts) && i < |run| && Enabled(run[i], Resolve(g, t))
    requires t in run[i].sh.builds && BuildOf(run[i].sh, run[i].sh.builds[t]).gid == g
    ensures t in StackOf(run[i].sh, g)
    ensures Decide(run[i].sh, g, t) ==
      Refuse(Circular(StackOf(run[i].sh, g)[IndexOf(StackOf(run[i].sh, g), t)..] + [t]))
  {
    var s := run[i];
    RunInv(run, acts, i);
    var b := s.sh.builds[t];
    var fs := Frames(s, g);
    assert BuildOK(s.sh, t) && ResultOK(s.sh, b) && Owned(s, b);
    var k: nat :| k < |fs| && fs[k].Building? && fs[k].b == b;
    assert At(s, g) && FrameOK(s.sh, fs, g, k);
    OnStack(fs, k + 1);
  }

  /** The waits on builds whose channel is still open: the ones that really block. */
  ghost function OpenNext(sh: Shared): map<Gid, Gid> {
    map g | g in sh.waiting && !BuildOf(sh, sh.waiting[g]).done :: BuildOf(sh, sh.waiting[g]).gid
  }

  lemma {:induction false} OpenWalk(sh: Shared, g: Gid, n: nat)
    ensures Walk(OpenNext(sh), g, n).Some? ==> Walk(Next(sh), g, n) == Walk(OpenNext(sh), g, n)
    decreases n
  {
    if n > 0 && g in OpenNext(sh) {
      OpenWalk(sh, OpenNext(sh)[g], n - 1);
    }
  }

  /** No real deadlock goes unnoticed: whoever would close a circle of open waits is refused. */
  lemma DeadlockRefused(run: seq<System>, acts: seq<Action>, i: nat, g: Gid, t: TypeId)
    requires IsRun(run, acts) && i < |run|
    requires t !in run[i].sh.instances.m && t in run[i].sh.builds
    requires BuildOf(run[i].sh, run[i].sh.builds[t]).gid != g
    requires Reaches(OpenNext(run[i].sh), BuildOf(run[i].sh, run[i].sh.builds[t]).gid, g)
    ensures Decide(run[i].sh, g, t) == Refuse(WaitCycle(t))
  {
    var sh := run[i].sh;
    var owner := BuildOf(sh, sh.builds[t]).gid;
    var n: nat :| Walk(OpenNext(sh), owner, n) == Some(g);
    OpenWalk(sh, owner, n);
  }

  // A run in which a refusal is not a deadlock. Goroutine 2 builds type 20 and, from its
  // constructor, waits on type 10, which goroutine 1 builds. Goroutine 1 finishes and
  // then asks for type 20 before goroutine 2 has woken up.

  const ASKED := [Build(20, 2, None, false)]
  const BOTH := [Build(20, 2, None, false), Build(10, 1, None, false)]
  const OUTER := [Building(20, 0, Started), Constructing(20, true)]

  function Story(n: nat, v: Value): System
    requires n <= 8
  {
    match n
    case 0 => System(Shared(Empty(), map[], [], map[], map[]), map[], [])
    case 1 => System(Shared(Empty(), map[20 := 0], ASKED, map[], map[]), map[2 := [Building(20, 0, Started)]], [])
    case 2 => System(Shared(Empty(), map[20 := 0], ASKED, map[2 := [20]], map[]), map[2 := OUTER], [])
    case 3 => System(Shared(Empty(), map[20 := 0, 10 := 1], BOTH, map[2 := [20]], map[]),
                     map[2 := OUTER, 1 := [Building(10, 1, Started)]], [])
    case 4 => System(Shared(Empty(), map[20 := 0, 10 := 1], BOTH, map[2 := [20], 1 := [10]], map[]),
                     map[2 := OUTER, 1 := [Building(10, 1, Started), Constructing(10, true)]], [])
    case 5 => System(Shared(Empty(), map[20 := 0, 10 := 1], BOTH, map[2 := [20], 1 := [10]], map[2 := 1]),
                     map[2 := OUTER + [Awaiting(10, 1)], 1 := [Building(10, 1, Started), Constructing(10, true)]], [])
    case 6 => System(Shared(Empty(), map[20 := 0, 10 := 1], BOTH, map[2 := [20]], map[2 := 1]),
                     map[2 := OUTER + [Awaiting(10, 1)], 1 := [Building(10, 1, Returned(Ok(v)))]], [])
    case 7 => System(Shared(OMap(map[10 := v], [10]), map[20 := 0],
                            [Build(20, 2, None, false), Build(10, 1, Some(Ok(v)), false)], map[2 := [20]], map[2 := 1]),
                     map[2 := OUTER + [Awaiting(10, 1)], 1 := [Building(10, 1, Published(Ok(v)))]], [])
    case 8 => System(Shared(OMap(map[10 := v], [10]), map[20 := 0],
                            [Build(20, 2, None, false), Build(10, 1, Some(Ok(v)), true)], map[2 := [20]], map[2 := 1]),
                     map[2 := OUTER + [Awaiting(10, 1)], 1 := []], [Delivery(1, 10, v)])
  }

  function StoryAct(n: nat, v: Value): Action
    requires n < 8
  {
    match n
    case 0 => Resolve(2, 20)
    case 1 => Enter(2)
    case 2 => Resolve(1, 10)
    case 3 => Enter(1)
    case 4 => Resolve(2, 10)
    case 5 => Leave(1, Ok(v))
    case 6 => Finish(1)
    case 7 => CloseDone(1)
  }

  lemma NobodyWaits(g: Gid, h: Gid)
    requires g != h
    ensures !Reaches(map[], g, h)
  {
    forall n: nat ensures Walk(map[], g, n) != Some(h) {}
  }

  lemma StoryBegins(n: nat, v: Value)
    requires n < 4
    ensures Enabled(Story(n, v), StoryAct(n, v))
    ensures Apply(Story(n, v), StoryAct(n, v)) == Story(n + 1, v)
  {
    var s := Story(n, v);
    assert Frames(s, 2) + [] == Frames(s, 2) && [] + [20] == [20] && [] + [10] == [10];
    if n == 0 {
      assert [] + ASKED == ASKED;
      assert [] + [Building(20, 0, Started)] == [Building(20, 0, Started)];
    } else if n == 1 {
      assert [Building(20, 0, Started)] + [Constructing(20, true)] == OUTER;
    } else if n == 2 {
      assert ASKED + [Build(10, 1, None, false)] == BOTH;
      assert [] + [Building(10, 1, Started)] == [Building(10, 1, Started)];
    } else {
      assert [Building(10, 1, Started)] + [Constructing(10, true)] ==
        [Building(10, 1, Started), Constructing(10, true)];
    }
  }

  lemma StoryWaits(v: Value)
    ensures Apply(Story(4, v), StoryAct(4, v)) == Story(5, v)
  {
    var s := Story(4, v);
    assert Next(s.sh) == map[];
    NobodyWaits(1, 2);
    assert Decide(s.sh, 2, 10) == Wait(1);
  }

  lemma StoryReturns(v: Value)
    ensures Apply(Story(5, v), StoryAct(5, v)) == Story(6, v)
  {
    var s := Story(5, v);
    assert Frames(s, 1)[..1] == [Building(10, 1, Started)];
    assert [Building(10, 1, Started)][0 := Building(10, 1, Returned(Ok(v)))] == [Building(10, 1, Returned(Ok(v)))];
    assert map[2 := [20], 1 := [10]] - {1} == map[2 := [20]];
  }

  lemma StoryFinishes(v: Value)
    ensures Enabled(Story(6, v), StoryAct(6, v))
    ensures Apply(Story(6, v), StoryAct(6, v)) == Story(7, v)
  {
    assert Empty<TypeId, Value>().Set(10, v) == OMap(map[10 := v], [10]);
    assert map[20 := 0, 10 := 1] - {10} == map[20 := 0];
    assert BOTH[1 := Build(10, 1, Some(Ok(v)), false)] == [Build(20, 2, None, false), Build(10, 1, Some(Ok(v)), false)];
    assert [Building(10, 1, Returned(Ok(v)))][0 := Building(10, 1, Published(Ok(v)))] ==
      [Building(10, 1, Published(Ok(v)))];
  }

  lemma StoryCloses(v: Value)
    ensures Enabled(Story(7, v), StoryAct(7, v))
    ensures Apply(Story(7, v), StoryAct(7, v)) == Story(8, v)
  {
    assert Story(7, v).sh.heap[1 := Build(10, 1, Some(Ok(v)), true)] == Story(8, v).sh.heap;
    assert [Building(10, 1, Published(Ok(v)))][..0] == [];
  }

  /**
    A refusal need not be a deadlock: here goroutine 1 is refused although nobody is
    blocked on anything it still has to do.
   */
  lemma RefusedWithoutDeadlock(v: Value) returns (run: seq<System>, acts: seq<Action>)
    ensures IsRun(run, acts)
    ensures var s := run[|run| - 1];
      && Enabled(s, Resolve(1, 20)) && Decide(s.sh, 1, 20) == Refuse(WaitCycle(20))
      && BuildOf(s.sh, s.sh.builds[20]).gid == 2
      && 2 in s.sh.waiting && BuildOf(s.sh, s.sh.waiting[2]).done && !Blocked(s, 2)
      && !Reaches(OpenNext(s.sh), BuildOf(s.sh, s.sh.builds[20]).gid, 1)
  {
    run := seq(9, i requires 0 <= i < 9 => Story(i, v));
    acts := seq(8, i requires 0 <= i < 8 => StoryAct(i, v));
    forall i: nat | i < |acts| ensures StepAt(run, acts, i) {
      if i < 4 {
        StoryBegins(i, v);
      } else if i == 4 {
        StoryWaits(v);
      } else if i == 5 {
        StoryReturns(v);
      } else if i == 6 {
        StoryFinishes(v);
      } else {
        StoryCloses(v);
      }
    }
    var s := Story(8, v);
    assert Walk(Next(s.sh), 2, 1) == Some(1);
    assert OpenNext(s.sh) == map[];
    NobodyWaits(2, 1);
  }
}
