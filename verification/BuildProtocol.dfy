/**
  How goroutines build and share singletons. Every step below is one region of the
  container that runs with its mutex held, or the closing of a finished build's
  channel; constructors and Inits run between the steps, and may resolve anything.
  The functions up to Woken are the effects of the regions on the shared fields; the
  methods of ServiceContainer are proved against them.
 */
module BuildProtocol {
  import opened Wrappers
  import opened Walks
  import opened OrderedMaps

  type Gid = Node
  type TypeId = nat
  type Value = nat
  type BuildId = nat

  /** How many constructors one goroutine may nest. */
  const MAX_RESOLVE_DEPTH := 256

  datatype DIError =
    | Circular(cycle: seq<TypeId>)
    | WaitCycle(t: TypeId)
    | TooDeep(t: TypeId)
    | NotRegistered(asked: TypeId, target: TypeId)
    | ScopeRequired(t: TypeId)
    | InvalidLifetime(t: TypeId)
    | NoConstructor(t: TypeId)
    | Captive(t: TypeId, dep: TypeId)
    | CtorFailed(t: TypeId)
    | InitFailed(t: TypeId)

  datatype Outcome = Ok(value: Value) | Err(error: DIError)

  /** A singleton under construction. done is true once its channel is closed. */
  datatype Build = Build(t: TypeId, gid: Gid, result: Option<Outcome>, done: bool)

  /** The fields of the container that its mutex guards. A build is named by its index in heap. */
  datatype Shared = Shared(
    instances: OMap<TypeId, Value>,
    builds: map<TypeId, BuildId>,
    heap: seq<Build>,
    stacks: map<Gid, seq<TypeId>>,
    waiting: map<Gid, BuildId>)

  function BuildOf(sh: Shared, b: BuildId): Build {
    if b < |sh.heap| then sh.heap[b] else Build(0, 0, None, false)
  }

  function StackOf(sh: Shared, g: Gid): seq<TypeId> {
    if g in sh.stacks then sh.stacks[g] else []
  }

  /** The recorded waits-for graph. */
  function Next(sh: Shared): map<Gid, Gid> {
    map g | g in sh.waiting :: BuildOf(sh, sh.waiting[g]).gid
  }

  /** The path from t's position on the stack back to t. */
  function CycleIn(stack: seq<TypeId>, t: TypeId): Option<seq<TypeId>> {
    if t in stack then Some(stack[IndexOf(stack, t)..] + [t]) else None
  }

  datatype Decision = Hit(v: Value) | Refuse(e: DIError) | Wait(b: BuildId) | Start(b: BuildId)

  ghost function Decide(sh: Shared, g: Gid, t: TypeId): Decision {
    if t in sh.instances.m then Hit(sh.instances.m[t])
    else if t in sh.builds then
      var b := sh.builds[t];
      var owner := BuildOf(sh, b).gid;
      if owner == g then
        match CycleIn(StackOf(sh, g), t)
        case Some(path) => Refuse(Circular(path))
        case None => Refuse(Circular([t]))
      else if Reaches(Next(sh), owner, g) then Refuse(WaitCycle(t))
      else Wait(b)
    else Start(|sh.heap|)
  }

  ghost function Decided(sh: Shared, g: Gid, t: TypeId): Shared {
    match Decide(sh, g, t)
    case Hit(_) => sh
    case Refuse(_) => sh
    case Wait(b) => sh.(waiting := sh.waiting[g := b])
    case Start(b) => sh.(builds := sh.builds[t := b], heap := sh.heap + [Build(t, g, None, false)])
  }

  function EnterError(sh: Shared, g: Gid, t: TypeId): Option<DIError> {
    match CycleIn(StackOf(sh, g), t)
    case Some(path) => Some(Circular(path))
    case None => if |StackOf(sh, g)| >= MAX_RESOLVE_DEPTH then Some(TooDeep(t)) else None
  }

  function Entered(sh: Shared, g: Gid, t: TypeId): Shared {
    if EnterError(sh, g, t).Some? then sh
    else sh.(stacks := sh.stacks[g := StackOf(sh, g) + [t]])
  }

  function Left(sh: Shared, g: Gid): Shared {
    var stack := StackOf(sh, g);
    if |stack| <= 1 then sh.(stacks := sh.stacks - {g})
    else sh.(stacks := sh.stacks[g := stack[..|stack| - 1]])
  }

  function Finished(sh: Shared, t: TypeId, b: BuildId, out: Outcome): Shared {
    sh.(instances := if out.Ok? then sh.instances.Set(t, out.value) else sh.instances,
        builds := sh.builds - {t},
        heap := if b < |sh.heap| then sh.heap[b := sh.heap[b].(result := Some(out))] else sh.heap)
  }

  function Closed(sh: Shared, b: BuildId): Shared {
    sh.(heap := if b < |sh.heap| then sh.heap[b := sh.heap[b].(done := true)] else sh.heap)
  }

  function Woken(sh: Shared, g: Gid): Shared {
    sh.(waiting := sh.waiting - {g})
  }

  // ---------------------------------------------------------------------------
  // Goroutines
  // ---------------------------------------------------------------------------

  /** How far the goroutine that runs a build has come with it. */
  datatype Phase = Started | Returned(out: Outcome) | Published(out: Outcome)

  /**
    What a goroutine is in the middle of. forBuild tells a constructor that runs for a
    singleton build from one that runs for a scoped or transient service.
   */
  datatype Frame =
    | Building(t: TypeId, b: BuildId, phase: Phase)
    | Constructing(t: TypeId, forBuild: bool)
    | Awaiting(t: TypeId, b: BuildId)

  /** A caller, or a constructor on the goroutine g, got v for the singleton t. */
  datatype Delivery = Delivery(g: Gid, t: TypeId, v: Value)

  datatype System = System(sh: Shared, ctl: map<Gid, seq<Frame>>, log: seq<Delivery>)

  function Frames(s: System, g: Gid): seq<Frame> {
    if g in s.ctl then s.ctl[g] else []
  }

  function Push(s: System, g: Gid, f: Frame): System {
    s.(ctl := s.ctl[g := Frames(s, g) + [f]])
  }

  function Pop(s: System, g: Gid): System
    requires Frames(s, g) != []
  {
    s.(ctl := s.ctl[g := Frames(s, g)[..|Frames(s, g)| - 1]])
  }

  function ReplaceTop(s: System, g: Gid, f: Frame): System
    requires Frames(s, g) != []
  {
    s.(ctl := s.ctl[g := Frames(s, g)[|Frames(s, g)| - 1 := f]])
  }

  function Deliver(s: System, g: Gid, t: TypeId, out: Outcome): System {
    if out.Ok? then s.(log := s.log + [Delivery(g, t, out.value)]) else s
  }

  datatype Action =
    | Resolve(g: Gid, t: TypeId)
    | Invoke(g: Gid, t: TypeId)
    | Enter(g: Gid)
    | Leave(g: Gid, out: Outcome)
    | Finish(g: Gid)
    | CloseDone(g: Gid)
    | Wake(g: Gid)

  ghost predicate Enabled(s: System, a: Action) {
    var fs := Frames(s, a.g);
    match a
    case Resolve(_, _) => fs == [] || fs[|fs| - 1].Constructing?
    case Invoke(_, _) => fs == [] || fs[|fs| - 1].Constructing?
    case Enter(_) => fs != [] && fs[|fs| - 1].Building? && fs[|fs| - 1].phase.Started?
    case Leave(_, _) => fs != [] && fs[|fs| - 1].Constructing?
    case Finish(_) => fs != [] && fs[|fs| - 1].Building? && fs[|fs| - 1].phase.Returned?
    case CloseDone(_) => fs != [] && fs[|fs| - 1].Building? && fs[|fs| - 1].phase.Published?
    case Wake(_) => fs != [] && fs[|fs| - 1].Awaiting? && BuildOf(s.sh, fs[|fs| - 1].b).done
  }

  ghost function Apply(s: System, a: Action): System
    requires Enabled(s, a)
  {
    var fs := Frames(s, a.g);
    match a
    case Resolve(g, t) =>
      var s1 := s.(sh := Decided(s.sh, g, t));
      (match Decide(s.sh, g, t)
       case Hit(v) => Deliver(s1, g, t, Ok(v))
       case Refuse(_) => s1
       case Wait(b) => Push(s1, g, Awaiting(t, b))
       case Start(b) => Push(s1, g, Building(t, b, Started)))
    case Invoke(g, t) =>
      var s1 := s.(sh := Entered(s.sh, g, t));
      if EnterError(s.sh, g, t).Some? then s1 else Push(s1, g, Constructing(t, false))
    case Enter(g) =>
      var f := fs[|fs| - 1];
      var s1 := s.(sh := Entered(s.sh, g, f.t));
      (match EnterError(s.sh, g, f.t)
       case Some(e) => ReplaceTop(s1, g, f.(phase := Returned(Err(e))))
       case None => Push(s1, g, Constructing(f.t, true)))
    case Leave(g, out) =>
      var s1 := Pop(s.(sh := Left(s.sh, g)), g);
      var rest := Frames(s1, g);
      if fs[|fs| - 1].forBuild && rest != [] && rest[|rest| - 1].Building?
      then ReplaceTop(s1, g, rest[|rest| - 1].(phase := Returned(out)))
      else s1
    case Finish(g) =>
      var f := fs[|fs| - 1];
      ReplaceTop(s.(sh := Finished(s.sh, f.t, f.b, f.phase.out)), g, f.(phase := Published(f.phase.out)))
    case CloseDone(g) =>
      var f := fs[|fs| - 1];
      Deliver(Pop(s.(sh := Closed(s.sh, f.b)), g), g, f.t, f.phase.out)
    case Wake(g) =>
      var f := fs[|fs| - 1];
      var s1 := Pop(s.(sh := Woken(s.sh, g)), g);
      (match BuildOf(s.sh, f.b).result
       case Some(out) => Deliver(s1, g, f.t, out)
       case None => s1)
  }

  /** Nothing is running and nothing has been built; instances may be pre-registered. */
  ghost predicate Initial(s: System) {
    && s.sh.instances.Valid()
    && s.sh.builds == map[] && s.sh.heap == [] && s.sh.stacks == map[] && s.sh.waiting == map[]
    && s.ctl == map[] && s.log == []
  }

  ghost predicate StepAt(run: seq<System>, acts: seq<Action>, i: nat)
    requires i < |acts| && |run| == |acts| + 1
  {
    Enabled(run[i], acts[i]) && run[i + 1] == Apply(run[i], acts[i])
  }

  /** run is the sequence of states some interleaving of the goroutines goes through. */
  ghost predicate IsRun(run: seq<System>, acts: seq<Action>) {
    && |run| == |acts| + 1
    && Initial(run[0])
    && (forall i: nat :: i < |acts| ==> StepAt(run, acts, i))
  }

  // ---------------------------------------------------------------------------
  // The invariant
  // ---------------------------------------------------------------------------

  function Constructions(fs: seq<Frame>): seq<TypeId> {
    if fs == [] then []
    else
      var f := fs[|fs| - 1];
      Constructions(fs[..|fs| - 1]) + if f.Constructing? then [f.t] else []
  }

  ghost predicate NoDups(ts: seq<TypeId>) {
    forall i, j :: 0 <= i < j < |ts| ==> ts[i] != ts[j]
  }

  ghost predicate InFlight(sh: Shared, g: Gid, t: TypeId, b: BuildId) {
    && b < |sh.heap| && sh.heap[b] == Build(t, g, None, false)
    && t in sh.builds && sh.builds[t] == b
  }

  /** What the i-th thing goroutine g is in the middle of says about the shared fields. */
  ghost predicate FrameOK(sh: Shared, fs: seq<Frame>, g: Gid, i: nat)
    requires i < |fs|
  {
    match fs[i]
    case Building(t, b, Started) =>
      && InFlight(sh, g, t, b)
      && (i + 1 < |fs| ==> fs[i + 1] == Constructing(t, true))
    case Building(t, b, Returned(_)) =>
      InFlight(sh, g, t, b) && i + 1 == |fs|
    case Building(t, b, Published(out)) =>
      && b < |sh.heap| && sh.heap[b] == Build(t, g, Some(out), false)
      && i + 1 == |fs|
    case Constructing(t, forBuild) =>
      forBuild ==> i > 0 && fs[i - 1].Building? && fs[i - 1].t == t && fs[i - 1].phase.Started?
    case Awaiting(t, b) =>
      && i + 1 == |fs|
      && b < |sh.heap| && sh.heap[b].t == t
      && g in sh.waiting && sh.waiting[g] == b
  }

  /** What holds of one goroutine, given what it is in the middle of. */
  ghost predicate GoroutineOK(sh: Shared, fs: seq<Frame>, g: Gid) {
    && (forall i: nat :: i < |fs| ==> FrameOK(sh, fs, g, i))
    && (forall i: nat, j: nat :: i < j < |fs| && fs[i].Building? && fs[j].Building? ==> fs[i].b != fs[j].b)
    && StackOf(sh, g) == Constructions(fs)
    && NoDups(StackOf(sh, g))
    && |StackOf(sh, g)| <= MAX_RESOLVE_DEPTH
    && (g in sh.waiting ==>
          && sh.waiting[g] < |sh.heap|
          && fs != []
          && fs[|fs| - 1] == Awaiting(sh.heap[sh.waiting[g]].t, sh.waiting[g]))
  }

  ghost predicate At(s: System, g: Gid) {
    GoroutineOK(s.sh, Frames(s, g), g)
  }

  ghost predicate AllOK(s: System) {
    forall g: Gid :: At(s, g)
  }

  ghost predicate Runs(fs: seq<Frame>, b: BuildId) {
    exists i: nat :: i < |fs| && fs[i].Building? && fs[i].b == b
  }

  ghost predicate Owned(s: System, b: BuildId) {
    b < |s.sh.heap| && !s.sh.heap[b].done ==> Runs(Frames(s, s.sh.heap[b].gid), b)
  }

  /** Every build not yet closed is run by its goroutine. */
  ghost predicate OwnersOK(s: System) {
    forall b: BuildId :: Owned(s, b)
  }

  ghost predicate BuildOK(sh: Shared, t: TypeId) {
    t in sh.builds ==>
      && sh.builds[t] < |sh.heap|
      && sh.heap[sh.builds[t]].t == t && sh.heap[sh.builds[t]].result.None?
      && t !in sh.instances.m
  }

  ghost predicate ResultOK(sh: Shared, b: BuildId) {
    b < |sh.heap| && sh.heap[b].done ==> sh.heap[b].result.Some?
  }

  ghost predicate BuildsOK(sh: Shared) {
    && (forall t: TypeId :: BuildOK(sh, t))
    && (forall b: BuildId :: ResultOK(sh, b))
  }

  ghost predicate Succeeded(sh: Shared, b: BuildId) {
    b < |sh.heap| && sh.heap[b].result.Some? && sh.heap[b].result.value.Ok?
  }

  /** What build b built is what is cached. */
  ghost predicate Cached(sh: Shared, preset: map<TypeId, Value>, b: BuildId) {
    Succeeded(sh, b) ==>
      && sh.heap[b].t !in preset
      && sh.heap[b].t in sh.instances.m && sh.instances.m[sh.heap[b].t] == sh.heap[b].result.value.value
  }

  ghost predicate NotBoth(sh: Shared, b: BuildId, c: BuildId) {
    Succeeded(sh, b) && Succeeded(sh, c) && sh.heap[b].t == sh.heap[c].t ==> b == c
  }

  ghost predicate BuiltOnce(sh: Shared, t: TypeId) {
    exists b: BuildId :: Succeeded(sh, b) && sh.heap[b].t == t
  }

  /** Whatever is cached was pre-registered or built. */
  ghost predicate Explained(sh: Shared, preset: map<TypeId, Value>, t: TypeId) {
    && (t in preset ==> t in sh.instances.m && sh.instances.m[t] == preset[t])
    && (t in sh.instances.m && t !in preset ==> BuiltOnce(sh, t))
  }

  ghost predicate CacheOK(sh: Shared, preset: map<TypeId, Value>) {
    && sh.instances.Valid()
    && (forall b: BuildId :: Cached(sh, preset, b))
    && (forall b: BuildId, c: BuildId :: NotBoth(sh, b, c))
    && (forall t: TypeId :: Explained(sh, preset, t))
  }

  ghost predicate DeliveryOK(s: System, i: nat) {
    i < |s.log| ==> s.log[i].t in s.sh.instances.m && s.sh.instances.m[s.log[i].t] == s.log[i].v
  }

  /** Whoever was ever given an instance was given the cached one. */
  ghost predicate LogOK(s: System) {
    forall i: nat :: DeliveryOK(s, i)
  }

  ghost predicate Inv(s: System, preset: map<TypeId, Value>) {
    && AllOK(s) && OwnersOK(s) && BuildsOK(s.sh) && CacheOK(s.sh, preset) && LogOK(s)
    && Acyclic(Next(s.sh))
  }
}
