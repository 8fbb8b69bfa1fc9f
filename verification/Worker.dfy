/**
  The worker: it starts what the container builds, and opens and closes services at run
  time. Each method but InitServices and Shutdown is one region under the mutex, or the
  Close of one service outside it.
 */
module Worker {
  import opened Wrappers
  import opened OrderedMaps
  import opened Lifecycle
  import opened BuildProtocol
  import opened ContainerSpec
  import BuildPlan
  import Initialized
  import Container

  ghost function Inits(q: seq<Service>): seq<Event> {
    seq(|q|, i requires 0 <= i < |q| => Inited(q[i]))
  }

  function Reverse(q: seq<Service>): seq<Service> {
    seq(|q|, i requires 0 <= i < |q| => q[|q| - 1 - i])
  }

  /** The distinct services among the instances at keys, in order. */
  function Services(s: ContainerSpec.State, keys: seq<TypeId>): seq<Service> {
    if keys == [] then []
    else
      var t := keys[|keys| - 1];
      var rest := Services(s, keys[..|keys| - 1]);
      if s.Has(t) && s.Insts().m[t] in s.services && s.Insts().m[t] !in rest then rest + [s.Insts().m[t]] else rest
  }

  /** When everything runs, what the container would report as initialized is every service. */
  lemma {:induction false} ServicesListed(s: ContainerSpec.State, keys: seq<TypeId>)
    requires forall t: TypeId :: BuildPlan.Running(s, t)
    requires forall t: TypeId :: Origin(s, t)
    ensures Services(s, keys) == BuildPlan.Listed(s, keys)
  {
    if keys != [] {
      ServicesListed(s, keys[..|keys| - 1]);
      var t := keys[|keys| - 1];
      assert BuildPlan.Running(s, t) && Origin(s, t);
    }
  }

  /** When everything runs, the services are those whose Init has succeeded. */
  lemma {:induction false} ServicesMarked(s: ContainerSpec.State, keys: seq<TypeId>)
    requires forall t: TypeId :: BuildPlan.Running(s, t)
    ensures forall v :: v in Services(s, keys) <==> v in Marked(s, keys)
  {
    if keys != [] {
      ServicesMarked(s, keys[..|keys| - 1]);
      assert BuildPlan.Running(s, keys[|keys| - 1]);
    }
  }

  /**
    How InitServices leaves the worker when the Inits of inited succeeded: all are tracked
    and up, each once, or all are closed again in reverse.
   */
  ghost predicate StartLeft(e: Option<DIError>, inited: seq<Service>, w: Lifecycle.State) {
    if e.None? then w.log == Inits(inited) && w.order == inited && Up(w)
    else w.log == Inits(inited) + Closes(Reverse(inited)) && w.active == {} && w.order == []
  }

  class Worker {
    const container: Container.ServiceContainer

    var activeServices: set<Service>
    var serviceOrder: seq<Service>
    var shutDown: bool

    // What a failing Start and Shutdown have taken and are still to close.
    var aborting: seq<Service>
    var stopping: seq<Service>

    // The Inits and Closes that the services have seen.
    ghost var log: seq<Event>

    ghost function W(): Lifecycle.State
      reads this
    {
      Lifecycle.State.State(activeServices, serviceOrder, shutDown, aborting, stopping, log)
    }

    constructor (container: Container.ServiceContainer)
      ensures this.container == container && W() == Lifecycle.State.State({}, [], false, [], [], [])
    {
      this.container := container;
      activeServices, serviceOrder, shutDown, aborting, stopping, log := {}, [], false, [], [], [];
    }

    // -------------------------------------------------------------------------
    // Starting
    // -------------------------------------------------------------------------

    /**
      Builds everything and tracks the services, or closes in reverse what had been
      initialized before the failure.
     */
    method InitServices(g: Gid) returns (e: Option<DIError>)
      requires W() == Lifecycle.State.State({}, [], false, [], [], [])
      requires Basics(container.S()) && Alone(container.S(), g, {})
      requires StackOf(container.Sh(), g) == [] && container.builds == map[]
      requires BuildPlan.FirstStart(container.S())
      modifies this, container
      ensures e.None? <==> BuildPlan.Buildable(old(container.S()))
      ensures Basics(container.S()) && Tracked(container.S()) && MadeOnce(container.S())
      ensures BuildPlan.StartedFrom(old(container.S()), container.S())
      ensures e.None? ==> serviceOrder == Services(container.S(), container.instances.keys)
      ensures e.None? ==> Ready(W()) && (Up(W()) <==> OneType(old(container.S())))
      ensures StartLeft(e, container.S().initLog, W()) <==> Initialized.StartsClean(old(container.S()))
    {
      ghost var s0 := container.S();
      e := container.BuildAll(g);
      ghost var s := container.S();
      log := Inits(s.initLog);
      if e.Some? {
        CloseInitialized();
      } else {
        Track();
      }
      StartConcludes(e, s0, s, W());
    }

    method CloseInitialized()
      requires container.instances.Valid()
      modifies this`log
      ensures log == old(log) + Closes(Reverse(BuildPlan.Listed(container.S(), container.instances.keys)))
    {
      var built := container.InitializedServices();
      CloseServices(Reverse(built));
    }

    /** Tracks each service among the instances once, in instance order. */
    method Track()
      requires activeServices == {} && serviceOrder == [] && container.instances.Valid()
      modifies this`activeServices, this`serviceOrder
      ensures serviceOrder == Services(container.S(), container.instances.keys)
      ensures Distinct(serviceOrder) && forall s :: s in activeServices <==> s in serviceOrder
    {
      var keys := container.instances.keys;
      for i := 0 to |keys|
        invariant serviceOrder == Services(container.S(), keys[..i])
        invariant Distinct(serviceOrder) && forall s :: s in activeServices <==> s in serviceOrder
      {
        assert keys[..i + 1][..i] == keys[..i];
        var v := container.instances.m[keys[i]];
        if v in container.services && v !in activeServices {
          activeServices := activeServices + {v};
          serviceOrder := serviceOrder + [v];
        }
      }
      assert keys[..|keys|] == keys;
    }

    method CloseServices(services: seq<Service>)
      modifies this`log
      ensures log == old(log) + Closes(services)
    {
      for i := 0 to |services|
        invariant log == old(log) + Closes(services[..i])
      {
        assert Closes(services[..i + 1]) == Closes(services[..i]) + [Closed(services[i])];
        log := log + [Closed(services[i])];
      }
      assert services[..|services|] == services;
    }

    // -------------------------------------------------------------------------
    // The kill switch
    // -------------------------------------------------------------------------

    method CloseService(s: Service) returns (ok: bool)
      modifies this`activeServices, this`log
      ensures W() == Closing(old(W()), s)
      ensures ok <==> !shutDown && s in old(activeServices)
      ensures ok ==> activeServices == old(activeServices) - {s} && log == old(log) + [Closed(s)]
      ensures !ok ==> W() == old(W())
    {
      if shutDown || s !in activeServices {
        return false;
      }
      log := log + [Closed(s)];
      activeServices := activeServices - {s};
      ok := true;
    }

    method RestartService(s: Service, works: bool) returns (ok: bool)
      modifies this`activeServices, this`log
      ensures W() == Restarting(old(W()), s, works)
      ensures ok <==> !shutDown && s !in old(activeServices) && s in serviceOrder && works
      ensures ok ==> activeServices == old(activeServices) + {s} && log == old(log) + [Inited(s)]
      ensures !ok ==> W() == old(W())
    {
      if shutDown || s in activeServices {
        return false;
      }
      var found := false;
      for i := 0 to |serviceOrder|
        invariant found <==> s in serviceOrder[..i]
      {
        if serviceOrder[i] == s {
          found := true;
          break;
        }
      }
      if !found || !works {
        return false;
      }
      log := log + [Inited(s)];
      activeServices := activeServices + {s};
      ok := true;
    }

    // -------------------------------------------------------------------------
    // Shutting down
    // -------------------------------------------------------------------------

    /** Takes the active services, newest first, leaving none active that was started. */
    method CloseActive(stop: bool)
      modifies this`activeServices, this`aborting, this`stopping
      ensures W() == Taken(old(W()), stop)
    {
      var closing := TakeActive();
      if stop {
        stopping := stopping + closing;
      } else {
        aborting := aborting + closing;
      }
    }

    method TakeActive() returns (closing: seq<Service>)
      modifies this`activeServices
      ensures closing == Newest(serviceOrder, old(activeServices))
      ensures activeServices == old(activeServices) - set s | s in closing
    {
      closing := [];
      var i := |serviceOrder|;
      assert serviceOrder[..i] == serviceOrder;
      while i > 0
        invariant 0 <= i <= |serviceOrder|
        invariant activeServices == old(activeServices) - set s | s in closing
        invariant closing + Newest(serviceOrder[..i], activeServices) == Newest(serviceOrder, old(activeServices))
      {
        i := i - 1;
        NewestStep(serviceOrder, i, activeServices);
        if serviceOrder[i] in activeServices {
          TakeOne(old(activeServices), activeServices, closing, serviceOrder[i],
                  Newest(serviceOrder[..i], activeServices - {serviceOrder[i]}));
          closing := closing + [serviceOrder[i]];
          activeServices := activeServices - {serviceOrder[i]};
        }
      }
    }

    method CloseNext(stop: bool)
      modifies this`aborting, this`stopping, this`log
      ensures W() == ClosedNext(old(W()), stop)
    {
      if stop && stopping != [] {
        log := log + [Closed(stopping[0])];
        stopping := stopping[1..];
      } else if !stop && aborting != [] {
        log := log + [Closed(aborting[0])];
        aborting := aborting[1..];
      }
    }

    method BeginShutdown()
      modifies this`shutDown
      ensures W() == Lifecycle.Apply(old(W()), Lifecycle.Action.BeginShutdown) && shutDown
    {
      shutDown := true;
    }
  }

  lemma NewestStep(order: seq<Service>, i: nat, active: set<Service>)
    requires i < |order|
    ensures Newest(order[..i + 1], active) ==
      if order[i] in active then [order[i]] + Newest(order[..i], active - {order[i]}) else Newest(order[..i], active)
  {
    assert order[..i + 1][..i] == order[..i];
    assert order[i] !in active ==> active - {order[i]} == active;
  }

  lemma TakeOne(all: set<Service>, left: set<Service>, q: seq<Service>, x: Service, rest: seq<Service>)
    requires left == all - set s | s in q
    ensures left - {x} == all - set s | s in q + [x]
    ensures (q + [x]) + rest == q + ([x] + rest)
  {
    assert forall s :: s in q + [x] <==> s in q || s == x;
  }

  lemma {:induction false} InitsOpen(q: seq<Service>)
    ensures forall s :: Open(Inits(q), s) <==> s in q
    ensures Alternates(Inits(q)) <==> Distinct(q)
  {
    if q != [] {
      var rest, s := q[..|q| - 1], q[|q| - 1];
      InitsOpen(rest);
      assert Inits(q) == Inits(rest) + [Inited(s)] && q == rest + [s];
      OneMore(Inits(rest), Inited(s));
      assert Distinct(q) ==> Distinct(rest);
    }
  }

  /** Closing in reverse tells which services were closed, and in which order. */
  lemma ClosesSame(a: seq<Service>, b: seq<Service>)
    ensures Closes(Reverse(a)) == Closes(Reverse(b)) <==> a == b
  {
    if Closes(Reverse(a)) == Closes(Reverse(b)) {
      assert |a| == |Closes(Reverse(a))| == |b|;
      forall i | 0 <= i < |a|
        ensures a[i] == b[i]
      {
        var j := |a| - 1 - i;
        assert Closes(Reverse(a))[j] == Closed(Reverse(a)[j]) && Reverse(a)[j] == a[i];
        assert Closes(Reverse(b))[j] == Closed(Reverse(b)[j]) && Reverse(b)[j] == b[i];
      }
    }
  }

  lemma StartFailed(s0: ContainerSpec.State, s: ContainerSpec.State, w: Lifecycle.State)
    requires Initialized.FirstRun(s0, s)
    requires w.active == {} && w.order == []
    requires w.log == Inits(s.initLog) + Closes(Reverse(BuildPlan.Listed(s, s.Insts().keys)))
    ensures w.log == Inits(s.initLog) + Closes(Reverse(s.initLog)) <==> Initialized.StartsClean(s0)
  {
    var opens, listed := Inits(s.initLog), BuildPlan.Listed(s, s.Insts().keys);
    Initialized.ListedIsLogIff(s0, s);
    ClosesSame(listed, s.initLog);
    assert w.log[|opens|..] == Closes(Reverse(listed));
    assert (opens + Closes(Reverse(s.initLog)))[|opens|..] == Closes(Reverse(s.initLog));
  }

  lemma StartSucceeded(s0: ContainerSpec.State, s: ContainerSpec.State, w: Lifecycle.State)
    requires Initialized.FirstRun(s0, s)
    requires BuildPlan.Buildable(s0) && forall t: TypeId :: BuildPlan.Running(s, t)
    requires w.order == Services(s, s.Insts().keys) && Distinct(w.order) && forall v :: v in w.active <==> v in w.order
    requires w.log == Inits(s.initLog) && !w.shutDown && w.aborting == [] && w.stopping == []
    ensures Ready(w) && (Up(w) <==> OneType(s0))
    ensures StartLeft(None, s.initLog, w) <==> Initialized.StartsClean(s0)
  {
    ServicesUp(s, w);
    ServicesListed(s, s.Insts().keys);
    Initialized.CleanIff(s0, s);
  }

  /** Where BuildAll leaves the container, and the worker once it has tracked or closed the services. */
  ghost predicate Concluding(e: Option<DIError>, s0: ContainerSpec.State, s: ContainerSpec.State, w: Lifecycle.State) {
    && !w.shutDown && w.aborting == [] && w.stopping == []
    && if e.None? then
         && BuildPlan.Buildable(s0) && (forall t: TypeId :: BuildPlan.Running(s, t))
         && w.order == Services(s, s.Insts().keys) && Distinct(w.order) && (forall v :: v in w.active <==> v in w.order)
         && w.log == Inits(s.initLog)
       else
         && w.active == {} && w.order == []
         && w.log == Inits(s.initLog) + Closes(Reverse(BuildPlan.Listed(s, s.Insts().keys)))
  }

  lemma StartConcludes(e: Option<DIError>, s0: ContainerSpec.State, s: ContainerSpec.State, w: Lifecycle.State)
    requires Initialized.FirstRun(s0, s) && Concluding(e, s0, s, w)
    ensures MadeOnce(s) && (e.None? ==> Ready(w) && (Up(w) <==> OneType(s0)))
    ensures StartLeft(e, s.initLog, w) <==> Initialized.StartsClean(s0)
  {
    Initialized.StartMakesOnce(s0, s);
    if e.Some? {
      StartFailed(s0, s, w);
    } else {
      StartSucceeded(s0, s, w);
    }
  }

  lemma ServicesUp(s: ContainerSpec.State, w: Lifecycle.State)
    requires forall t: TypeId :: BuildPlan.Running(s, t)
    requires w.order == Services(s, s.Insts().keys) && Distinct(w.order) && forall v :: v in w.active <==> v in w.order
    requires Tracked(s) && w.log == Inits(s.initLog) && !w.shutDown && w.aborting == [] && w.stopping == []
    ensures Ready(w) && (Up(w) <==> Initialized.Once(s.initLog))
  {
    ServicesMarked(s, s.Insts().keys);
    InitsOpen(s.initLog);
    forall v ensures HeldRight(w, v) {
    }
  }

  /** A start that failed has closed what it had initialized, the last first, so consumers before what they took. */
  lemma FailedStartUndoes(e: DIError, inited: seq<Service>, w: Lifecycle.State)
    requires StartLeft(Some(e), inited, w)
    ensures |w.log| == 2 * |inited|
    ensures forall i :: 0 <= i < |inited| ==>
      w.log[i] == Inited(inited[i]) && w.log[2 * |inited| - 1 - i] == Closed(inited[i])
  {
    var n := |inited|;
    forall i | 0 <= i < n
      ensures w.log[i] == Inited(inited[i]) && w.log[2 * n - 1 - i] == Closed(inited[i])
    {
      assert Inits(inited)[i] == Inited(inited[i]);
      assert Closes(Reverse(inited))[n - 1 - i] == Closed(Reverse(inited)[n - 1 - i]);
      assert Reverse(inited)[n - 1 - i] == inited[i];
    }
  }

  /** A service registered under two types is initialized while it is open: its Inits and Closes do not alternate. */
  lemma TwoTypesOpenTwice()
    ensures var s := Initialized.TwoTypes();
      && Basics(s) && BuildPlan.FirstStart(s) && BuildPlan.Buildable(s)
      && !Alternates(Inits(BuildPlan.InitedUpTo(s, 2).initLog))
  {
    Initialized.TwoTypesBuild();
    Initialized.InitializedUnderTwoTypes();
    var q := BuildPlan.InitedUpTo(Initialized.TwoTypes(), 2).initLog;
    assert q[0] == q[1];
    InitsOpen(q);
  }

  /**
    After a start of s0 that succeeded, Inits and Closes alternate for every service under
    every interleaving if and only if no service of s0 was registered under two types.
   */
  lemma AlternateIff(
      s0: ContainerSpec.State, ws: seq<Lifecycle.State>, acts: seq<Lifecycle.Action>, i: nat)
    requires Run(ws, acts) && Ready(ws[0]) && NoAbort(acts) && i < |ws|
    requires Up(ws[0]) <==> OneType(s0)
    ensures Alternates(ws[i].log) <==> OneType(s0)
  {
    AlwaysAlternates(ws, acts, i);
  }

  // ---------------------------------------------------------------------------
  // Dependency order
  // ---------------------------------------------------------------------------

  lemma {:induction false} ServicesAre(s: ContainerSpec.State, keys: seq<TypeId>)
    ensures forall v :: v in Services(s, keys) <==>
      exists t :: t in keys && s.Has(t) && s.Insts().m[t] == v && v in s.services
  {
    if keys != [] {
      ServicesAre(s, keys[..|keys| - 1]);
      assert keys == keys[..|keys| - 1] + [keys[|keys| - 1]];
    }
  }

  lemma {:induction false} ServicesFollow(s: ContainerSpec.State, keys: seq<TypeId>, i: nat, j: nat)
    requires i < j < |keys| && forall k, l :: 0 <= k < l < |keys| ==> keys[k] != keys[l]
    requires forall t: TypeId :: !Twins(s, keys[j], t)
    requires s.Has(keys[i]) && s.Insts().m[keys[i]] in s.services
    requires s.Has(keys[j]) && s.Insts().m[keys[j]] in s.services
    ensures Follows(Services(s, keys), s.Insts().m[keys[i]], s.Insts().m[keys[j]])
    decreases |keys|
  {
    var rest := keys[..|keys| - 1];
    var before, all := Services(s, rest), Services(s, keys);
    var a, b := s.Insts().m[keys[i]], s.Insts().m[keys[j]];
    assert before <= all;
    if j < |keys| - 1 {
      ServicesFollow(s, rest, i, j);
      var k, l :| 0 <= k < l < |before| && before[k] == a && before[l] == b;
      assert all[k] == a && all[l] == b;
    } else {
      ServicesAre(s, rest);
      assert rest[i] == keys[i] && keys[i] in rest;
      NotYetListed(s, rest, keys[j]);
      var k :| 0 <= k < |before| && before[k] == a;
      assert all == before + [b];
      assert all[k] == a && all[|before|] == b;
    }
  }

  lemma NotYetListed(s: ContainerSpec.State, keys: seq<TypeId>, t: TypeId)
    requires (forall u: TypeId :: !Twins(s, t, u)) && t !in keys && s.Has(t)
    ensures s.Insts().m[t] !in Services(s, keys)
  {
    ServicesAre(s, keys);
    forall u | u in keys && s.Has(u)
      ensures s.Insts().m[u] != s.Insts().m[t]
    {
      assert !Twins(s, t, u);
    }
  }

  /**
    A service that a constructor took is tracked before the service it made, so that
    closing newest first closes consumers before what they depend on.
   */
  lemma DependenciesFirst(s: ContainerSpec.State, u: TypeId, d: TypeId)
    requires Basics(s) && MadeOnce(s)
    requires u in s.constructed && Edge(s, u, d) && s.Has(u) && s.Has(d)
    requires s.Insts().m[u] in s.services && s.Insts().m[d] in s.services
    ensures Follows(Services(s, s.Insts().keys), s.Insts().m[d], s.Insts().m[u])
  {
    var keys := s.Insts().keys;
    assert DepFirst(s, u, d);
    ServicesFollow(s, keys, IndexOf(keys, d), IndexOf(keys, u));
  }

  /**
    After a start that succeeded, under every interleaving: when Shutdown is done, it has
    closed every active service before the active services that its constructor took.
   */
  lemma ConsumersCloseFirst(
      s: ContainerSpec.State, ws: seq<Lifecycle.State>, acts: seq<Lifecycle.Action>, i: nat, j: nat, u: TypeId,
      d: TypeId)
    returns (a: nat, b: nat)
    requires Basics(s) && MadeOnce(s)
    requires Run(ws, acts) && Ready(ws[0]) && NoAbort(acts) && ws[0].order == Services(s, s.Insts().keys)
    requires i < j < |ws| && acts[i] == CloseActive(true) && ws[i].stopping == [] && ws[j].stopping == []
    requires forall k :: i < k < |acts| ==> acts[k] != CloseActive(true)
    requires u in s.constructed && Edge(s, u, d) && s.Has(u) && s.Has(d)
    requires s.Insts().m[u] in s.services && s.Insts().m[u] in ws[i].active
    requires s.Insts().m[d] in s.services && s.Insts().m[d] in ws[i].active
    ensures |ws[i].log| <= a < b < |ws[j].log|
    ensures ws[j].log[a] == Closed(s.Insts().m[u]) && ws[j].log[b] == Closed(s.Insts().m[d])
  {
    DependenciesFirst(s, u, d);
    a, b := ClosesInReverse(ws, acts, i, j, s.Insts().m[d], s.Insts().m[u]);
  }
}
