/**
  The services of a worker between Start and Shutdown: what each locked region does, and
  what holds over every interleaving of them.
 */
module Lifecycle {

  type Service = nat

  datatype Event = Inited(s: Service) | Closed(s: Service)

  /**
    The services that run, in order those that were started, and the services taken from
    the active ones by a failing Start or by Shutdown that are still to be closed.
   */
  datatype State = State(
    active: set<Service>,
    order: seq<Service>,
    shutDown: bool,
    aborting: seq<Service>,
    stopping: seq<Service>,
    log: seq<Event>)

  /** CloseActive takes the active services and CloseNext closes one of them, for Shutdown or for a failing Start. */
  datatype Action =
    | CloseService(s: Service)
    | RestartService(s: Service, works: bool)
    | BeginShutdown
    | CloseActive(stop: bool)
    | CloseNext(stop: bool)

  /** The active services, newest first. */
  function Newest(order: seq<Service>, active: set<Service>): seq<Service> {
    if order == [] then []
    else
      var s := order[|order| - 1];
      (if s in active then [s] else []) + Newest(order[..|order| - 1], active - {s})
  }

  /** CloseService closes an active service; otherwise, or once Shutdown has begun, it does nothing. */
  function Closing(w: State, s: Service): State {
    if w.shutDown || s !in w.active then w
    else w.(active := w.active - {s}, log := w.log + [Closed(s)])
  }

  function Restarts(w: State, s: Service): bool {
    !w.shutDown && s !in w.active && s in w.order
  }

  /** RestartService starts a known service that is not active; a failing Init changes nothing. */
  function Restarting(w: State, s: Service, works: bool): State {
    if Restarts(w, s) && works then w.(active := w.active + {s}, log := w.log + [Inited(s)]) else w
  }

  function Taken(w: State, stop: bool): State {
    var list := Newest(w.order, w.active);
    var rest := w.active - (set s | s in list);
    if stop then w.(active := rest, stopping := w.stopping + list)
    else w.(active := rest, aborting := w.aborting + list)
  }

  function ClosedNext(w: State, stop: bool): State {
    var queue := if stop then w.stopping else w.aborting;
    if queue == [] then w
    else if stop then w.(stopping := queue[1..], log := w.log + [Closed(queue[0])])
    else w.(aborting := queue[1..], log := w.log + [Closed(queue[0])])
  }

  /** Only Shutdown, once begun, takes services to stop. */
  predicate Enabled(w: State, a: Action) {
    a.CloseActive? && a.stop ==> w.shutDown
  }

  function Apply(w: State, a: Action): State {
    match a
    case CloseService(s) => Closing(w, s)
    case RestartService(s, works) => Restarting(w, s, works)
    case BeginShutdown => w.(shutDown := true)
    case CloseActive(stop) => Taken(w, stop)
    case CloseNext(stop) => ClosedNext(w, stop)
  }

  // ---------------------------------------------------------------------------
  // Inits and Closes alternate
  // ---------------------------------------------------------------------------

  /** The last event of s is an Init. */
  ghost predicate Open(log: seq<Event>, s: Service) {
    log != [] && if log[|log| - 1].s == s then log[|log| - 1].Inited? else Open(log[..|log| - 1], s)
  }

  /** For every service, each Init follows no event or a Close, and each Close an Init. */
  ghost predicate Alternates(log: seq<Event>) {
    log == [] ||
    (Alternates(log[..|log| - 1]) && (log[|log| - 1].Inited? <==> !Open(log[..|log| - 1], log[|log| - 1].s)))
  }

  ghost predicate Distinct(q: seq<Service>) {
    forall i, j :: 0 <= i < j < |q| ==> q[i] != q[j]
  }

  /** The services that are open according to the lists: active or still to be closed. */
  ghost predicate Held(w: State, s: Service) {
    s in w.active || s in w.aborting || s in w.stopping
  }

  ghost predicate HeldRight(w: State, s: Service) {
    && (Open(w.log, s) <==> Held(w, s))
    && (s in w.active ==> s in w.order && s !in w.aborting && s !in w.stopping)
    && !(s in w.aborting && s in w.stopping)
  }

  /** The lists agree with what the log says is open. */
  ghost predicate Books(w: State) {
    && Distinct(w.order) && Distinct(w.aborting) && Distinct(w.stopping)
    && (forall s :: HeldRight(w, s))
    && (w.stopping != [] ==> w.shutDown)
  }

  ghost predicate Inv(w: State) {
    Books(w) && Alternates(w.log)
  }

  lemma OneMore(log: seq<Event>, e: Event)
    ensures Alternates(log + [e]) <==> Alternates(log) && (e.Inited? <==> !Open(log, e.s))
    ensures forall s :: Open(log + [e], s) <==> if s == e.s then e.Inited? else Open(log, s)
  {
    assert (log + [e])[..|log|] == log;
  }

  lemma {:induction false} NewestIs(order: seq<Service>, active: set<Service>)
    requires Distinct(order)
    ensures Distinct(Newest(order, active))
    ensures forall s :: s in Newest(order, active) <==> s in order && s in active
  {
    if order != [] {
      var rest, s := order[..|order| - 1], order[|order| - 1];
      assert order == rest + [s];
      NewestIs(rest, active - {s});
    }
  }

  lemma CloseKeeps(w: State, s: Service)
    requires Books(w)
    ensures Books(Closing(w, s)) && (Alternates(Closing(w, s).log) <==> Alternates(w.log))
  {
    OneMore(w.log, Closed(s));
    assert HeldRight(w, s);
    forall u
      ensures HeldRight(Closing(w, s), u)
    {
      assert HeldRight(w, u);
    }
  }

  /** A restart keeps the books unless a failing Start is still to close the service. */
  lemma RestartKeepsIff(w: State, s: Service, works: bool)
    requires Books(w)
    ensures Books(Restarting(w, s, works)) <==> !(Restarts(w, s) && works && s in w.aborting)
    ensures Books(Restarting(w, s, works)) ==> (Alternates(Restarting(w, s, works).log) <==> Alternates(w.log))
  {
    OneMore(w.log, Inited(s));
    assert HeldRight(w, s);
    if s in w.aborting {
      assert Restarts(w, s) && works ==> !HeldRight(Restarting(w, s, works), s);
    } else {
      forall u
        ensures HeldRight(Restarting(w, s, works), u)
      {
        assert HeldRight(w, u);
      }
    }
  }

  lemma TakeKeeps(w: State, stop: bool)
    requires Books(w) && (stop ==> w.shutDown)
    ensures Books(Taken(w, stop)) && Taken(w, stop).active == {}
  {
    NewestIs(w.order, w.active);
    var w' := Taken(w, stop);
    forall s
      ensures HeldRight(w', s) && s !in w'.active
    {
      assert HeldRight(w, s);
    }
    forall i, j | 0 <= i < j < |w'.stopping|
      ensures w'.stopping[i] != w'.stopping[j]
    {
      assert HeldRight(w, w'.stopping[i]) && HeldRight(w, w'.stopping[j]);
    }
    forall i, j | 0 <= i < j < |w'.aborting|
      ensures w'.aborting[i] != w'.aborting[j]
    {
      assert HeldRight(w, w'.aborting[i]) && HeldRight(w, w'.aborting[j]);
    }
  }

  lemma CloseNextKeeps(w: State, stop: bool)
    requires Books(w)
    ensures Books(ClosedNext(w, stop)) && (Alternates(ClosedNext(w, stop).log) <==> Alternates(w.log))
  {
    var queue := if stop then w.stopping else w.aborting;
    if queue != [] {
      var s := queue[0];
      assert queue == [s] + queue[1..];
      OneMore(w.log, Closed(s));
      assert HeldRight(w, s);
      forall u
        ensures HeldRight(ClosedNext(w, stop), u)
      {
        assert HeldRight(w, u);
      }
    }
  }

  /** A restart of a service that a failing Start has yet to close. */
  ghost predicate Races(w: State, a: Action) {
    a.RestartService? && a.works && Restarts(w, a.s) && a.s in w.aborting
  }

  /** Every step but such a restart keeps the lists right, and adds no Init or Close out of turn. */
  lemma StepKeepsBooks(w: State, a: Action)
    requires Books(w) && Enabled(w, a)
    ensures Books(Apply(w, a)) <==> !Races(w, a)
    ensures !Races(w, a) ==> (Alternates(Apply(w, a).log) <==> Alternates(w.log))
  {
    match a {
      case CloseService(s) => CloseKeeps(w, s);
      case RestartService(s, works) => RestartKeepsIff(w, s, works);
      case BeginShutdown =>
        forall s ensures HeldRight(Apply(w, a), s) {
          assert HeldRight(w, s);
        }
      case CloseActive(stop) => TakeKeeps(w, stop);
      case CloseNext(stop) => CloseNextKeeps(w, stop);
    }
  }

  /** Every step but such a restart keeps the books, and such a restart never does. */
  lemma StepKeepsIff(w: State, a: Action)
    requires Inv(w) && Enabled(w, a)
    ensures Inv(Apply(w, a)) <==> !Races(w, a)
  {
    StepKeepsBooks(w, a);
  }

  // ---------------------------------------------------------------------------
  // Every interleaving
  // ---------------------------------------------------------------------------

  ghost predicate StepAt(ws: seq<State>, acts: seq<Action>, i: nat) {
    i < |acts| && i + 1 < |ws| && Enabled(ws[i], acts[i]) && ws[i + 1] == Apply(ws[i], acts[i])
  }

  ghost predicate Run(ws: seq<State>, acts: seq<Action>) {
    |ws| == |acts| + 1 && forall i :: 0 <= i < |acts| ==> StepAt(ws, acts, i)
  }

  /** A worker whose Start has brought up the services of order, perhaps some of them twice. */
  ghost predicate Ready(w: State) {
    Books(w) && w.aborting == [] && w.stopping == [] && !w.shutDown
  }

  /** A worker whose Start has brought up each service of order once. */
  ghost predicate Up(w: State) {
    Ready(w) && Alternates(w.log)
  }

  /** No failing Start takes services. */
  ghost predicate NoAbort(acts: seq<Action>) {
    forall i :: 0 <= i < |acts| ==> acts[i] != CloseActive(false)
  }

  /**
    After Start has succeeded the lists are right under every interleaving, and each
    service's Inits and Closes alternate if and only if they did when Start was done.
   */
  lemma {:induction false} AlwaysAlternates(ws: seq<State>, acts: seq<Action>, i: nat)
    requires Run(ws, acts) && Ready(ws[0]) && NoAbort(acts) && i < |ws|
    ensures Books(ws[i]) && ws[i].aborting == [] && ws[i].order == ws[0].order
    ensures Alternates(ws[i].log) <==> Alternates(ws[0].log)
  {
    if i > 0 {
      AlwaysAlternates(ws, acts, i - 1);
      assert StepAt(ws, acts, i - 1);
      StepKeepsBooks(ws[i - 1], acts[i - 1]);
      assert acts[i - 1] != CloseActive(false);
    }
  }

  ghost function Closes(q: seq<Service>): seq<Event> {
    seq(|q|, i requires 0 <= i < |q| => Closed(q[i]))
  }

  /** Once Shutdown has begun nothing is opened, and it stays begun. */
  lemma {:induction false} NothingReopens(ws: seq<State>, acts: seq<Action>, i: nat, j: nat)
    requires Run(ws, acts) && i <= j < |ws| && ws[i].shutDown
    ensures ws[j].shutDown && ws[i].log <= ws[j].log
    ensures forall k :: |ws[i].log| <= k < |ws[j].log| ==> ws[j].log[k].Closed?
    decreases j
  {
    if i < j {
      NothingReopens(ws, acts, i, j - 1);
      assert StepAt(ws, acts, j - 1);
    }
  }

  /** Of list, the first n are closed since log, and the others are still to be closed. */
  ghost predicate Stopped(log: seq<Event>, list: seq<Service>, n: nat, w: State) {
    && n <= |list| && w.stopping == list[n..] && w.active == {} && w.shutDown && w.aborting == []
    && w.log == log + Closes(list[..n])
  }

  lemma StopStep(log: seq<Event>, list: seq<Service>, n: nat, w: State, a: Action) returns (n': nat)
    requires Stopped(log, list, n, w) && !a.CloseActive?
    ensures Stopped(log, list, n', Apply(w, a))
  {
    n' := n;
    if a == CloseNext(true) && n < |list| {
      n' := n + 1;
      assert Closes(list[..n + 1]) == Closes(list[..n]) + [Closed(list[n])];
    }
  }

  /**
    Shutdown, from when it takes the active services, has closed exactly a first part of
    them, newest first, and still has the rest; no one else closes anything.
   */
  lemma {:induction false} StopProgress(ws: seq<State>, acts: seq<Action>, i: nat, j: nat) returns (n: nat)
    requires Run(ws, acts) && Ready(ws[0]) && NoAbort(acts)
    requires i < j < |ws| && acts[i] == CloseActive(true) && ws[i].stopping == []
    requires forall k :: i < k < |acts| ==> acts[k] != CloseActive(true)
    ensures Stopped(ws[i].log, Newest(ws[i].order, ws[i].active), n, ws[j])
    decreases j
  {
    AlwaysAlternates(ws, acts, j - 1);
    assert StepAt(ws, acts, j - 1);
    if j == i + 1 {
      n := 0;
      TakeKeeps(ws[i], true);
    } else {
      n := StopProgress(ws, acts, i, j - 1);
      assert acts[j - 1] != CloseActive(true) && acts[j - 1] != CloseActive(false);
      n := StopStep(ws[i].log, Newest(ws[i].order, ws[i].active), n, ws[j - 1], acts[j - 1]);
    }
  }

  /** When Shutdown is done it has closed each active service once, newest first, and nothing is open. */
  lemma ShutdownCloses(ws: seq<State>, acts: seq<Action>, i: nat, j: nat)
    requires Run(ws, acts) && Ready(ws[0]) && NoAbort(acts)
    requires i < j < |ws| && acts[i] == CloseActive(true) && ws[i].stopping == []
    requires forall k :: i < k < |acts| ==> acts[k] != CloseActive(true)
    requires ws[j].stopping == []
    ensures ws[j].log == ws[i].log + Closes(Newest(ws[i].order, ws[i].active))
    ensures Distinct(Newest(ws[i].order, ws[i].active))
    ensures forall s :: s in Newest(ws[i].order, ws[i].active) <==> s in ws[i].active
    ensures forall s :: !Open(ws[j].log, s)
  {
    var list := Newest(ws[i].order, ws[i].active);
    var n := StopProgress(ws, acts, i, j);
    assert list[..n] == list;
    AlwaysAlternates(ws, acts, i);
    AlwaysAlternates(ws, acts, j);
    NewestIs(ws[i].order, ws[i].active);
    forall s
      ensures !Open(ws[j].log, s) && (s in ws[i].active ==> s in ws[i].order)
    {
      assert HeldRight(ws[j], s) && HeldRight(ws[i], s);
    }
  }

  /** Newest lists the active services in reverse order of the list they were started in. */
  lemma {:induction false} NewestReverses(order: seq<Service>, active: set<Service>, i: nat, j: nat)
    requires Distinct(order) && i < j < |order| && order[i] in active && order[j] in active
    ensures exists k, l :: 0 <= k < l < |Newest(order, active)|
                           && Newest(order, active)[k] == order[j] && Newest(order, active)[l] == order[i]
  {
    var rest, s := order[..|order| - 1], order[|order| - 1];
    var tail := Newest(rest, active - {s});
    var all := Newest(order, active);
    if j < |order| - 1 {
      NewestReverses(rest, active - {s}, i, j);
      var k, l :| 0 <= k < l < |tail| && tail[k] == order[j] && tail[l] == order[i];
      var d := |all| - |tail|;
      assert all[k + d] == order[j] && all[l + d] == order[i];
    } else {
      NewestIs(rest, active - {s});
      assert order[i] in rest && order[i] != s;
      var l :| 0 <= l < |tail| && tail[l] == order[i];
      assert all[0] == s && all[1 + l] == order[i];
    }
  }

  ghost predicate Follows(q: seq<Service>, a: Service, b: Service) {
    exists i, j :: 0 <= i < j < |q| && q[i] == a && q[j] == b
  }

  // ---------------------------------------------------------------------------
  // What single calls do
  // ---------------------------------------------------------------------------

  ghost predicate SameOthers(w: State, w': State, s: Service) {
    && w'.order == w.order && w'.shutDown == w.shutDown && w'.aborting == w.aborting && w'.stopping == w.stopping
    && forall u :: u != s ==> (u in w'.active <==> u in w.active) && (Open(w'.log, u) <==> Open(w.log, u))
  }

  /** CloseService closes an active service, once, and touches no other; otherwise it does nothing. */
  lemma CloseDoes(w: State, s: Service)
    requires Books(w)
    ensures var w' := Apply(w, CloseService(s));
      if s in w.active && !w.shutDown then
        w'.log == w.log + [Closed(s)] && s !in w'.active && !Open(w'.log, s) && SameOthers(w, w', s)
      else w' == w
  {
    OneMore(w.log, Closed(s));
  }

  /**
    RestartService starts a tracked service that is not active, once; otherwise, or when
    Init fails, it does nothing.
   */
  lemma RestartDoes(w: State, s: Service, works: bool)
    requires Books(w)
    ensures var w' := Apply(w, RestartService(s, works));
      if s !in w.active && s in w.order && !w.shutDown && works then
        w'.log == w.log + [Inited(s)] && s in w'.active && Open(w'.log, s) && SameOthers(w, w', s)
      else w' == w
  {
    OneMore(w.log, Inited(s));
  }

  /** One step of Shutdown, or of a failing Start, closes the service that is next and touches no other. */
  lemma CloseNextDoes(w: State, stop: bool)
    requires Books(w)
    ensures var queue := if stop then w.stopping else w.aborting;
      var w' := Apply(w, CloseNext(stop));
      if queue == [] then w' == w
      else
        && w'.log == w.log + [Closed(queue[0])] && !Open(w'.log, queue[0])
        && (if stop then w'.stopping else w'.aborting) == queue[1..]
        && (if stop then w'.aborting == w.aborting else w'.stopping == w.stopping)
        && w'.active == w.active && w'.order == w.order && w'.shutDown == w.shutDown
  {
    var queue := if stop then w.stopping else w.aborting;
    if queue != [] {
      OneMore(w.log, Closed(queue[0]));
    }
  }

  /** The services that Shutdown has taken are closed once it has taken as many steps. */
  lemma {:induction false} ShutdownEnds(ws: seq<State>, acts: seq<Action>, i: nat, k: nat)
    requires Run(ws, acts) && i + k < |ws| && k <= |ws[i].stopping|
    requires forall j :: i <= j < i + k ==> acts[j] == CloseNext(true)
    ensures ws[i + k].stopping == ws[i].stopping[k..] && ws[i + k].log == ws[i].log + Closes(ws[i].stopping[..k])
    decreases k
  {
    if k > 0 {
      ShutdownEnds(ws, acts, i, k - 1);
      assert StepAt(ws, acts, i + k - 1);
      var list := ws[i].stopping;
      assert list[k - 1..][1..] == list[k..];
      assert Closes(list[..k]) == Closes(list[..k - 1]) + [Closed(list[k - 1])];
    }
  }

  /** s is closed by the i-th call, and no later call before the j-th has started it again. */
  ghost predicate ClosedSince(ws: seq<State>, acts: seq<Action>, s: Service, i: nat, j: nat)
    requires |ws| == |acts| + 1
  {
    && i < j < |ws| && acts[i] == CloseService(s) && s in ws[i].active && !ws[i].shutDown
    && forall k :: i < k < j ==> acts[k] != RestartService(s, true)
  }

  /**
    From a successful CloseService on, under every interleaving, the service is neither
    active nor open until it is restarted; and a restart that works succeeds unless
    Shutdown has begun.
   */
  lemma {:induction false} StaysClosed(ws: seq<State>, acts: seq<Action>, s: Service, i: nat, j: nat)
    requires Run(ws, acts) && Ready(ws[0]) && NoAbort(acts) && ClosedSince(ws, acts, s, i, j)
    ensures s !in ws[j].active && !Open(ws[j].log, s)
    ensures var w := Apply(ws[j], RestartService(s, true));
      if ws[j].shutDown then w == ws[j] else s in w.active && Open(w.log, s)
    decreases j
  {
    AlwaysAlternates(ws, acts, i);
    AlwaysAlternates(ws, acts, j);
    assert StepAt(ws, acts, j - 1);
    assert HeldRight(ws[i], s);
    if j == i + 1 {
      CloseDoes(ws[i], s);
    } else {
      StaysClosed(ws, acts, s, i, j - 1);
      NotStarted(ws[j - 1], acts[j - 1], s);
    }
    assert HeldRight(ws[j], s);
    RestartDoes(ws[j], s, true);
    assert ws[j].order == ws[i].order;
  }

  lemma NotStarted(w: State, a: Action, s: Service)
    requires s !in w.active && a != RestartService(s, true)
    ensures s !in Apply(w, a).active
  {
    if a.CloseActive? {
      assert Apply(w, a).active <= w.active;
    }
  }

  /** Once Shutdown has begun, no later call of CloseService or RestartService does anything. */
  lemma {:induction false} RefusedOnceDown(ws: seq<State>, acts: seq<Action>, i: nat, j: nat)
    requires Run(ws, acts) && i < j < |acts| && acts[i] == BeginShutdown
    ensures ws[j].shutDown
    ensures acts[j].CloseService? || acts[j].RestartService? ==> ws[j + 1] == ws[j]
  {
    assert StepAt(ws, acts, i) && StepAt(ws, acts, j);
    NothingReopens(ws, acts, i + 1, j);
  }

  /** Of two active services Shutdown closes the one first that was started last. */
  lemma ClosesInReverse(
      ws: seq<State>, acts: seq<Action>, i: nat, j: nat, first: Service, second: Service)
    returns (a: nat, b: nat)
    requires Run(ws, acts) && Ready(ws[0]) && NoAbort(acts)
    requires i < j < |ws| && acts[i] == CloseActive(true) && ws[i].stopping == [] && ws[j].stopping == []
    requires forall k :: i < k < |acts| ==> acts[k] != CloseActive(true)
    requires Follows(ws[0].order, first, second) && first in ws[i].active && second in ws[i].active
    ensures |ws[i].log| <= a < b < |ws[j].log|
    ensures ws[j].log[a] == Closed(second) && ws[j].log[b] == Closed(first)
  {
    AlwaysAlternates(ws, acts, i);
    ReversesFollows(ws[i].order, ws[i].active, first, second);
    ShutdownCloses(ws, acts, i, j);
    a, b := ClosesFollow(ws[i].log, Newest(ws[i].order, ws[i].active), second, first);
  }

  lemma ReversesFollows(order: seq<Service>, active: set<Service>, first: Service, second: Service)
    requires Distinct(order) && Follows(order, first, second) && first in active && second in active
    ensures Follows(Newest(order, active), second, first)
  {
    var k, l :| 0 <= k < l < |order| && order[k] == first && order[l] == second;
    NewestReverses(order, active, k, l);
  }

  lemma ClosesFollow(log: seq<Event>, list: seq<Service>, x: Service, y: Service) returns (a: nat, b: nat)
    requires Follows(list, x, y)
    ensures |log| <= a < b < |log + Closes(list)|
    ensures (log + Closes(list))[a] == Closed(x) && (log + Closes(list))[b] == Closed(y)
  {
    var i, j :| 0 <= i < j < |list| && list[i] == x && list[j] == y;
    a, b := |log| + i, |log| + j;
  }

  /**
    While a Start that fails after its services came up closes them one by one, a restart
    can initialize a service that is still open.
   */
  lemma FailingStartRaces()
    ensures var w := State({7}, [7], false, [], [], [Inited(7)]);
      var w1 := Apply(w, CloseActive(false));
      var w2 := Apply(w1, RestartService(7, true));
      && Inv(w) && Inv(w1) && Races(w1, RestartService(7, true))
      && w2.log == [Inited(7), Inited(7)] && !Alternates(w2.log)
  {
    var w := State({7}, [7], false, [], [], [Inited(7)]);
    OneMore([], Inited(7));
    OneMore([Inited(7)], Inited(7));
    assert [] + [Inited(7)] == [Inited(7)] && [Inited(7)] + [Inited(7)] == [Inited(7), Inited(7)];
    forall s ensures HeldRight(w, s) {
    }
    assert Inv(w);
    assert [7][..0] == [];
    assert Newest([7], {7}) == [7];
    TakeKeeps(w, false);
  }
}
