/**
  What removing a service, and restarting it, does to the answers of every route.
 */
module KillSwitch {
  import opened Routes
  import opened RouterRecords
  import opened RouterTheorems

  // ---------------------------------------------------------------------------
  // Answers
  // ---------------------------------------------------------------------------

  /** The middleware around the mounts, outermost first. */
  ghost function MountChain<M>(t: Tree<M>, mounts: seq<string>): seq<M> {
    if mounts == [] then []
    else MountChain(t, mounts[..|mounts| - 1]) + if mounts in t.mounts then t.mounts[mounts] else []
  }

  /** Everything a request to the leaf k passes through before its handler. */
  ghost function Chain<M>(t: Tree<M>, k: Key): seq<M> {
    t.top + MountChain(t, k.mounts) + if k in t.leaves && t.leaves[k].Live? then t.leaves[k].chain else []
  }

  datatype Answer = Missing | Refused | Handled(chain: seq<Link>, handler: nat)

  /** What the leaf k answers: 503 when it is taken down or a link of its chain is. */
  ghost function Answered(t: Tree<Link>, k: Key): Answer {
    if Stop in t.top then Refused
    else if k !in t.leaves then Missing
    else if t.leaves[k].Unavailable? || Stop in Chain(t, k) then Refused
    else Handled(Chain(t, k), t.leaves[k].handler)
  }

  /** The leaf of the top-level mux with the pattern of k from the root. */
  function AtTop(k: Key): Key {
    Key([], k.verb, Full(k))
  }

  /** What a request for the pattern of k gets: a leaf of the top-level mux goes before a mount. */
  ghost function Request(t: Tree<Link>, k: Key): Answer {
    if AtTop(k) in t.leaves then Answered(t, AtTop(k)) else Answered(t, k)
  }

  lemma {:induction false} MountChainResolves(env: Env, t: Tree<Middleware>, mounts: seq<string>)
    ensures MountChain(ResolveTree(env, t), mounts) == Links(env, MountChain(t, mounts))
  {
    if mounts != [] {
      MountChainResolves(env, t, mounts[..|mounts| - 1]);
      LinksAppend(env, MountChain(t, mounts[..|mounts| - 1]), if mounts in t.mounts then t.mounts[mounts] else []);
    }
  }

  /** Resolving a tree resolves the chain of every leaf. */
  lemma ChainResolves(env: Env, t: Tree<Middleware>, k: Key)
    ensures Chain(ResolveTree(env, t), k) == Links(env, Chain(t, k))
  {
    MountChainResolves(env, t, k.mounts);
    LinksAppend(env, t.top, MountChain(t, k.mounts));
    LinksAppend(env, t.top + MountChain(t, k.mounts),
                if k in t.leaves && t.leaves[k].Live? then t.leaves[k].chain else []);
  }

  // ---------------------------------------------------------------------------
  // Retiring middleware
  // ---------------------------------------------------------------------------

  /** m names a middleware of service s. */
  ghost predicate OwnedBy(env: Env, s: string, m: Middleware) {
    m.Named? && m.name in env.registry && env.registry[m.name].service == s
  }

  ghost predicate NoneOwned(env: Env, s: string, ms: seq<Middleware>) {
    forall i :: 0 <= i < |ms| ==> !OwnedBy(env, s, ms[i])
  }

  lemma LinksRetired(env: Env, s: string, ms: seq<Middleware>)
    ensures NoneOwned(env, s, ms) ==> Links(Retire(env, s), ms) == Links(env, ms)
    ensures !NoneOwned(env, s, ms) ==> Stop in Links(Retire(env, s), ms)
  {
    if NoneOwned(env, s, ms) {
      forall i | 0 <= i < |ms|
        ensures Resolve(Retire(env, s), ms[i]) == Resolve(env, ms[i])
      {
        assert !OwnedBy(env, s, ms[i]);
      }
    } else {
      var i :| 0 <= i < |ms| && OwnedBy(env, s, ms[i]);
      assert Links(Retire(env, s), ms)[i] == Stop;
    }
  }

  // ---------------------------------------------------------------------------
  // Taking down routes
  // ---------------------------------------------------------------------------

  /** No service has both live and removed routes. */
  lemma {:induction false} LiveOrRemoved(j: seq<Event>)
    ensures RoutesOf(j).Keys !! RemovedOf(j).Keys
  {
    if j != [] {
      LiveOrRemoved(j[..|j| - 1]);
    }
  }

  lemma DownWith(removed: map<string, seq<Booked>>, s: string, bs: seq<Booked>)
    requires s !in removed
    ensures Down(removed[s := bs]) == Down(removed) + Pairs(bs)
  {
    var next := removed[s := bs];
    forall k
      ensures k in Down(next) <==> k in Down(removed) || k in Pairs(bs)
    {
      if k in Down(next) {
        var u, b: Booked :| u in next && b in next[u] && k == Key([], b.verb, b.path);
        assert u == s || (u in removed && removed[u] == next[u]);
      }
      if k in Down(removed) {
        var u, b: Booked :| u in removed && b in removed[u] && k == Key([], b.verb, b.path);
        assert u in next && next[u] == removed[u];
      }
      if k in Pairs(bs) {
        assert s in next && next[s] == bs;
      }
    }
  }

  /** Removing s takes down exactly the routes booked for it, besides those down already. */
  lemma KillTakesDown(j: seq<Event>, s: string)
    ensures Down(RemovedOf(j + [Remove(s)])) == Down(RemovedOf(j)) + Pairs(Listed(RoutesOf(j), s))
  {
    JournalRemove(j, s);
    LiveOrRemoved(j);
    if s in RoutesOf(j) {
      DownWith(RemovedOf(j), s, RoutesOf(j)[s]);
    }
  }

  lemma Overlaid(env: Env, mws: seq<Middleware>, es: seq<Entry>, removed: map<string, seq<Booked>>, k: Key)
    requires AtTop(k) in Down(removed)
    ensures Request(ResolveTree(env, Plan(mws, es, removed)), k) == Refused
  {
    var t := Plan(mws, es, removed);
    assert AtTop(k) in t.leaves && t.leaves[AtTop(k)] == Unavailable;
    var q := ResolveTree(env, t);
    assert AtTop(k) in q.leaves && q.leaves[AtTop(k)] == Unavailable;
  }

  /** After s is removed, every route booked for it answers 503. */
  lemma RoutesRefused(r: Records, s: string, k: Key)
    requires AtTop(k) in Pairs(Listed(RoutesOf(r.journal), s))
    ensures Request(TreeOf(Removing(r, s)), k) == Refused
  {
    KillTakesDown(r.journal, s);
    var q := Removing(r, s);
    Overlaid(q.env, q.mws, AllEntries(q.ops), RemovedOf(q.journal), k);
  }

  /** j has a route of s. */
  ghost predicate BooksFor(j: seq<Event>, s: string) {
    exists i :: 0 <= i < |j| && j[i].Book? && j[i].e.Serve? && j[i].e.service == s
  }

  lemma {:induction false} StillRemoved(j: seq<Event>, more: seq<Event>, s: string)
    requires forall i :: 0 <= i < |more| ==> more[i].Book?
    ensures s in RemovedOf(j + more) <==> s in RemovedOf(j) && !BooksFor(more, s)
    decreases |more|
  {
    if more == [] {
      assert j + more == j;
    } else {
      var rest, ev := more[..|more| - 1], more[|more| - 1];
      StillRemoved(j, rest, s);
      assert (j + more)[..|j + more| - 1] == j + rest;
      assert forall i :: 0 <= i < |rest| ==> rest[i] == more[i];
      assert more[|rest|] == ev;
    }
  }

  lemma {:induction false} BookingsBook(scope: seq<string>, es: seq<Entry>)
    ensures forall i :: 0 <= i < |Bookings(scope, es)| ==> Bookings(scope, es)[i].Book?
  {
    if es != [] {
      BookingsBook(scope, es[..|es| - 1]);
    }
  }

  lemma {:induction false} FirstRunsAllBook(scope: seq<string>, ops: seq<Op>, from: nat)
    ensures forall i :: 0 <= i < |FirstRuns(scope, ops, from)| ==> FirstRuns(scope, ops, from)[i].Book?
    decreases |ops|
  {
    if |ops| > from {
      FirstRunsAllBook(scope, ops[..|ops| - 1], from);
      BookingsBook(scope, Entries(TOP, ops[|ops| - 1]));
    }
  }

  /**
    Whatever has panicked before: when the removal of a service that has routes succeeds on
    a sealed router, its routes stay down if and only if no recorded callback that is built
    for the first time now has a route of it.
   */
  lemma StaysRemovedIff(r: Records, s: string)
    requires Sound(r) && r.sealed && !Panics(r, RemoveService(s)) && s in RoutesOf(r.journal)
    ensures s in RemovedOf(Outcome(r, RemoveService(s)).journal) <==> !BooksFor(FirstRuns(r.scope, r.ops, r.booked), s)
    ensures Good(r) ==> s in RemovedOf(Outcome(r, RemoveService(s)).journal)
  {
    var q := Removing(r, s);
    AttemptBuilt(q);
    JournalRemove(r.journal, s);
    FirstRunsAllBook(r.scope, r.ops, r.booked);
    StillRemoved(q.journal, FirstRuns(r.scope, r.ops, r.booked), s);
    if Good(r) {
      FirstRunsNone(r.scope, r.ops, r.booked);
    }
  }

  /** After s is removed, no leaf with a middleware of s around it reaches its handler. */
  lemma MiddlewareRefuses(r: Records, s: string, k: Key)
    requires k in PlanOf(r).leaves && !NoneOwned(r.env, s, Chain(PlanOf(r), k))
    ensures Answered(TreeOf(Removing(r, s)), k) == Refused
  {
    var q := Removing(r, s);
    var before, after := PlanOf(r), PlanOf(q);
    KillTakesDown(r.journal, s);
    assert k in after.leaves;
    if after.leaves[k].Live? {
      assert after.leaves[k] == before.leaves[k];
      SameMountChain(before, after, k.mounts);
      ChainResolves(q.env, after, k);
      LinksRetired(r.env, s, Chain(after, k));
    }
  }

  lemma {:induction false} SameMountChain<M>(a: Tree<M>, b: Tree<M>, mounts: seq<string>)
    requires a.mounts == b.mounts
    ensures MountChain(a, mounts) == MountChain(b, mounts)
  {
    if mounts != [] {
      SameMountChain(a, b, mounts[..|mounts| - 1]);
    }
  }

  /** A leaf that s has no part in answers as before. */
  lemma AnsweredSame(r: Records, s: string, k: Key)
    requires k !in Pairs(Listed(RoutesOf(r.journal), s))
    requires NoneOwned(r.env, s, Chain(PlanOf(r), k))
    ensures Answered(TreeOf(Removing(r, s)), k) == Answered(TreeOf(r), k)
    ensures k in TreeOf(Removing(r, s)).leaves <==> k in TreeOf(r).leaves
  {
    var q := Removing(r, s);
    var before, after := PlanOf(r), PlanOf(q);
    KillTakesDown(r.journal, s);
    assert k in after.leaves <==> k in before.leaves;
    assert k in after.leaves ==> after.leaves[k] == before.leaves[k];
    SameMountChain(before, after, k.mounts);
    assert Chain(before, k) == Chain(after, k);
    ChainResolves(r.env, before, k);
    ChainResolves(q.env, after, k);
    LinksRetired(r.env, s, Chain(before, k));
    TopSame(r, s, k);
  }

  lemma TopSame(r: Records, s: string, k: Key)
    requires NoneOwned(r.env, s, Chain(PlanOf(r), k))
    ensures TreeOf(Removing(r, s)).top == TreeOf(r).top
  {
    var top := PlanOf(r).top;
    forall i | 0 <= i < |top|
      ensures !OwnedBy(r.env, s, top[i])
    {
      assert top[i] == Chain(PlanOf(r), k)[i];
    }
    LinksRetired(r.env, s, top);
  }

  lemma RequestSame(r: Records, s: string, k: Key)
    requires AtTop(k) !in Pairs(Listed(RoutesOf(r.journal), s))
    requires NoneOwned(r.env, s, Chain(PlanOf(r), k)) && NoneOwned(r.env, s, Chain(PlanOf(r), AtTop(k)))
    ensures Request(TreeOf(Removing(r, s)), k) == Request(TreeOf(r), k)
  {
    AnsweredSame(r, s, AtTop(k));
    assert k.mounts == [] ==> Full(k) == k.path;
    AnsweredSame(r, s, k);
  }

  /**
    On a sealed router whose tree is what its records describe: after s is removed, a route
    that is not one of s and has no middleware of s around it answers as before.
   */
  lemma OthersUnchanged(site: Site, s: string, k: Key)
    requires Good(site.r) && site.r.sealed && InSync(site)
    requires AtTop(k) !in Pairs(Listed(RoutesOf(site.r.journal), s))
    requires NoneOwned(site.r.env, s, Chain(PlanOf(site.r), k)) &&
      NoneOwned(site.r.env, s, Chain(PlanOf(site.r), AtTop(k)))
    ensures Next(site, RemoveService(s)).Some? && InSync(Next(site, RemoveService(s)).value)
    ensures Request(Next(site, RemoveService(s)).value.tree, k) == Request(site.tree, k)
  {
    RequestSame(site.r, s, k);
  }
}
