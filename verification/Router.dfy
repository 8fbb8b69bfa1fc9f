/**
  The router: registrations are recorded, and every change replays them into a new tree.
 */
module Router {
  import opened Routes
  import opened RouterRecords

  /** The leaves of es are booked, unless they were before. */
  ghost predicate Journaled(scope: seq<string>, again: bool, j: seq<Event>, es: seq<Entry>, j': seq<Event>) {
    j' == j + if again then [] else Bookings(scope, es)
  }

  // What running the first call of a callback and then the rest comes to.

  lemma KnowsFlat(env: Env, p: Place, s: Script)
    requires s.Then?
    ensures KnowsAll(env, Flat(p, s)) <==>
      KnowsAll(env, Entries(p, s.op)) && KnowsAll(env, Flat(After(p, s.op), s.rest))
  {
    KnowsConcat(env, Entries(p, s.op), Flat(After(p, s.op), s.rest));
  }

  lemma PutFlat(t: Tree<Middleware>, p: Place, s: Script)
    requires s.Then?
    ensures PutAll(t, Flat(p, s)) == PutAll(PutAll(t, Entries(p, s.op)), Flat(After(p, s.op), s.rest))
  {
    PutAllConcat(t, Entries(p, s.op), Flat(After(p, s.op), s.rest));
  }

  lemma BookFlat(env: Env, scope: seq<string>, p: Place, s: Script)
    requires s.Then?
    ensures Bookings(scope, BookedIn(env, p, s)) == Bookings(scope, BookedBy(env, p, s.op)) +
      if KnowsAll(env, Entries(p, s.op)) then Bookings(scope, BookedIn(env, After(p, s.op), s.rest)) else []
  {
    if KnowsAll(env, Entries(p, s.op)) {
      BookingsConcat(scope, BookedBy(env, p, s.op), BookedIn(env, After(p, s.op), s.rest));
    } else {
      assert BookedIn(env, p, s) == BookedBy(env, p, s.op);
    }
  }

  lemma JournalFlat(
      env: Env, scope: seq<string>, again: bool, p: Place, s: Script, j: seq<Event>, j1: seq<Event>, j2: seq<Event>)
    requires s.Then? && Journaled(scope, again, j, BookedBy(env, p, s.op), j1)
    requires
      if KnowsAll(env, Entries(p, s.op)) then Journaled(scope, again, j1, BookedIn(env, After(p, s.op), s.rest), j2)
      else j2 == j1
    ensures Journaled(scope, again, j, BookedIn(env, p, s), j2)
  {
    BookFlat(env, scope, p, s);
  }

  // What replaying one call more comes to.

  lemma KnowsMore(env: Env, ops: seq<Op>, i: nat)
    requires i < |ops|
    ensures KnowsAll(env, AllEntries(ops[..i + 1])) <==>
      KnowsAll(env, AllEntries(ops[..i])) && KnowsAll(env, Entries(TOP, ops[i]))
  {
    OneMore(ops, i);
    KnowsConcat(env, AllEntries(ops[..i]), Entries(TOP, ops[i]));
  }

  lemma PutMore(t: Tree<Middleware>, ops: seq<Op>, i: nat)
    requires i < |ops|
    ensures PutAll(t, AllEntries(ops[..i + 1])) == PutAll(PutAll(t, AllEntries(ops[..i])), Entries(TOP, ops[i]))
  {
    OneMore(ops, i);
    PutAllConcat(t, AllEntries(ops[..i]), Entries(TOP, ops[i]));
  }

  /** The calls ops are replayed into t, and what is new among them is booked. */
  ghost predicate Replayed(
      env: Env, scope: seq<string>, booked: nat, t: Tree<Middleware>, j: seq<Event>, ops: seq<Op>,
      t': Tree<Middleware>, j': seq<Event>) {
    KnowsAll(env, AllEntries(ops)) && t' == PutAll(t, AllEntries(ops)) && j' == j + Tried(env, scope, ops, booked)
  }

  lemma ReplayedMore(
      env: Env, scope: seq<string>, booked: nat, t: Tree<Middleware>, j: seq<Event>, ops: seq<Op>, i: nat,
      t1: Tree<Middleware>, j1: seq<Event>, t2: Tree<Middleware>, j2: seq<Event>)
    requires i < |ops| && Replayed(env, scope, booked, t, j, ops[..i], t1, j1)
    requires KnowsAll(env, Entries(TOP, ops[i])) && t2 == PutAll(t1, Entries(TOP, ops[i]))
    requires Journaled(scope, ops[i].Handle? || i < booked, j1, BookedBy(env, TOP, ops[i]), j2)
    ensures Replayed(env, scope, booked, t, j, ops[..i + 1], t2, j2)
  {
    KnowsMore(env, ops, i);
    PutMore(t, ops, i);
    TriedMore(env, scope, ops, i, booked);
  }

  /** A replay that comes to an unknown name does so in a call that was not built before, and ends there. */
  lemma ReplayStops(env: Env, scope: seq<string>, ops: seq<Op>, i: nat, booked: nat)
    requires i < |ops| && booked <= |ops| && KnowsAll(env, AllEntries(ops[..booked]))
    requires KnowsAll(env, AllEntries(ops[..i])) && !KnowsAll(env, Entries(TOP, ops[i]))
    ensures i >= booked && !KnowsAll(env, AllEntries(ops))
    ensures Tried(env, scope, ops, booked) == Tried(env, scope, ops[..i], booked) +
      if ops[i].Handle? then [] else Bookings(scope, BookedBy(env, TOP, ops[i]))
  {
    KnowsMore(env, ops, i);
    if i < booked {
      assert ops[..booked][..i + 1] == ops[..i + 1];
      KnowsPrefix(env, ops[..booked], i + 1);
    }
    if KnowsAll(env, AllEntries(ops)) {
      KnowsPrefix(env, ops, i + 1);
    }
    TriedMore(env, scope, ops, i, booked);
    TriedStops(env, scope, ops, i, booked);
  }

  lemma ReplayedNone(
      env: Env, scope: seq<string>, booked: nat, t: Tree<Middleware>, j: seq<Event>, ops: seq<Op>)
    ensures Replayed(env, scope, booked, t, j, ops[..0], t, j)
  {
    assert ops[..0] == [];
  }

  lemma ReplayStopped(
      env: Env, scope: seq<string>, booked: nat, t: Tree<Middleware>, j: seq<Event>, ops: seq<Op>, i: nat,
      t1: Tree<Middleware>, j1: seq<Event>, j2: seq<Event>)
    requires i < |ops| && booked <= |ops| && KnowsAll(env, AllEntries(ops[..booked]))
    requires Replayed(env, scope, booked, t, j, ops[..i], t1, j1) && !KnowsAll(env, Entries(TOP, ops[i]))
    requires Journaled(scope, ops[i].Handle? || i < booked, j1, BookedBy(env, TOP, ops[i]), j2)
    ensures i >= booked && !KnowsAll(env, AllEntries(ops)) && j2 == j + Tried(env, scope, ops, booked)
  {
    ReplayStops(env, scope, ops, i, booked);
  }

  lemma PutHandle(t: Tree<Middleware>, p: Place, op: Op)
    requires op.Handle?
    ensures PutAll(t, Entries(p, op)) == PutAll(t, Serves(p, op))
  {
    PutAllConcat(t, Checks(op.mws), Serves(p, op));
    PutChecks(t, op.mws);
  }

  lemma HandleKnown(env: Env, p: Place, op: Op)
    requires op.Handle?
    ensures KnowsAll(env, Entries(p, op)) <==> KnowsAll(env, Checks(op.mws))
  {
    KnowsConcat(env, Checks(op.mws), Serves(p, op));
    assert forall e :: e in Serves(p, op) ==> e.Serve?;
  }

  function Bare(mws: seq<Middleware>): Tree<Middleware> {
    Tree(mws, map[], map[])
  }

  lemma BookingsServes(scope: seq<string>, p: Place, op: Op)
    requires op.Handle?
    ensures var es := Serves(p, op);
      Bookings(scope, es) == [Book(scope, es[0])] + if op.verb == "GET" then [Book(scope, es[1])] else []
  {
    var es := Serves(p, op);
    BookingsOne(scope, es[0]);
    if op.verb == "GET" {
      BookingsOne(scope, es[1]);
      BookingsConcat(scope, [es[0]], [es[1]]);
      assert es == [es[0]] + [es[1]];
    } else {
      assert es == [es[0]];
    }
  }

  class Router {
    var pendingMW: seq<Middleware>
    var pendingOps: seq<Op>
    var bookedOps: nat
    var rebuilding: bool
    var sealed: bool
    var scope: seq<string>

    var routes: map<string, seq<Booked>>
    var removed: map<string, seq<Booked>>
    var registry: map<string, Owned>
    var retired: map<string, Owned>

    // The tree being built, and the one that answers requests.
    var mux: Tree<Link>
    var served: Tree<Link>

    // The tree being built before its middleware is resolved, and all bookings and removals.
    ghost var plan: Tree<Middleware>
    ghost var journal: seq<Event>

    ghost function Environment(): Env
      reads this`registry, this`retired
    {
      Env(registry, retired)
    }

    /** The bookkeeping is what the journal says. */
    ghost predicate Kept()
      reads this`routes, this`removed, this`journal
    {
      routes == RoutesOf(journal) && removed == RemovedOf(journal)
    }

    ghost predicate Building()
      reads this`registry, this`retired, this`mux, this`plan, this`routes, this`removed, this`journal
    {
      mux == ResolveTree(Environment(), plan) && Kept()
    }

    // -------------------------------------------------------------------------
    // Running recorded calls
    // -------------------------------------------------------------------------

    method BuildMiddleware(m: Middleware) returns (link: Link, ok: bool)
      ensures ok == Knows(Environment(), m)
      ensures ok ==> link == Resolve(Environment(), m)
    {
      if m.Direct? {
        return Pass(m.fn), true;
      }
      if m.name in registry {
        return Pass(registry[m.name].fn), true;
      }
      return Stop, m.name in retired;
    }

    method BuildAllMiddleware(ms: seq<Middleware>) returns (links: seq<Link>, ok: bool)
      ensures ok <==> forall i :: 0 <= i < |ms| ==> Knows(Environment(), ms[i])
      ensures ok ==> links == Links(Environment(), ms)
    {
      links := [];
      for i := 0 to |ms|
        invariant links == Links(Environment(), ms[..i])
        invariant forall j :: 0 <= j < i ==> Knows(Environment(), ms[j])
      {
        var link, known := BuildMiddleware(ms[i]);
        if !known {
          return links, false;
        }
        links := links + [link];
      }
      assert ms[..|ms|] == ms;
      ok := true;
    }

    method RecordBookkeeping(e: Entry)
      requires e.Serve? && Kept()
      modifies this`routes, this`removed, this`journal
      ensures Kept() && journal == old(journal) + [Book(scope, e)]
    {
      removed := removed - {e.service};
      routes := routes[e.service := Listed(routes, e.service) + [Record(scope, e)]];
      journal := journal + [Book(scope, e)];
    }

    /** The leaves of one Handle call, with the middleware links around the sub-router. */
    method RunLeaf(p: Place, links: seq<Link>, op: Op) returns (ok: bool)
      requires op.Handle? && links == Links(Environment(), p.chain) && Building()
      modifies this`mux, this`plan
      ensures ok <==> KnowsAll(Environment(), Checks(op.mws))
      ensures ok ==> Building() && plan == PutAll(old(plan), Serves(p, op))
    {
      KnowsChecks(Environment(), op.mws);
      var own;
      own, ok := BuildAllMiddleware(op.mws);
      if ok {
        LinksAppend(Environment(), p.chain, op.mws);
        var e := Serves(p, op)[0];
        assert Serves(p, op)[..1] == [e];
        PutOne(plan, e);
        PutLeaf(e, links + own);
        if op.verb == "GET" {
          assert Serves(p, op) == [e] + [Serves(p, op)[1]];
          PutAllConcat(old(plan), [e], [Serves(p, op)[1]]);
          PutOne(plan, Serves(p, op)[1]);
          PutLeaf(Serves(p, op)[1], links + own);
        } else {
          assert Serves(p, op) == [e];
        }
      }
    }

    method PutLeaf(e: Entry, links: seq<Link>)
      requires e.Serve? && links == Links(Environment(), e.chain) && Building()
      modifies this`mux, this`plan
      ensures Building() && plan == Put(old(plan), e)
    {
      ResolvePut(Environment(), plan, e);
      mux := mux.(leaves := mux.leaves[e.key := Live(links, e.handler)]);
      plan := Put(plan, e);
    }

    method PutMount(e: Entry, links: seq<Link>)
      requires e.Mounted? && links == Links(Environment(), e.chain) && Building()
      modifies this`mux, this`plan
      ensures Building() && plan == Put(old(plan), e)
    {
      ResolvePut(Environment(), plan, e);
      if e.at !in mux.mounts {
        mux := mux.(mounts := mux.mounts[e.at := links]);
      }
      plan := Put(plan, e);
    }

    /** A Handle call on a sub-router: booked on its first run, and then built. */
    method RunHandle(p: Place, links: seq<Link>, op: Op) returns (ok: bool)
      requires op.Handle? && links == Links(Environment(), p.chain) && Building()
      modifies this`mux, this`plan, this`routes, this`removed, this`journal
      ensures ok <==> KnowsAll(Environment(), Entries(p, op))
      ensures Kept() && Journaled(scope, rebuilding, old(journal), BookedBy(Environment(), p, op), journal)
      ensures ok ==> Building() && plan == PutAll(old(plan), Entries(p, op))
    {
      if !rebuilding {
        BookLeaves(p, op);
      }
      HandleKnown(Environment(), p, op);
      PutHandle(plan, p, op);
      ok := RunLeaf(p, links, op);
    }

    method BookLeaves(p: Place, op: Op)
      requires op.Handle? && Kept()
      modifies this`routes, this`removed, this`journal
      ensures Kept() && journal == old(journal) + Bookings(scope, Serves(p, op))
    {
      var es := Serves(p, op);
      RecordBookkeeping(es[0]);
      if op.verb == "GET" {
        RecordBookkeeping(es[1]);
      }
      BookingsServes(scope, p, op);
    }

    /** One call on the sub-router at p other than Use. */
    method RunCall(p: Place, links: seq<Link>, op: Op) returns (ok: bool)
      requires !op.Use? && links == Links(Environment(), p.chain) && Building()
      modifies this`mux, this`plan, this`routes, this`removed, this`journal
      ensures ok <==> KnowsAll(Environment(), Entries(p, op))
      ensures Kept() && Journaled(scope, rebuilding, old(journal), BookedBy(Environment(), p, op), journal)
      ensures ok ==> Building() && plan == PutAll(old(plan), Entries(p, op))
      decreases op, 0
    {
      match op {
        case Handle(_, _, _, _, _) =>
          ok := RunHandle(p, links, op);
        case Group(body) =>
          ok := RunScript(p, links, body);
        case Route(pattern, body) =>
          ghost var t := plan;
          var e := Mounted(p.mounts + [pattern], p.chain);
          PutMount(e, links);
          PutOne(t, e);
          PutAllConcat(t, [e], Flat(Inside(p, pattern), body));
          KnowsConcat(Environment(), [e], Flat(Inside(p, pattern), body));
          ok := RunScript(Inside(p, pattern), [], body);
      }
    }

    /** The calls of a callback on the sub-router at p. */
    method RunScript(p: Place, links: seq<Link>, s: Script) returns (ok: bool)
      requires links == Links(Environment(), p.chain) && Building()
      modifies this`mux, this`plan, this`routes, this`removed, this`journal
      ensures ok <==> KnowsAll(Environment(), Flat(p, s))
      ensures Kept() && Journaled(scope, rebuilding, old(journal), BookedIn(Environment(), p, s), journal)
      ensures ok ==> Building() && plan == PutAll(old(plan), Flat(p, s))
      decreases s, 1
    {
      match s {
        case End =>
          return true;
        case Then(op, rest) =>
          ghost var env, t, j := Environment(), plan, journal;
          var after := links;
          if op.Use? {
            var link;
            PutOne(plan, Applied(op.mw));
            link, ok := BuildMiddleware(op.mw);
            LinksAppend(env, p.chain, [op.mw]);
            after := links + [link];
          } else {
            ok := RunCall(p, links, op);
          }
          ghost var j1 := journal;
          if ok {
            ok := RunScript(After(p, op), after, rest);
          }
          KnowsFlat(env, p, s);
          PutFlat(t, p, s);
          JournalFlat(env, scope, rebuilding, p, s, j, j1, journal);
      }
    }

    // -------------------------------------------------------------------------
    // Publishing
    // -------------------------------------------------------------------------

    ghost function R(): Records
      reads this
    {
      Records(pendingMW, pendingOps, bookedOps, sealed, scope, Environment(), journal)
    }

    /** Replays all records into a new tree, then takes down the removed routes. */
    method BuildMux() returns (ok: bool)
      requires Kept() && !rebuilding && Sound(R())
      modifies this`mux, this`plan, this`routes, this`removed, this`journal, this`rebuilding, this`bookedOps
      ensures ok <==> Builds(old(R()))
      ensures Kept() && !rebuilding && R() == Attempt(old(R()))
      ensures ok ==> mux == TreeOf(R())
    {
      var top;
      top, ok := BuildAllMiddleware(pendingMW);
      if ok {
        mux := Tree(top, map[], map[]);
        plan := Bare(pendingMW);
        assert ResolveTree(Environment(), plan) == mux;
        ok := Replay();
        if ok {
          bookedOps := |pendingOps|;
          TakeDown();
        }
      }
    }

    method Replay() returns (ok: bool)
      requires Building() && plan == Bare(pendingMW) && !rebuilding
      requires bookedOps <= |pendingOps| && NoUse(pendingOps)
      requires KnowsAll(Environment(), AllEntries(pendingOps[..bookedOps]))
      modifies this`mux, this`plan, this`routes, this`removed, this`journal, this`rebuilding
      ensures ok <==> KnowsAll(Environment(), AllEntries(pendingOps))
      ensures Kept() && !rebuilding
      ensures journal == old(journal) + Tried(Environment(), scope, pendingOps, bookedOps)
      ensures ok ==> Building() && plan == PutAll(Bare(pendingMW), AllEntries(pendingOps))
    {
      ghost var env, bare, before := Environment(), plan, journal;
      ReplayedNone(env, scope, bookedOps, bare, before, pendingOps);
      for i := 0 to |pendingOps|
        invariant Building() && Replayed(env, scope, bookedOps, bare, before, pendingOps[..i], plan, journal)
      {
        ghost var t, j := plan, journal;
        rebuilding := i < bookedOps;
        ok := RunTop(pendingOps[i]);
        if !ok {
          ReplayStopped(env, scope, bookedOps, bare, before, pendingOps, i, t, j, journal);
          return;
        }
        ReplayedMore(env, scope, bookedOps, bare, before, pendingOps, i, t, j, plan, journal);
      }
      assert pendingOps[..|pendingOps|] == pendingOps;
      rebuilding := false;
      ok := true;
    }

    /** One recorded call. A Handle call was booked when it was made. */
    method RunTop(op: Op) returns (ok: bool)
      requires !op.Use? && Building()
      modifies this`mux, this`plan, this`routes, this`removed, this`journal
      ensures ok <==> KnowsAll(Environment(), Entries(TOP, op))
      ensures Kept()
      ensures Journaled(scope, op.Handle? || rebuilding, old(journal), BookedBy(Environment(), TOP, op), journal)
      ensures ok ==> Building() && plan == PutAll(old(plan), Entries(TOP, op))
    {
      if op.Handle? {
        HandleKnown(Environment(), TOP, op);
        PutHandle(plan, TOP, op);
        ok := RunLeaf(TOP, [], op);
      } else {
        ok := RunCall(TOP, [], op);
      }
    }

    /** Puts a 503 leaf over every removed route. */
    method TakeDown()
      requires Building()
      modifies this`mux, this`plan
      ensures Building() && plan == Overlay(old(plan), Down(removed))
    {
      var services := removed.Keys;
      ghost var t := plan;
      OverlayNone(t);
      TakenEnds(removed);
      while services != {}
        invariant services <= removed.Keys
        invariant Building() && plan == Overlay(t, Taken(removed, services))
        decreases |services|
      {
        var s :| s in services;
        TakenMore(removed, services, s);
        TakeDownRoutes(t, Taken(removed, services), removed[s]);
        services := services - {s};
      }
    }

    method TakeDownRoutes(ghost t: Tree<Middleware>, ghost down: set<Key>, bs: seq<Booked>)
      requires Building() && plan == Overlay(t, down)
      modifies this`mux, this`plan
      ensures Building() && plan == Overlay(t, down + Pairs(bs))
    {
      assert down + Pairs([]) == down;
      for i := 0 to |bs|
        invariant Building() && plan == Overlay(t, down + Pairs(bs[..i]))
      {
        var k := Key([], bs[i].verb, bs[i].path);
        OverlayMore(Environment(), t, down + Pairs(bs[..i]), k);
        PairsMore(bs, i);
        assert down + Pairs(bs[..i + 1]) == down + Pairs(bs[..i]) + {k};
        mux := mux.(leaves := mux.leaves[k := Unavailable]);
        plan := plan.(leaves := plan.leaves[k := Unavailable]);
      }
      assert bs[..|bs|] == bs;
    }

    /** Builds a new tree and has it answer from now on. */
    method Publish() returns (ok: bool)
      requires Kept() && !rebuilding && Sound(R())
      modifies this`mux, this`plan, this`routes, this`removed, this`journal, this`rebuilding, this`bookedOps
      modifies this`served
      ensures ok <==> Builds(old(R()))
      ensures Kept() && !rebuilding && R() == Attempt(old(R()))
      ensures served == if ok then TreeOf(R()) else old(served)
    {
      ok := BuildMux();
      if ok {
        served := mux;
      }
    }

    // -------------------------------------------------------------------------
    // Calls on the top-level router. A call that returns false panics in the source,
    // and its caller may recover and go on.
    // -------------------------------------------------------------------------

    /** What every call needs and leaves behind, also when it panics. */
    ghost predicate Resumable()
      reads this
    {
      Kept() && !rebuilding && Sound(R())
    }

    /** No call has panicked so far. */
    ghost predicate Valid()
      reads this
    {
      Kept() && !rebuilding && Good(R())
    }

    constructor ()
      ensures Valid() && Resumable() && R() == NEW && served == TreeOf(R())
    {
      pendingMW, pendingOps, bookedOps, rebuilding, sealed, scope := [], [], 0, false, false, [];
      routes, removed, registry, retired := map[], map[], map[], map[];
      mux, served, plan, journal := Tree([], map[], map[]), Tree([], map[], map[]), Tree([], map[], map[]), [];
      new;
      EmptyTree();
      GoodSound(NEW);
    }

    /** Ends the call c, which turned the records r into what they are and has not refused. */
    method Finish(ghost r: Records, ghost c: Call, rebuild: bool) returns (ok: bool)
      requires Kept() && !rebuilding && Sound(r)
      requires R() == Changed(r, c) && !Refuses(r, c) && rebuild == Republishes(r, c)
      modifies this`mux, this`plan, this`routes, this`removed, this`journal, this`rebuilding, this`bookedOps
      modifies this`served
      ensures Resumable() && Left(r, old(served), c, ok, R(), served)
      ensures Good(r) ==> Did(r, old(served), c, ok, R(), served) && (ok ==> Valid())
    {
      ChangedSound(r, c);
      ok := true;
      if rebuild {
        ok := Publish();
      }
      OutcomeSound(r, c);
      if Good(r) {
        LeftIsDid(r, old(served), c, ok, R(), served);
      }
    }

    method Register(service: string, name: string, fn: nat) returns (ok: bool)
      requires Resumable()
      modifies this
      ensures Resumable() && Left(old(R()), old(served), Call.Register(service, name, fn), ok, R(), served)
      ensures old(Valid()) ==> Did(old(R()), old(served), Call.Register(service, name, fn), ok, R(), served)
      ensures old(Valid()) && ok ==> Valid()
    {
      ghost var r := R();
      var wasRetired := name in retired;
      retired := retired - {name};
      registry := registry[name := Owned(service, fn)];
      assert R() == Registering(r, service, name, fn);
      ok := Finish(r, Call.Register(service, name, fn), wasRetired && sealed);
    }

    /** Whether m names a middleware in use, or needs no name. */
    predicate Validates(m: Middleware)
      reads this`registry
    {
      m.Direct? || m.name in registry
    }

    method Use(mws: seq<Middleware>) returns (ok: bool)
      requires Resumable()
      modifies this
      ensures Resumable() && Left(old(R()), old(served), UseAll(mws), ok, R(), served)
      ensures old(Valid()) ==> Did(old(R()), old(served), UseAll(mws), ok, R(), served)
      ensures old(Valid()) && ok ==> Valid()
    {
      ghost var r := R();
      ok := Queue(mws);
      if ok {
        ok := Finish(r, UseAll(mws), sealed);
      } else {
        ChangedSound(r, UseAll(mws));
        if Good(r) {
          LeftIsDid(r, served, UseAll(mws), false, R(), served);
        }
      }
    }

    /** Queues what comes before the first name that is not in use. */
    method Queue(mws: seq<Middleware>) returns (ok: bool)
      modifies this`pendingMW, this`scope
      ensures ok <==> AllLive(Environment(), mws)
      ensures R() == Using(old(R()), mws[..LiveUpTo(Environment(), mws)])
    {
      for i := 0 to |mws|
        invariant pendingMW == old(pendingMW) + mws[..i] && scope == old(scope) + NamesOf(mws[..i])
        invariant forall j :: 0 <= j < i ==> InUse(Environment(), mws[j])
      {
        if !Validates(mws[i]) {
          assert !InUse(Environment(), mws[i]);
          assert i == LiveUpTo(Environment(), mws);
          return false;
        }
        NamesMore(mws, i);
        pendingMW := pendingMW + [mws[i]];
        assert [mws[i]][..0] == [];
        if mws[i].name != "" {
          scope := scope + [mws[i].name];
        }
      }
      ok := true;
    }

    method Handle(service: string, verb: string, path: string, handler: nat, mws: seq<Middleware>) returns (ok: bool)
      requires Resumable()
      modifies this
      ensures Resumable()
      ensures var op := Op.Handle(service, verb, path, handler, mws);
        && Left(old(R()), old(served), Add(op), ok, R(), served)
        && (old(Valid()) ==> Did(old(R()), old(served), Add(op), ok, R(), served))
      ensures old(Valid()) && ok ==> Valid()
    {
      ghost var r := R();
      var op := Op.Handle(service, verb, path, handler, mws);
      ok := ValidatesAll(mws);
      if ok {
        BookLeaves(TOP, op);
        ok := ApplyOp(r, op);
      } else if Good(r) {
        LeftIsDid(r, served, Add(op), false, R(), served);
      }
    }

    method ValidatesAll(mws: seq<Middleware>) returns (ok: bool)
      ensures ok <==> AllLive(Environment(), mws)
    {
      for i := 0 to |mws|
        invariant forall j :: 0 <= j < i ==> InUse(Environment(), mws[j])
      {
        if !Validates(mws[i]) {
          assert !InUse(Environment(), mws[i]);
          return false;
        }
      }
      ok := true;
    }

    method Group(body: Script) returns (ok: bool)
      requires Resumable()
      modifies this
      ensures Resumable() && Left(old(R()), old(served), Add(Op.Group(body)), ok, R(), served)
      ensures old(Valid()) ==> Did(old(R()), old(served), Add(Op.Group(body)), ok, R(), served)
      ensures old(Valid()) && ok ==> Valid()
    {
      ghost var r := R();
      ok := ApplyOp(r, Op.Group(body));
    }

    method Route(pattern: string, body: Script) returns (ok: bool)
      requires Resumable()
      modifies this
      ensures Resumable() && Left(old(R()), old(served), Add(Op.Route(pattern, body)), ok, R(), served)
      ensures old(Valid()) ==> Did(old(R()), old(served), Add(Op.Route(pattern, body)), ok, R(), served)
      ensures old(Valid()) && ok ==> Valid()
    {
      ghost var r := R();
      ok := ApplyOp(r, Op.Route(pattern, body));
    }

    /** Records op, which was booked if it is a Handle call, and builds it into the tree of a sealed router. */
    method ApplyOp(ghost r: Records, op: Op) returns (ok: bool)
      requires Kept() && !rebuilding && Sound(r) && !Refuses(r, Add(op))
      requires R() == r.(journal := r.journal + if op.Handle? then Bookings(r.scope, Serves(TOP, op)) else [])
      modifies this`pendingOps, this`mux, this`plan, this`routes, this`removed, this`journal, this`rebuilding
      modifies this`bookedOps, this`served
      ensures Resumable() && Left(r, old(served), Add(op), ok, R(), served)
      ensures Good(r) ==> Did(r, old(served), Add(op), ok, R(), served) && (ok ==> Valid())
    {
      pendingOps := pendingOps + [op];
      ok := Finish(r, Add(op), sealed);
    }

    method Seal() returns (ok: bool)
      requires Resumable()
      modifies this
      ensures Resumable() && Left(old(R()), old(served), Call.Seal, ok, R(), served)
      ensures old(Valid()) ==> Did(old(R()), old(served), Call.Seal, ok, R(), served)
      ensures old(Valid()) && ok ==> Valid()
    {
      ghost var r := R();
      var first := !sealed;
      sealed := true;
      ok := Finish(r, Call.Seal, first);
    }

    method RemoveByService(service: string) returns (ok: bool)
      requires Resumable()
      modifies this
      ensures Resumable() && Left(old(R()), old(served), RemoveService(service), ok, R(), served)
      ensures ok <==> !(sealed && Stuck(old(R())))
      ensures old(Valid()) ==> ok && Valid() && Did(old(R()), old(served), RemoveService(service), ok, R(), served)
    {
      ghost var r := R();
      RemoveRoutes(service);
      RetireNames(service);
      PanicsIff(r, RemoveService(service));
      ok := Finish(r, RemoveService(service), sealed);
    }

    /** The routes of service go from the live ones to the removed ones. */
    method RemoveRoutes(service: string)
      requires Kept()
      modifies this`routes, this`removed, this`journal
      ensures Kept() && journal == old(journal) + [Remove(service)]
    {
      ghost var before := journal;
      if service in routes {
        removed := removed[service := routes[service]];
        routes := routes - {service};
      }
      journal := journal + [Remove(service)];
      JournalRemove(before, service);
    }

    method RetireNames(service: string)
      modifies this`registry, this`retired
      ensures Environment() == Retire(old(Environment()), service)
    {
      var names := registry.Keys;
      ghost var env := Environment();
      RetiredEnds(env, service);
      while names != {}
        invariant names <= env.registry.Keys
        invariant Environment() == RetiredBut(env, service, names)
        decreases |names|
      {
        var n :| n in names;
        RetiredMore(env, service, names, n);
        if registry[n].service == service {
          retired := retired[n := registry[n]];
          registry := registry - {n};
        }
        names := names - {n};
      }
    }
  }
}
