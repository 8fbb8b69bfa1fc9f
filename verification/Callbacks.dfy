/**
  What the middleware of callbacks does for the routes in them: the chain around every
  recorded leaf, told by where its Handle call stands.
 */
module Callbacks {
  import opened Routes
  import opened RouterRecords
  import opened RouterTheorems
  import opened KillSwitch
  import opened Scripts

  // ---------------------------------------------------------------------------
  // Leaves
  // ---------------------------------------------------------------------------

  /** The Handle call at path serves the leaf k. */
  ghost predicate ServesLeaf(s: Script, path: Path, k: Key) {
    && OpAt(s, path).Some? && OpAt(s, path).value.Handle?
    && k.mounts == Patterns(Way(s, path)) && k.path == OpAt(s, path).value.path
    && (k.verb == OpAt(s, path).value.verb || (OpAt(s, path).value.verb == "GET" && k.verb == "HEAD"))
  }

  /** It is the last to do so. */
  ghost predicate ServesLast(s: Script, path: Path, k: Key) {
    && ServesLeaf(s, path, k)
    && forall b: Path :: ServesLeaf(s, b, k) ==> b == path || Before(b, path)
  }

  /** What the Handle call at path makes of the leaf k. */
  ghost predicate LeafEntry(s: Script, path: Path, k: Key, e: Entry)
    requires OpAt(s, path).Some? && OpAt(s, path).value.Handle?
  {
    var op := OpAt(s, path).value;
    && e.Serve? && e.key == k && e.chain == Since(Way(s, path)) + op.mws
    && e.handler == op.handler && e.service == op.service
    && e.names == NamesOf(Met(Way(s, path))) + NamesOf(op.mws)
    && (e.autoHead <==> k.verb != op.verb)
  }

  /** Where a leaf that the call serves is among the entries. */
  lemma LeafStands(s: Script, path: Path, k: Key) returns (i: nat)
    requires ServesLeaf(s, path, k)
    ensures Start(s, path) <= i < Start(s, path) + Size(OpAt(s, path).value)
    ensures i < |Flat(TOP, s)| && LeafEntry(s, path, k, Flat(TOP, s)[i])
  {
    var op := OpAt(s, path).value;
    var q := CallStands(TOP, s, path);
    EntriesSize(q, op);
    i := HandleEntry(q, op, k);
    LeafEntryAt(s, path, k, q, Entries(q, op)[i]);
    EntryAt(Flat(TOP, s), Start(s, path), Entries(q, op), i);
    i := Start(s, path) + i;
  }

  lemma LeafEntryAt(s: Script, path: Path, k: Key, q: Place, e: Entry)
    requires ServesLeaf(s, path, k) && LeadsTo(TOP, Way(s, path), q) && MadeBy(q, OpAt(s, path).value, k, e)
    ensures LeafEntry(s, path, k, e)
  {
    assert [] + Since(Way(s, path)) == Since(Way(s, path));
  }

  ghost predicate MadeBy(q: Place, op: Op, k: Key, e: Entry)
    requires op.Handle?
  {
    && e.Serve? && e.key == k && e.chain == q.chain + op.mws
    && e.handler == op.handler && e.service == op.service && e.names == q.scope + NamesOf(op.mws)
    && (e.autoHead <==> k.verb != op.verb)
  }

  lemma HandleEntry(q: Place, op: Op, k: Key) returns (i: nat)
    requires op.Handle? && k.mounts == q.mounts && k.path == op.path
    requires k.verb == op.verb || (op.verb == "GET" && k.verb == "HEAD")
    ensures i < |Entries(q, op)| && MadeBy(q, op, k, Entries(q, op)[i])
  {
    i := |op.mws| + if k.verb == op.verb then 0 else 1;
    assert Entries(q, op)[i] == Serves(q, op)[i - |op.mws|];
  }

  /** Which call an entry for a leaf comes from. */
  lemma LeafOrigin(s: Script, j: nat) returns (path: Path)
    requires j < |Flat(TOP, s)| && Flat(TOP, s)[j].Serve?
    ensures ServesLeaf(s, path, Flat(TOP, s)[j].key)
    ensures Start(s, path) <= j < Start(s, path) + Size(OpAt(s, path).value)
  {
    path := Origin(TOP, s, j);
    var op := OpAt(s, path).value;
    var q := CallStands(TOP, s, path);
    EntriesSize(q, op);
    var es := Entries(q, op);
    var i := j - Start(s, path);
    assert Flat(TOP, s)[Start(s, path)..Start(s, path) + |es|][i] == es[i];
    HandleEntries(q, op);
  }

  lemma HandleEntries(q: Place, op: Op)
    requires op.Handle?
    ensures forall i :: 0 <= i < |Entries(q, op)| ==>
      Entries(q, op)[i] == if i < |op.mws| then Applied(op.mws[i]) else Serves(q, op)[i - |op.mws|]
  {
  }

  /** A call has one entry for each leaf it serves. */
  lemma OneEntry(s: Script, path: Path, i: nat, j: nat)
    requires OpAt(s, path).Some? && OpAt(s, path).value.Handle?
    requires Start(s, path) <= i < j < Start(s, path) + Size(OpAt(s, path).value)
    requires j < |Flat(TOP, s)| && Flat(TOP, s)[i].Serve? && Flat(TOP, s)[j].Serve?
    ensures Flat(TOP, s)[i].key != Flat(TOP, s)[j].key
  {
    var op := OpAt(s, path).value;
    var q := CallStands(TOP, s, path);
    EntriesSize(q, op);
    HandleEntries(q, op);
    EntryAt(Flat(TOP, s), Start(s, path), Entries(q, op), i - Start(s, path));
    EntryAt(Flat(TOP, s), Start(s, path), Entries(q, op), j - Start(s, path));
  }

  lemma EntryAt(all: seq<Entry>, start: nat, part: seq<Entry>, i: nat)
    requires StandsAt(all, start, part) && i < |part|
    ensures all[start + i] == part[i]
  {
    assert all[start..start + |part|][i] == part[i];
  }

  /** Two calls that serve leaves: one is made before the other. */
  lemma LeavesOrdered(s: Script, a: Path, k: Key, b: Path, l: Key)
    requires ServesLeaf(s, a, k) && ServesLeaf(s, b, l) && a != b
    ensures Before(a, b) || Before(b, a)
  {
    if a <= b {
      NothingInside(s, a, b);
    } else if b <= a {
      NothingInside(s, b, a);
    } else {
      Comparable(a, b);
    }
  }

  /** The entry of the call that serves k last is the last for k. */
  lemma LastLeaf(s: Script, path: Path, k: Key) returns (i: nat)
    requires ServesLast(s, path, k)
    ensures LastAt(Flat(TOP, s), k, i) && LeafEntry(s, path, k, Flat(TOP, s)[i])
  {
    i := LeafStands(s, path, k);
    forall j | i < j < |Flat(TOP, s)| && Flat(TOP, s)[j].Serve?
      ensures Flat(TOP, s)[j].key != k
    {
      var b := LeafOrigin(s, j);
      if b == path {
        OneEntry(s, path, i, j);
      } else if Flat(TOP, s)[j].key == k {
        StartOrder(s, b, path);
      }
    }
  }

  /**
    The leaf k of the tree is what the last Handle call for it makes of it: around it are
    the middleware of the Use calls before it in the callbacks around it, since the last
    mount, outermost first, and then its own.
   */
  lemma LeafIs(mws: seq<Middleware>, ops: seq<Op>, path: Path, k: Key)
    requires NoUse(ops) && ServesLast(ScriptOf(ops), path, k)
    ensures var t, s := PutAll(Tree(mws, map[], map[]), AllEntries(ops)), ScriptOf(ops);
      k in t.leaves
      && t.leaves[k] == Live(Since(Way(s, path)) + OpAt(s, path).value.mws, OpAt(s, path).value.handler)
  {
    AllFlat(ops);
    var i := LastLeaf(ScriptOf(ops), path, k);
    LastWins(mws, AllEntries(ops), k, i);
  }

  /** And every leaf of the tree has such a call. */
  lemma LeafHasCall(mws: seq<Middleware>, ops: seq<Op>, k: Key) returns (path: Path)
    requires NoUse(ops) && k in PutAll(Tree(mws, map[], map[]), AllEntries(ops)).leaves
    ensures ServesLast(ScriptOf(ops), path, k)
  {
    var s := ScriptOf(ops);
    AllFlat(ops);
    var i := LeafHasEntry(mws, AllEntries(ops), k);
    path := LeafOrigin(s, i);
    forall b: Path | ServesLeaf(s, b, k) && b != path
      ensures Before(b, path)
    {
      var j := LeafStands(s, b, k);
      LeavesOrdered(s, b, k, path, k);
      if Before(path, b) {
        StartOrder(s, path, b);
      }
    }
  }

  // ---------------------------------------------------------------------------
  // Mounts
  // ---------------------------------------------------------------------------

  /** The Route call at path attaches to the mount at. */
  ghost predicate Mounts(s: Script, path: Path, at: seq<string>) {
    && OpAt(s, path).Some? && OpAt(s, path).value.Route?
    && at == Patterns(Way(s, path)) + [OpAt(s, path).value.pattern]
  }

  /** It is the first to do so, and makes it. */
  ghost predicate MountsFirst(s: Script, path: Path, at: seq<string>) {
    && Mounts(s, path, at)
    && forall b: Path :: Mounts(s, b, at) ==> b == path || Before(path, b)
  }

  lemma MountStands(s: Script, path: Path, at: seq<string>)
    requires Mounts(s, path, at)
    ensures Start(s, path) < |Flat(TOP, s)|
    ensures Flat(TOP, s)[Start(s, path)] == Mounted(at, Since(Way(s, path)))
  {
    var op := OpAt(s, path).value;
    var q := CallStands(TOP, s, path);
    var es := Entries(q, op);
    assert Flat(TOP, s)[Start(s, path)..Start(s, path) + |es|][0] == es[0];
    assert [] + Since(Way(s, path)) == Since(Way(s, path));
  }

  /** The mount at has around it the middleware before the first Route call for it, since the mount before. */
  lemma MountIs(mws: seq<Middleware>, ops: seq<Op>, path: Path, at: seq<string>)
    requires NoUse(ops) && MountsFirst(ScriptOf(ops), path, at)
    ensures var t := PutAll(Tree(mws, map[], map[]), AllEntries(ops));
      at in t.mounts && t.mounts[at] == Since(Way(ScriptOf(ops), path))
  {
    var s := ScriptOf(ops);
    var es := Flat(TOP, s);
    AllFlat(ops);
    MountStands(s, path, at);
    forall j | 0 <= j < Start(s, path) && es[j].Mounted?
      ensures es[j].at != at
    {
      var b := Origin(TOP, s, j);
      MountStands(s, b, Patterns(Way(s, b)) + [OpAt(s, b).value.pattern]);
      if Mounts(s, b, at) && b != path {
        StartOrder(s, path, b);
      }
    }
    FirstWins(mws, es, at, Start(s, path));
  }

  // ---------------------------------------------------------------------------
  // The whole chain around a leaf
  // ---------------------------------------------------------------------------

  /** The x-th thing met on way is a mount whose Route call, inside a callback or not, is the first for it. */
  ghost predicate FirstThere(s: Script, way: seq<Meets>, x: nat) {
    x < |way| && exists b: Path :: MountsFirst(s, b, Patterns(way[..x + 1])) && Way(s, b) == way[..x]
  }

  /** The Route calls around a call are the mounts on its way, each with what is met before as its own way. */
  lemma {:induction false} EnterCall(s: Script, path: Path, x: nat) returns (b: Path)
    requires OpAt(s, path).Some? && x < |Way(s, path)| && Way(s, path)[x].Enter?
    ensures OpAt(s, b).Some? && OpAt(s, b).value.Route? && OpAt(s, b).value.pattern == Way(s, path)[x].pattern
    ensures Way(s, b) == Way(s, path)[..x]
    decreases |path|
  {
    var i, op, way := path[0], Nth(s, path[0]).value, Way(s, path);
    var uses := Wraps(Uses(s, i));
    var before := uses + if op.Route? then [Enter(op.pattern)] else [];
    if |path| == 1 {
      WayOne(s, path);
      assert false;
    } else {
      var body := Body(op).value;
      assert path == [i] + path[1..];
      WayInside(s, i, path[1..]);
      CutJoined(before, Way(body, path[1..]), x);
      if x < |before| {
        b := [i];
        WayOne(s, b);
        assert before[..x] == uses;
      } else {
        var inner := EnterCall(body, path[1..], x - |before|);
        WayInside(s, i, inner);
        b := [i] + inner;
      }
    }
  }

  lemma CutJoined(a: seq<Meets>, b: seq<Meets>, x: nat)
    requires x < |a + b|
    ensures (a + b)[x] == if x < |a| then a[x] else b[x - |a|]
    ensures (a + b)[..x] == if x < |a| then a[..x] else a + b[..x - |a|]
  {
  }

  lemma WayOne(s: Script, path: Path)
    requires OpAt(s, path).Some? && |path| == 1
    ensures Way(s, path) == Wraps(Uses(s, path[0]))
  {
  }

  lemma WayInside(s: Script, i: nat, inner: Path)
    requires Nth(s, i).Some? && Body(Nth(s, i).value).Some? && OpAt(Body(Nth(s, i).value).value, inner).Some?
    ensures var op := Nth(s, i).value;
      && OpAt(s, [i] + inner) == OpAt(Body(op).value, inner)
      && Way(s, [i] + inner) ==
         Wraps(Uses(s, i)) + (if op.Route? then [Enter(op.pattern)] else []) + Way(Body(op).value, inner)
  {
    var path := [i] + inner;
    assert path[0] == i && path[1..] == inner && |path| > 1;
  }

  lemma PatternsAfter(way: seq<Meets>, x: nat)
    requires x < |way| && way[x].Enter?
    ensures Patterns(way[..x + 1]) == Patterns(way[..x]) + [way[x].pattern]
  {
    assert way[..x + 1][..x] == way[..x];
  }

  /** With every mount on the way made there, the mounts and the leaf have around them all that is met, in order. */
  lemma {:induction false} MountsMeet(t: Tree<Middleware>, way: seq<Meets>)
    requires forall x :: 0 <= x < |way| && way[x].Enter? ==>
      Patterns(way[..x + 1]) in t.mounts && t.mounts[Patterns(way[..x + 1])] == Since(way[..x])
    ensures MountChain(t, Patterns(way)) + Since(way) == Met(way)
  {
    if way != [] {
      var n := |way| - 1;
      forall x | 0 <= x < n && way[..n][x].Enter?
        ensures Patterns(way[..n][..x + 1]) in t.mounts
        ensures t.mounts[Patterns(way[..n][..x + 1])] == Since(way[..n][..x])
      {
        assert way[..n][..x + 1] == way[..x + 1] && way[..n][..x] == way[..x];
      }
      MountsMeet(t, way[..n]);
      assert way[..n + 1] == way;
      if way[n].Enter? {
        PatternsAfter(way, n);
        assert Patterns(way)[..|Patterns(way)| - 1] == Patterns(way[..n]);
        assert Since(way) == [] && Met(way) == Met(way[..n]) + [];
      } else {
        var m := way[n].mw;
        assert Patterns(way) == Patterns(way[..n]) + [] == Patterns(way[..n]);
        assert Since(way) == Since(way[..n]) + [m] && Met(way) == Met(way[..n]) + [m];
        assert MountChain(t, Patterns(way)) + (Since(way[..n]) + [m]) ==
          (MountChain(t, Patterns(way)) + Since(way[..n])) + [m];
      }
    }
  }

  /** What lies around a recorded leaf that is not taken down, and the mounts it is under. */
  lemma LeafChain(r: Records, path: Path, k: Key)
    requires NoUse(r.ops) && ServesLast(ScriptOf(r.ops), path, k) && k !in Down(RemovedOf(r.journal))
    ensures k in PlanOf(r).leaves && PlanOf(r).leaves[k].Live?
    ensures PlanOf(r).leaves[k].handler == OpAt(ScriptOf(r.ops), path).value.handler
    ensures Chain(PlanOf(r), k) ==
      r.mws + MountChain(PlanOf(r), k.mounts)
      + (Since(Way(ScriptOf(r.ops), path)) + OpAt(ScriptOf(r.ops), path).value.mws)
  {
    LeafIs(r.mws, r.ops, path, k);
    TopKept(Tree(r.mws, map[], map[]), AllEntries(r.ops));
  }

  /** The mounts on way, if the Route calls that made them are the first for them. */
  lemma MountsOn(r: Records, way: seq<Meets>)
    requires NoUse(r.ops)
    requires forall x :: 0 <= x < |way| && way[x].Enter? ==> FirstThere(ScriptOf(r.ops), way, x)
    ensures MountChain(PlanOf(r), Patterns(way)) + Since(way) == Met(way)
  {
    forall x | 0 <= x < |way| && way[x].Enter?
      ensures Patterns(way[..x + 1]) in PlanOf(r).mounts
      ensures PlanOf(r).mounts[Patterns(way[..x + 1])] == Since(way[..x])
    {
      assert FirstThere(ScriptOf(r.ops), way, x);
      var b: Path :| MountsFirst(ScriptOf(r.ops), b, Patterns(way[..x + 1])) && Way(ScriptOf(r.ops), b) == way[..x];
      MountIs(r.mws, r.ops, b, Patterns(way[..x + 1]));
    }
    MountsMeet(PlanOf(r), way);
  }

  /**
    The chain around a recorded leaf: the middleware of the whole router, then that of all
    Use calls before it in the callbacks around it, outermost first, then its own. This is
    so if every mount it is under was made by the Route calls around it.
   */
  lemma ChainIs(r: Records, path: Path, k: Key)
    requires NoUse(r.ops) && ServesLast(ScriptOf(r.ops), path, k) && k !in Down(RemovedOf(r.journal))
    requires var way := Way(ScriptOf(r.ops), path);
      forall x :: 0 <= x < |way| && way[x].Enter? ==> FirstThere(ScriptOf(r.ops), way, x)
    ensures Chain(PlanOf(r), k) ==
      r.mws + Met(Way(ScriptOf(r.ops), path)) + OpAt(ScriptOf(r.ops), path).value.mws
  {
    var way, own := Way(ScriptOf(r.ops), path), OpAt(ScriptOf(r.ops), path).value.mws;
    LeafChain(r, path, k);
    MountsOn(r, way);
    Regroup(r.mws, MountChain(PlanOf(r), k.mounts), Since(way), own);
  }

  lemma Regroup<M>(a: seq<M>, b: seq<M>, c: seq<M>, d: seq<M>)
    ensures a + b + (c + d) == a + (b + c) + d
  {
  }

  lemma {:induction false} TopKept(t: Tree<Middleware>, es: seq<Entry>)
    ensures PutAll(t, es).top == t.top
  {
    if es != [] {
      TopKept(t, es[..|es| - 1]);
    }
  }

  // ---------------------------------------------------------------------------
  // The first Route call for a mount
  // ---------------------------------------------------------------------------

  lemma FirstMounted(es: seq<Entry>, at: seq<string>, j: nat) returns (i: nat)
    requires j < |es| && es[j].Mounted? && es[j].at == at
    ensures FirstAt(es, at, i)
  {
    i := 0;
    while !(es[i].Mounted? && es[i].at == at)
      invariant i <= j && forall n :: 0 <= n < i ==> !(es[n].Mounted? && es[n].at == at)
      decreases j - i
    {
      i := i + 1;
    }
  }

  lemma MountOrigin(s: Script, j: nat) returns (b: Path)
    requires j < |Flat(TOP, s)| && Flat(TOP, s)[j].Mounted?
    ensures Mounts(s, b, Flat(TOP, s)[j].at) && Start(s, b) == j
  {
    b := Origin(TOP, s, j);
    MountStands(s, b, Patterns(Way(s, b)) + [OpAt(s, b).value.pattern]);
  }

  lemma PatternsInside(s: Script, i: nat, inner: Path)
    requires Nth(s, i).Some? && Body(Nth(s, i).value).Some? && OpAt(Body(Nth(s, i).value).value, inner).Some?
    ensures var op := Nth(s, i).value;
      && OpAt(s, [i] + inner) == OpAt(Body(op).value, inner)
      && Patterns(Way(s, [i] + inner)) ==
         (if op.Route? then [op.pattern] else []) + Patterns(Way(Body(op).value, inner))
  {
    var op, uses := Nth(s, i).value, Wraps(Uses(s, i));
    WayInside(s, i, inner);
    WrapsAre(Uses(s, i));
    var enter := if op.Route? then [Enter(op.pattern)] else [];
    WayJoin(uses + enter, Way(Body(op).value, inner));
    WayJoin(uses, enter);
    if op.Route? {
      EnterIs(op.pattern);
    }
  }

  /** A call is not inside one for the same mount. */
  lemma {:induction false} DeeperMount(s: Script, a: Path, b: Path)
    requires OpAt(s, a).Some? && OpAt(s, a).value.Route? && OpAt(s, b).Some? && a <= b && a != b
    ensures |Patterns(Way(s, a))| < |Patterns(Way(s, b))|
    decreases |a|
  {
    var i := a[0];
    assert b == [i] + b[1..];
    PatternsInside(s, i, b[1..]);
    if |a| == 1 {
      WayOne(s, a);
      WrapsAre(Uses(s, i));
    } else {
      assert a == [i] + a[1..];
      PatternsInside(s, i, a[1..]);
      DeeperMount(Body(Nth(s, i).value).value, a[1..], b[1..]);
    }
  }

  /** Every mount that some Route call attaches to was made by the first one. */
  lemma FirstMounter(s: Script, path: Path, at: seq<string>) returns (b: Path)
    requires Mounts(s, path, at)
    ensures MountsFirst(s, b, at)
  {
    MountStands(s, path, at);
    var i := FirstMounted(Flat(TOP, s), at, Start(s, path));
    b := MountOrigin(s, i);
    forall c: Path | Mounts(s, c, at) && c != b
      ensures Before(b, c)
    {
      MountStands(s, c, at);
      if b <= c {
        DeeperMount(s, b, c);
      } else if c <= b {
        DeeperMount(s, c, b);
      } else {
        Comparable(b, c);
        if Before(c, b) {
          StartOrder(s, c, b);
        }
      }
    }
  }

  // ---------------------------------------------------------------------------
  // Which middleware is around a leaf
  // ---------------------------------------------------------------------------

  /** The x-th thing met on way is a mount, and m is met since the one before by the first Route call for it. */
  ghost predicate AroundMount(s: Script, way: seq<Meets>, x: nat, m: Middleware) {
    && x < |way| && way[x].Enter?
    && exists b: Path :: MountsFirst(s, b, Patterns(way[..x + 1])) && m in Since(Way(s, b))
  }

  lemma {:induction false} MountChainHas(t: Tree<Middleware>, way: seq<Meets>, m: Middleware)
    ensures m in MountChain(t, Patterns(way)) <==> exists x: nat :: OnMount(t, way, x, m)
    decreases |way|
  {
    if way != [] {
      var n := |way| - 1;
      var init := way[..n];
      MountChainHas(t, init, m);
      forall x: nat
        ensures x < n ==> (OnMount(t, init, x, m) <==> OnMount(t, way, x, m))
      {
        assert x < n ==> init[..x + 1] == way[..x + 1];
      }
      assert way[..n + 1] == way;
      if way[n].Enter? {
        PatternsAfter(way, n);
        assert Patterns(way)[..|Patterns(way)| - 1] == Patterns(init);
        assert OnMount(t, way, n, m) <==> Patterns(way) in t.mounts && m in t.mounts[Patterns(way)];
      } else {
        assert Patterns(way) == Patterns(init) + [] == Patterns(init);
        assert !OnMount(t, way, n, m);
      }
    }
  }

  ghost predicate OnMount(t: Tree<Middleware>, way: seq<Meets>, x: nat, m: Middleware) {
    && x < |way| && way[x].Enter?
    && Patterns(way[..x + 1]) in t.mounts && m in t.mounts[Patterns(way[..x + 1])]
  }

  /**
    Exactly which middleware is around a recorded leaf: that of the whole router, its own,
    that of the Use calls before it since the last mount, and, for every mount it is under,
    that of the Use calls before the first Route call for it. A Use before a later Route
    call for the same mount does nothing.
   */
  lemma AroundIff(r: Records, path: Path, k: Key, m: Middleware)
    requires NoUse(r.ops) && ServesLast(ScriptOf(r.ops), path, k) && k !in Down(RemovedOf(r.journal))
    ensures var s := ScriptOf(r.ops);
      m in Chain(PlanOf(r), k) <==>
        || m in r.mws || m in OpAt(s, path).value.mws || m in Since(Way(s, path))
        || exists x: nat :: AroundMount(s, Way(s, path), x, m)
  {
    var s := ScriptOf(r.ops);
    var way := Way(s, path);
    LeafChain(r, path, k);
    MountChainHas(PlanOf(r), way, m);
    forall x: nat
      ensures OnMount(PlanOf(r), way, x, m) <==> AroundMount(s, way, x, m)
    {
      if x < |way| && way[x].Enter? {
        MountOf(r, path, x);
      }
    }
  }

  lemma MountOf(r: Records, path: Path, x: nat)
    requires NoUse(r.ops) && OpAt(ScriptOf(r.ops), path).Some?
    requires x < |Way(ScriptOf(r.ops), path)| && Way(ScriptOf(r.ops), path)[x].Enter?
    ensures var s := ScriptOf(r.ops);
      var at := Patterns(Way(s, path)[..x + 1]);
      && at in PlanOf(r).mounts
      && forall m :: m in PlanOf(r).mounts[at] <==> AroundMount(s, Way(s, path), x, m)
  {
    var s := ScriptOf(r.ops);
    var way := Way(s, path);
    var at := Patterns(way[..x + 1]);
    var b := EnterCall(s, path, x);
    PatternsAfter(way, x);
    var first := FirstMounter(s, b, at);
    MountIs(r.mws, r.ops, first, at);
    forall c: Path | MountsFirst(s, c, at)
      ensures c == first
    {
      if c != first {
        StartOrder(s, c, first);
        StartOrder(s, first, c);
      }
    }
  }

  // ---------------------------------------------------------------------------
  // The kill switch, told by the callbacks
  // ---------------------------------------------------------------------------

  /** A middleware met on the way is met since the last mount, or before one and since the one before that. */
  lemma {:induction false} MetWhere(way: seq<Meets>, m: Middleware) returns (x: nat)
    requires m in Met(way)
    ensures x <= |way| && (x == |way| || way[x].Enter?) && m in Since(way[..x])
    decreases |way|
  {
    var n := |way| - 1;
    assert way[..|way|] == way;
    if way[n].Wrap? && way[n].mw == m {
      x := |way|;
    } else {
      x := MetWhere(way[..n], m);
      if x == n {
        x := if way[n].Enter? then n else |way|;
      }
      assert x <= n ==> way[..n][..x] == way[..x];
      assert way[..n][..n] == way[..n];
    }
  }

  /**
    Once the service of a middleware is removed, every leaf whose Handle call follows a Use
    of it, in the same callback or one inside it at any depth, answers 503; unless a mount
    lies between them that an earlier Route call had made.
   */
  lemma UseRefuses(r: Records, s: string, path: Path, k: Key, m: Middleware)
    requires NoUse(r.ops) && ServesLast(ScriptOf(r.ops), path, k) && OwnedBy(r.env, s, m)
    requires m in Met(Way(ScriptOf(r.ops), path))
    requires var way := Way(ScriptOf(r.ops), path);
      forall x :: 0 <= x < |way| && way[x].Enter? && m in Since(way[..x]) ==> FirstThere(ScriptOf(r.ops), way, x)
    ensures Answered(TreeOf(Removing(r, s)), k) == Refused
  {
    var way := Way(ScriptOf(r.ops), path);
    if k in Down(RemovedOf(r.journal)) {
      StaysDown(r, s, k);
    } else {
      var x := MetWhere(way, m);
      if x < |way| {
        assert FirstThere(ScriptOf(r.ops), way, x);
        assert AroundMount(ScriptOf(r.ops), way, x, m);
      } else {
        assert way[..x] == way;
      }
      AroundIff(r, path, k, m);
      LeafChain(r, path, k);
      var i :| 0 <= i < |Chain(PlanOf(r), k)| && Chain(PlanOf(r), k)[i] == m;
      MiddlewareRefuses(r, s, k);
    }
  }

  lemma StaysDown(r: Records, s: string, k: Key)
    requires k in Down(RemovedOf(r.journal))
    ensures Answered(TreeOf(Removing(r, s)), k) == Refused
  {
    var q := Removing(r, s);
    KillTakesDown(r.journal, s);
    assert k in PlanOf(q).leaves && PlanOf(q).leaves[k] == Unavailable;
    assert k in TreeOf(q).leaves && TreeOf(q).leaves[k] == Unavailable;
  }

  // ---------------------------------------------------------------------------
  // Patterns and names as they are booked
  // ---------------------------------------------------------------------------

  /** The patterns of the mounts on the way, spelled from the root. */
  function Spelled(way: seq<Meets>): string {
    if way == [] then "" else (if way[0].Enter? then way[0].pattern else "") + Spelled(way[1..])
  }

  lemma {:induction false} SpelledMore(way: seq<Meets>, x: Meets)
    ensures Spelled(way + [x]) == Spelled(way) + if x.Enter? then x.pattern else ""
  {
    if way == [] {
      assert way + [x] == [x];
      assert Spelled([x][1..]) == "";
    } else {
      SpelledMore(way[1..], x);
      TailOfJoined(way, x);
    }
  }

  lemma TailOfJoined(way: seq<Meets>, x: Meets)
    requires way != []
    ensures (way + [x])[0] == way[0] && (way + [x])[1..] == way[1..] + [x]
  {
  }

  lemma {:induction false} SpelledIs(way: seq<Meets>)
    ensures Concat(Patterns(way)) == Spelled(way)
  {
    if way != [] {
      var init, x := way[..|way| - 1], way[|way| - 1];
      assert way == init + [x];
      SpelledIs(init);
      SpelledMore(init, x);
      if x.Enter? {
        assert Patterns(way)[..|Patterns(way)| - 1] == Patterns(init);
      } else {
        assert Patterns(way) == Patterns(init) + [] == Patterns(init);
      }
    }
  }

  /**
    A route is booked with the patterns of the Route calls around its Handle call, spelled
    from the root, before its own, and with the names of the whole router's middleware so
    far, of all Use calls before it in the callbacks around it, and of its own.
   */
  lemma BookedAs(scope: seq<string>, s: Script, path: Path, k: Key, e: Entry)
    requires ServesLeaf(s, path, k) && LeafEntry(s, path, k, e)
    ensures var op := OpAt(s, path).value;
      && Record(scope, e).verb == k.verb
      && Record(scope, e).path == Spelled(Way(s, path)) + op.path
      && Record(scope, e).middleware == scope + (NamesOf(Met(Way(s, path))) + NamesOf(op.mws))
  {
    SpelledIs(Way(s, path));
  }

  /** The names of a list of middleware: those of its members that have one, in order. */
  lemma NamesListed(mws: seq<Middleware>, m: Middleware)
    ensures NamesOf([]) == [] && NamesOf(mws + [m]) == NamesOf(mws) + if m.name == "" then [] else [m.name]
  {
    assert (mws + [m])[..|mws|] == mws;
  }

  // ---------------------------------------------------------------------------
  // Inputs that show it
  // ---------------------------------------------------------------------------

  /** A middleware and two routes under one pattern, with handlers 1 and 2. */
  datatype Guarded = Guarded(m: Middleware, s: string, verb: string, pattern: string, a: string, b: string)

  ghost function RouteOf(c: Guarded, path: string, handler: nat): Op {
    Handle(c.s, c.verb, path, handler, [])
  }

  /** A callback that uses the middleware and then has the second route. */
  ghost function Guard(c: Guarded): Op {
    Group(Then(Op.Use(c.m), Then(RouteOf(c, c.b, 2), End)))
  }

  /** The same, with the second route under the pattern. */
  ghost function GuardMount(c: Guarded): Op {
    Group(Then(Op.Use(c.m), Then(Route(c.pattern, Then(RouteOf(c, c.b, 2), End)), End)))
  }

  /** The first route under the pattern. */
  ghost function Open(c: Guarded): Op {
    Route(c.pattern, Then(RouteOf(c, c.a, 1), End))
  }

  lemma OneHandle(c: Guarded, p: Place, path: string, handler: nat)
    requires c.verb != "GET"
    ensures Flat(p, Then(RouteOf(c, path, handler), End)) ==
      [Serve(Key(p.mounts, c.verb, path), p.chain, handler, c.s, p.scope, false)]
  {
    var op := RouteOf(c, path, handler);
    assert Checks([]) == [] && NamesOf([]) == [] && p.chain + [] == p.chain && p.scope + [] == p.scope;
    assert Entries(p, op) == Serves(p, op);
    assert Flat(p, End) == [];
    assert Entries(p, op) + [] == Entries(p, op);
  }

  lemma GuardEntries(c: Guarded)
    requires c.verb != "GET"
    ensures AllEntries([Guard(c)]) ==
      [Applied(c.m), Serve(Key([], c.verb, c.b), [c.m], 2, c.s, NamesOf([c.m]), false)]
  {
    var p := After(TOP, Op.Use(c.m));
    OneHandle(c, p, c.b, 2);
    assert p == Place([], [c.m], NamesOf([c.m]));
    assert Entries(TOP, Op.Use(c.m)) == [Applied(c.m)];
    assert [] + [Guard(c)] == [Guard(c)];
    EntriesMore([], Guard(c));
  }

  /** A Use in a callback is around the routes after it. */
  lemma GuardedLeaf(c: Guarded, r: Records)
    requires c.verb != "GET" && c.m.Direct? && r.mws == [] && r.ops == [Guard(c)] && RemovedOf(r.journal) == map[]
    ensures Request(TreeOf(r), Key([], c.verb, c.b)) == Handled([Pass(c.m.fn)], 2)
  {
    var k := Key([], c.verb, c.b);
    GuardEntries(c);
    var es := AllEntries(r.ops);
    assert LastAt(es, k, 1);
    LastWins(r.mws, es, k, 1);
    assert Chain(PlanOf(r), k) == [c.m] by {
      TopKept(Tree(r.mws, map[], map[]), es);
      assert Down(map[]) == {};
    }
    PlainAnswer(r, k);
    assert Links(r.env, [c.m]) == [Pass(c.m.fn)];
  }

  /** What a leaf answers on a router from which nothing was removed, and whose own middleware is none. */
  lemma PlainAnswer(r: Records, k: Key)
    requires r.mws == [] && RemovedOf(r.journal) == map[]
    requires AtTop(k) !in PutAll(Tree(r.mws, map[], map[]), AllEntries(r.ops)).leaves || k.mounts == []
    requires k in PutAll(Tree(r.mws, map[], map[]), AllEntries(r.ops)).leaves
    requires PutAll(Tree(r.mws, map[], map[]), AllEntries(r.ops)).leaves[k].Live?
    requires forall i :: 0 <= i < |Chain(PlanOf(r), k)| ==> Chain(PlanOf(r), k)[i].Direct?
    ensures var leaf := PutAll(Tree(r.mws, map[], map[]), AllEntries(r.ops)).leaves[k];
      Request(TreeOf(r), k) == Handled(Links(r.env, Chain(PlanOf(r), k)), leaf.handler)
  {
    var t := PutAll(Tree(r.mws, map[], map[]), AllEntries(r.ops));
    assert Down(map[]) == {};
    OverlayNone(t);
    TopKept(Tree(r.mws, map[], map[]), AllEntries(r.ops));
    ChainResolves(r.env, PlanOf(r), k);
    assert k.mounts == [] ==> AtTop(k) == k;
    assert forall i :: 0 <= i < |Chain(PlanOf(r), k)| ==> Links(r.env, Chain(PlanOf(r), k))[i].Pass?;
  }

  lemma MountEntries(c: Guarded)
    requires c.verb != "GET"
    ensures AllEntries([Open(c), GuardMount(c)]) ==
      [Mounted([c.pattern], []), Serve(Key([c.pattern], c.verb, c.a), [], 1, c.s, [], false)]
      + [Applied(c.m), Mounted([c.pattern], [c.m]),
         Serve(Key([c.pattern], c.verb, c.b), [], 2, c.s, NamesOf([c.m]), false)]
  {
    var p := After(TOP, Op.Use(c.m));
    assert p == Place([], [c.m], NamesOf([c.m]));
    assert TOP.mounts + [c.pattern] == [c.pattern];
    OneHandle(c, Inside(TOP, c.pattern), c.a, 1);
    OneHandle(c, Inside(p, c.pattern), c.b, 2);
    assert Entries(TOP, Open(c)) ==
      [Mounted([c.pattern], []), Serve(Key([c.pattern], c.verb, c.a), [], 1, c.s, [], false)];
    assert Flat(p, Then(Route(c.pattern, Then(RouteOf(c, c.b, 2), End)), End)) ==
      Entries(p, Route(c.pattern, Then(RouteOf(c, c.b, 2), End))) + [];
    assert Entries(TOP, Op.Use(c.m)) == [Applied(c.m)];
    assert [Open(c)] + [GuardMount(c)] == [Open(c), GuardMount(c)] && [] + [Open(c)] == [Open(c)];
    EntriesMore([], Open(c));
    EntriesMore([Open(c)], GuardMount(c));
  }

  /**
    The mount exists already: the second Route call for it joins it, and the middleware
    used before that call is not around its route.
   */
  lemma UseBeforeJoining(c: Guarded, r: Records)
    requires c.verb != "GET" && c.a != c.b && c.m.Direct?
    requires r.mws == [] && r.ops == [Open(c), GuardMount(c)] && RemovedOf(r.journal) == map[]
    ensures Request(TreeOf(r), Key([c.pattern], c.verb, c.b)) == Handled([], 2)
  {
    var k, at := Key([c.pattern], c.verb, c.b), [c.pattern];
    MountEntries(c);
    var es := AllEntries(r.ops);
    var t := PutAll(Tree(r.mws, map[], map[]), es);
    assert LastAt(es, k, 4);
    LastWins(r.mws, es, k, 4);
    assert FirstAt(es, at, 0);
    FirstWins(r.mws, es, at, 0);
    NoTopLeaf(r, k);
    assert Chain(PlanOf(r), k) == [] by {
      TopKept(Tree(r.mws, map[], map[]), es);
      assert Down(map[]) == {} && at[..0] == [];
      assert MountChain(PlanOf(r), at[..0]) == [];
    }
    PlainAnswer(r, k);
  }

  lemma NoTopLeaf(r: Records, k: Key)
    requires forall i :: 0 <= i < |AllEntries(r.ops)| && AllEntries(r.ops)[i].Serve? ==>
      AllEntries(r.ops)[i].key.mounts != []
    ensures AtTop(k) !in PutAll(Tree(r.mws, map[], map[]), AllEntries(r.ops)).leaves
  {
    if AtTop(k) in PutAll(Tree(r.mws, map[], map[]), AllEntries(r.ops)).leaves {
      var i := LeafHasEntry(r.mws, AllEntries(r.ops), AtTop(k));
    }
  }
}
