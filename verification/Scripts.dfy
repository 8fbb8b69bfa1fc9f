/**
  What the calls in callbacks come to, told by where each call stands: by the Use and
  Route calls that come before it in the callbacks around it.
 */
module Scripts {
  import opened Wrappers
  import opened Routes
  import opened RouterRecords

  // ---------------------------------------------------------------------------
  // Places in a script
  // ---------------------------------------------------------------------------

  /** A call in a script: its number there, and if it is inside a callback, its place in that. */
  type Path = seq<nat>

  function Nth(s: Script, i: nat): Option<Op> {
    match s
    case End => None
    case Then(op, rest) => if i == 0 then Some(op) else Nth(rest, i - 1)
  }

  function Body(op: Op): Option<Script> {
    match op
    case Group(body) => Some(body)
    case Route(_, body) => Some(body)
    case _ => None
  }

  function OpAt(s: Script, path: Path): Option<Op>
    decreases |path|
  {
    if path == [] || Nth(s, path[0]).None? then None
    else
      var op := Nth(s, path[0]).value;
      if |path| == 1 then Some(op)
      else if Body(op).None? then None
      else OpAt(Body(op).value, path[1..])
  }

  /** The middleware of the Use calls among the first i calls of s. */
  function Uses(s: Script, i: nat): seq<Middleware> {
    match s
    case End => []
    case Then(op, rest) => if i == 0 then [] else (if op.Use? then [op.mw] else []) + Uses(rest, i - 1)
  }

  /** What a request meets on its way in: a middleware or the pattern of a mount. */
  datatype Meets = Wrap(mw: Middleware) | Enter(pattern: string)

  function Wraps(ms: seq<Middleware>): seq<Meets> {
    seq(|ms|, i requires 0 <= i < |ms| => Wrap(ms[i]))
  }

  /** What lies on the way to the call at path, outermost first: the Use calls before it, or before what it is in. */
  function Way(s: Script, path: Path): seq<Meets>
    requires OpAt(s, path).Some?
    decreases |path|
  {
    var op := Nth(s, path[0]).value;
    Wraps(Uses(s, path[0])) +
    if |path| == 1 then []
    else (if op.Route? then [Enter(op.pattern)] else []) + Way(Body(op).value, path[1..])
  }

  function Patterns(way: seq<Meets>): seq<string> {
    if way == [] then []
    else Patterns(way[..|way| - 1]) + if way[|way| - 1].Enter? then [way[|way| - 1].pattern] else []
  }

  /** All middleware on the way. */
  function Met(way: seq<Meets>): seq<Middleware> {
    if way == [] then []
    else Met(way[..|way| - 1]) + if way[|way| - 1].Wrap? then [way[|way| - 1].mw] else []
  }

  /** The middleware met since the last mount. */
  function Since(way: seq<Meets>): seq<Middleware> {
    if way == [] || way[|way| - 1].Enter? then []
    else Since(way[..|way| - 1]) + [way[|way| - 1].mw]
  }

  // ---------------------------------------------------------------------------
  // The entry of each call
  // ---------------------------------------------------------------------------

  /** Where the way leads from p. */
  ghost predicate LeadsTo(p: Place, way: seq<Meets>, q: Place) {
    && q.mounts == p.mounts + Patterns(way)
    && q.chain == (if Patterns(way) == [] then p.chain else []) + Since(way)
    && q.scope == p.scope + NamesOf(Met(way))
  }

  lemma WayMore(a: seq<Meets>, x: Meets)
    ensures Patterns(a + [x]) == Patterns(a) + if x.Enter? then [x.pattern] else []
    ensures Met(a + [x]) == Met(a) + if x.Wrap? then [x.mw] else []
    ensures Since(a + [x]) == if x.Enter? then [] else Since(a) + [x.mw]
  {
    assert (a + [x])[..|a|] == a;
  }

  lemma WayJoin(a: seq<Meets>, b: seq<Meets>)
    ensures Patterns(a + b) == Patterns(a) + Patterns(b) && Met(a + b) == Met(a) + Met(b)
    ensures Since(a + b) == (if Patterns(b) == [] then Since(a) else []) + Since(b)
  {
    PatternsJoin(a, b);
    MetJoin(a, b);
    SinceJoin(a, b);
  }

  lemma Joined(a: seq<Meets>, b: seq<Meets>)
    requires b != []
    ensures b == b[..|b| - 1] + [b[|b| - 1]]
    ensures a + b == (a + b[..|b| - 1]) + [b[|b| - 1]]
  {
  }

  lemma {:induction false} PatternsJoin(a: seq<Meets>, b: seq<Meets>)
    ensures Patterns(a + b) == Patterns(a) + Patterns(b)
    decreases |b|
  {
    if b == [] {
      assert a + b == a;
    } else {
      PatternsJoin(a, b[..|b| - 1]);
      WayMore(a + b[..|b| - 1], b[|b| - 1]);
      Joined(a, b);
    }
  }

  lemma {:induction false} MetJoin(a: seq<Meets>, b: seq<Meets>)
    ensures Met(a + b) == Met(a) + Met(b)
    decreases |b|
  {
    if b == [] {
      assert a + b == a;
    } else {
      MetJoin(a, b[..|b| - 1]);
      WayMore(a + b[..|b| - 1], b[|b| - 1]);
      Joined(a, b);
    }
  }

  lemma {:induction false} SinceJoin(a: seq<Meets>, b: seq<Meets>)
    ensures Since(a + b) == (if Patterns(b) == [] then Since(a) else []) + Since(b)
    decreases |b|
  {
    if b == [] {
      assert a + b == a;
    } else {
      var init, x := b[..|b| - 1], b[|b| - 1];
      SinceJoin(a, init);
      SinceMore(a, init, x);
      Joined(a, b);
    }
  }

  lemma SinceMore(a: seq<Meets>, b: seq<Meets>, x: Meets)
    requires Since(a + b) == (if Patterns(b) == [] then Since(a) else []) + Since(b)
    ensures Since((a + b) + [x]) == (if Patterns(b + [x]) == [] then Since(a) else []) + Since(b + [x])
  {
    WayMore(a + b, x);
    WayMore(b, x);
    if x.Enter? {
      assert |Patterns(b + [x])| > 0;
    } else {
      assert Patterns(b + [x]) == Patterns(b);
    }
  }

  lemma {:induction false} WrapsAre(ms: seq<Middleware>)
    ensures Patterns(Wraps(ms)) == [] && Met(Wraps(ms)) == ms && Since(Wraps(ms)) == ms
  {
    if ms != [] {
      WrapsAre(ms[..|ms| - 1]);
      assert Wraps(ms)[..|ms| - 1] == Wraps(ms[..|ms| - 1]);
    }
  }

  lemma EnterIs(pattern: string)
    ensures Patterns([Enter(pattern)]) == [pattern] && Met([Enter(pattern)]) == [] && Since([Enter(pattern)]) == []
  {
    assert [Enter(pattern)][..0] == [];
  }

  lemma LeadsOn(p: Place, a: seq<Meets>, q: Place, b: seq<Meets>, r: Place)
    requires LeadsTo(p, a, q) && LeadsTo(q, b, r)
    ensures LeadsTo(p, a + b, r)
  {
    WayJoin(a, b);
    MountsOn(p, a, q, b, r);
    ScopeOn(p, a, q, b, r);
    ChainOn(p.chain, Patterns(a), Since(a), Patterns(b), Since(b));
  }

  lemma MountsOn(p: Place, a: seq<Meets>, q: Place, b: seq<Meets>, r: Place)
    requires LeadsTo(p, a, q) && LeadsTo(q, b, r)
    ensures r.mounts == p.mounts + (Patterns(a) + Patterns(b))
  {
  }

  lemma ScopeOn(p: Place, a: seq<Meets>, q: Place, b: seq<Meets>, r: Place)
    requires LeadsTo(p, a, q) && LeadsTo(q, b, r)
    ensures r.scope == p.scope + NamesOf(Met(a) + Met(b))
  {
    NamesJoin(Met(a), Met(b));
    Assoc(p.scope, NamesOf(Met(a)), NamesOf(Met(b)));
  }

  lemma Assoc(a: seq<string>, b: seq<string>, c: seq<string>)
    ensures (a + b) + c == a + (b + c)
  {
  }

  lemma ChainOn(
      chain: seq<Middleware>, pa: seq<string>, a: seq<Middleware>, pb: seq<string>, b: seq<Middleware>)
    ensures (if pb == [] then (if pa == [] then chain else []) + a else []) + b ==
      (if pa + pb == [] then chain else []) + ((if pb == [] then a else []) + b)
  {
    assert pa + pb == [] <==> pa == [] && pb == [];
    assert pb == [] ==> (chain + a) + b == chain + (a + b) && ([] + a) + b == [] + (a + b);
  }

  lemma LeadsNowhere(p: Place)
    ensures LeadsTo(p, [], p)
  {
    assert NamesOf([]) == [];
  }

  lemma WrapsJoin(a: seq<Middleware>, b: seq<Middleware>)
    ensures Wraps(a + b) == Wraps(a) + Wraps(b)
  {
  }

  lemma UseLeads(p: Place, m: Middleware)
    ensures LeadsTo(p, Wraps([m]), After(p, Op.Use(m)))
  {
    WrapsAre([m]);
  }

  /** The place of the i-th call of s, which stands at p. */
  lemma {:induction false} UsesLead(p: Place, s: Script, i: nat)
    ensures LeadsTo(p, Wraps(Uses(s, i)), Stand(p, s, i))
    decreases i
  {
    if i == 0 || s.End? {
      assert Wraps(Uses(s, i)) == [];
      LeadsNowhere(p);
    } else {
      var rest := Uses(s.rest, i - 1);
      UsesLead(After(p, s.op), s.rest, i - 1);
      if s.op.Use? {
        UseLeads(p, s.op.mw);
        WrapsJoin([s.op.mw], rest);
        LeadsOn(p, Wraps([s.op.mw]), After(p, s.op), Wraps(rest), Stand(p, s, i));
      } else {
        assert [] + rest == rest;
      }
    }
  }

  /** Where the i-th call of s is made. */
  function Stand(p: Place, s: Script, i: nat): Place
    decreases i
  {
    if i == 0 || s.End? then p else Stand(After(p, s.op), s.rest, i - 1)
  }

  /** How many entries a call has. */
  function Size(op: Op): nat
    decreases op
  {
    match op
    case Use(_) => 1
    case Handle(_, verb, _, _, mws) => |mws| + if verb == "GET" then 2 else 1
    case Group(body) => SizeAll(body)
    case Route(_, body) => 1 + SizeAll(body)
  }

  function SizeAll(s: Script): nat
    decreases s
  {
    match s
    case End => 0
    case Then(op, rest) => Size(op) + SizeAll(rest)
  }

  function SizeFirst(s: Script, i: nat): nat {
    if i == 0 || s.End? then 0 else Size(s.op) + SizeFirst(s.rest, i - 1)
  }

  /** How many entries come before those of the call at path. */
  function Start(s: Script, path: Path): nat
    requires OpAt(s, path).Some?
    decreases |path|
  {
    var op := Nth(s, path[0]).value;
    SizeFirst(s, path[0]) +
    if |path| == 1 then 0
    else (if op.Route? then 1 else 0) + Start(Body(op).value, path[1..])
  }

  lemma {:induction false} EntriesSize(p: Place, op: Op)
    ensures |Entries(p, op)| == Size(op)
    decreases op, 0
  {
    match op {
      case Group(body) => FlatSize(p, body);
      case Route(pattern, body) => FlatSize(Inside(p, pattern), body);
      case _ =>
    }
  }

  lemma {:induction false} FlatSize(p: Place, s: Script)
    ensures |Flat(p, s)| == SizeAll(s)
    decreases s, 1
  {
    if s.Then? {
      EntriesSize(p, s.op);
      FlatSize(After(p, s.op), s.rest);
    }
  }

  /** part stands in all from number i on. */
  ghost predicate StandsAt<T>(all: seq<T>, i: nat, part: seq<T>) {
    i + |part| <= |all| && all[i..i + |part|] == part
  }

  lemma StandsIn<T>(all: seq<T>, i: nat, part: seq<T>, j: nat, piece: seq<T>)
    requires StandsAt(all, i, part) && StandsAt(part, j, piece)
    ensures StandsAt(all, i + j, piece)
  {
    var found := all[i + j..i + j + |piece|];
    forall k | 0 <= k < |piece|
      ensures found[k] == piece[k]
    {
      assert piece[k] == part[j..j + |piece|][k] == part[j + k] == all[i..i + |part|][j + k];
    }
  }

  lemma {:induction false} NthStands(p: Place, s: Script, i: nat)
    requires Nth(s, i).Some?
    ensures StandsAt(Flat(p, s), SizeFirst(s, i), Entries(Stand(p, s, i), Nth(s, i).value))
    decreases i
  {
    EntriesSize(p, s.op);
    var here, there := Entries(p, s.op), Flat(After(p, s.op), s.rest);
    if i > 0 {
      NthStands(After(p, s.op), s.rest, i - 1);
      assert StandsAt(here + there, |here|, there);
      StandsIn(here + there, |here|, there, SizeFirst(s.rest, i - 1), Entries(Stand(p, s, i), Nth(s, i).value));
    } else {
      assert StandsAt(here + there, 0, here);
    }
  }

  /**
    The entries of the call at path stand in order among those of the script, and are those
    of the call at the place the way leads to.
   */
  lemma {:induction false} CallStands(p: Place, s: Script, path: Path) returns (q: Place)
    requires OpAt(s, path).Some?
    ensures LeadsTo(p, Way(s, path), q)
    ensures StandsAt(Flat(p, s), Start(s, path), Entries(q, OpAt(s, path).value))
    decreases |path|
  {
    var i, op := path[0], Nth(s, path[0]).value;
    var here := Stand(p, s, i);
    if |path| == 1 {
      q := here;
      NthStands(p, s, i);
      UsesLead(p, s, i);
      assert Way(s, path) == Wraps(Uses(s, i));
    } else {
      q := CallStands(if op.Route? then Inside(here, op.pattern) else here, Body(op).value, path[1..]);
      CallInside(p, s, path, q);
    }
  }

  lemma CallInside(p: Place, s: Script, path: Path, q: Place)
    requires OpAt(s, path).Some? && |path| > 1
    requires var op, here := Nth(s, path[0]).value, Stand(p, s, path[0]);
      var inner, body := if op.Route? then Inside(here, op.pattern) else here, Body(op).value;
      && LeadsTo(inner, Way(body, path[1..]), q)
      && StandsAt(Flat(inner, body), Start(body, path[1..]), Entries(q, OpAt(s, path).value))
    ensures LeadsTo(p, Way(s, path), q)
    ensures StandsAt(Flat(p, s), Start(s, path), Entries(q, OpAt(s, path).value))
  {
    var i, op, here := path[0], Nth(s, path[0]).value, Stand(p, s, path[0]);
    StandsInside(p, s, path, Entries(q, OpAt(s, path).value));
    UsesLead(p, s, i);
    WayInto(p, s, path, here, if op.Route? then Inside(here, op.pattern) else here, q);
  }

  lemma StandsInside(p: Place, s: Script, path: Path, es: seq<Entry>)
    requires OpAt(s, path).Some? && |path| > 1
    requires var op, here := Nth(s, path[0]).value, Stand(p, s, path[0]);
      StandsAt(Flat(if op.Route? then Inside(here, op.pattern) else here, Body(op).value),
        Start(Body(op).value, path[1..]), es)
    ensures StandsAt(Flat(p, s), Start(s, path), es)
  {
    var i, op := path[0], Nth(s, path[0]).value;
    NthStands(p, s, i);
    InnerStands(Flat(p, s), SizeFirst(s, i), Stand(p, s, i), op, Start(Body(op).value, path[1..]), es);
  }

  lemma InnerStands(all: seq<Entry>, i: nat, here: Place, op: Op, j: nat, piece: seq<Entry>)
    requires Body(op).Some? && StandsAt(all, i, Entries(here, op))
    requires StandsAt(Flat(if op.Route? then Inside(here, op.pattern) else here, Body(op).value), j, piece)
    ensures StandsAt(all, i + (if op.Route? then 1 else 0) + j, piece)
  {
    var inner := if op.Route? then Inside(here, op.pattern) else here;
    var skip := if op.Route? then 1 else 0;
    BodyStands(here, op);
    StandsIn(Entries(here, op), skip, Flat(inner, Body(op).value), j, piece);
    StandsIn(all, i, Entries(here, op), skip + j, piece);
  }

  lemma BodyStands(p: Place, op: Op)
    requires Body(op).Some?
    ensures op.Group? ==> StandsAt(Entries(p, op), 0, Flat(p, op.body))
    ensures op.Route? ==> StandsAt(Entries(p, op), 1, Flat(Inside(p, op.pattern), op.body))
  {
  }

  lemma WayInto(p: Place, s: Script, path: Path, here: Place, inner: Place, q: Place)
    requires OpAt(s, path).Some? && |path| > 1
    requires LeadsTo(p, Wraps(Uses(s, path[0])), here)
    requires var op := Nth(s, path[0]).value; inner == if op.Route? then Inside(here, op.pattern) else here
    requires LeadsTo(inner, Way(Body(Nth(s, path[0]).value).value, path[1..]), q)
    ensures LeadsTo(p, Way(s, path), q)
  {
    var op := Nth(s, path[0]).value;
    var uses, rest := Wraps(Uses(s, path[0])), Way(Body(op).value, path[1..]);
    if op.Route? {
      EnterLeads(here, op.pattern);
      LeadsOn(here, [Enter(op.pattern)], inner, rest, q);
      LeadsOn(p, uses, here, [Enter(op.pattern)] + rest, q);
    } else {
      assert [] + rest == rest;
      LeadsOn(p, uses, here, rest, q);
    }
  }

  lemma EnterLeads(p: Place, pattern: string)
    ensures LeadsTo(p, [Enter(pattern)], Inside(p, pattern))
  {
    EnterIs(pattern);
    assert NamesOf([]) == [];
  }

  // ---------------------------------------------------------------------------
  // The order of calls
  // ---------------------------------------------------------------------------

  /** The call at a is made before that at b, and is not around it. */
  predicate Before(a: Path, b: Path) {
    a != [] && b != [] && (a[0] < b[0] || (a[0] == b[0] && Before(a[1..], b[1..])))
  }

  lemma {:induction false} SizeFirstGrows(s: Script, i: nat, j: nat)
    requires i < j && Nth(s, i).Some?
    ensures SizeFirst(s, i) + Size(Nth(s, i).value) <= SizeFirst(s, j)
    decreases i
  {
    if i > 0 {
      SizeFirstGrows(s.rest, i - 1, j - 1);
    }
  }

  lemma {:induction false} SizeFirstAll(s: Script, i: nat)
    requires Nth(s, i).Some?
    ensures SizeFirst(s, i) + Size(Nth(s, i).value) <= SizeAll(s)
    decreases i
  {
    if i > 0 {
      SizeFirstAll(s.rest, i - 1);
    }
  }

  lemma {:induction false} StartInside(s: Script, path: Path)
    requires OpAt(s, path).Some?
    ensures SizeFirst(s, path[0]) <= Start(s, path)
    ensures Start(s, path) + Size(OpAt(s, path).value) <= SizeFirst(s, path[0]) + Size(Nth(s, path[0]).value)
    decreases |path|
  {
    if |path| > 1 {
      var body := Body(Nth(s, path[0]).value).value;
      StartInside(body, path[1..]);
      SizeFirstAll(body, path[1]);
    }
  }

  /** Calls made before have their entries before. */
  lemma {:induction false} StartOrder(s: Script, a: Path, b: Path)
    requires OpAt(s, a).Some? && OpAt(s, b).Some? && Before(a, b)
    ensures Start(s, a) + Size(OpAt(s, a).value) <= Start(s, b)
    decreases |a|
  {
    StartInside(s, a);
    StartInside(s, b);
    if a[0] < b[0] {
      SizeFirstGrows(s, a[0], b[0]);
    } else {
      StartOrder(Body(Nth(s, a[0]).value).value, a[1..], b[1..]);
    }
  }

  /** Of two calls neither of which is around the other, one is made before the other. */
  lemma {:induction false} Comparable(a: Path, b: Path)
    requires a != b && !(a <= b) && !(b <= a)
    ensures Before(a, b) || Before(b, a)
    decreases |a|
  {
    if a[0] == b[0] {
      assert a == [a[0]] + a[1..] && b == [b[0]] + b[1..];
      Comparable(a[1..], b[1..]);
    }
  }

  /** A call that is no callback has no calls inside. */
  lemma {:induction false} NothingInside(s: Script, a: Path, b: Path)
    requires OpAt(s, a).Some? && OpAt(s, b).Some? && Body(OpAt(s, a).value).None? && a <= b
    ensures a == b
    decreases |a|
  {
    if |a| > 1 {
      NothingInside(Body(Nth(s, a[0]).value).value, a[1..], b[1..]);
      assert a == [a[0]] + a[1..] && b == [b[0]] + b[1..];
    } else {
      assert a == [a[0]];
    }
  }

  // ---------------------------------------------------------------------------
  // Every leaf and mount comes from a call
  // ---------------------------------------------------------------------------

  lemma NextPath(s: Script, path: Path)
    requires s.Then? && OpAt(s.rest, path).Some?
    ensures var next := [path[0] + 1] + path[1..];
      OpAt(s, next) == OpAt(s.rest, path) && Start(s, next) == Size(s.op) + Start(s.rest, path)
  {
    var next := [path[0] + 1] + path[1..];
    Shifted(path[0] + 1, path[1..]);
    assert Nth(s, next[0]) == Nth(s.rest, path[0]);
    assert SizeFirst(s, next[0]) == Size(s.op) + SizeFirst(s.rest, path[0]);
  }

  lemma Shifted(i: nat, rest: Path)
    ensures ([i] + rest)[0] == i && ([i] + rest)[1..] == rest
  {
  }

  lemma InnerPath(s: Script, path: Path)
    requires s.Then? && Body(s.op).Some? && OpAt(Body(s.op).value, path).Some?
    ensures OpAt(s, [0] + path) == OpAt(Body(s.op).value, path)
    ensures Start(s, [0] + path) == (if s.op.Route? then 1 else 0) + Start(Body(s.op).value, path)
  {
    Shifted(0, path);
  }

  /** Entry j comes from the Handle call at path, or is the mount of the Route call there. */
  ghost predicate ComesFrom(s: Script, e: Entry, j: nat, path: Path) {
    && OpAt(s, path).Some? && Start(s, path) <= j < Start(s, path) + Size(OpAt(s, path).value)
    && (e.Serve? ==> OpAt(s, path).value.Handle?)
    && (e.Mounted? ==> OpAt(s, path).value.Route? && j == Start(s, path))
  }

  lemma {:induction false} Origin(p: Place, s: Script, j: nat) returns (path: Path)
    requires j < |Flat(p, s)| && !Flat(p, s)[j].Applied?
    ensures ComesFrom(s, Flat(p, s)[j], j, path)
    decreases s
  {
    EntriesSize(p, s.op);
    var e := Flat(p, s)[j];
    if j >= Size(s.op) {
      assert Flat(After(p, s.op), s.rest)[j - Size(s.op)] == e;
      path := Origin(After(p, s.op), s.rest, j - Size(s.op));
      NextPath(s, path);
      path := [path[0] + 1] + path[1..];
    } else if s.op.Group? {
      path := Origin(p, s.op.body, j);
      InnerPath(s, path);
      FlatSize(p, s.op.body);
      SizeIs(s.op.body, path);
      path := [0] + path;
    } else if s.op.Route? && j > 0 {
      assert Flat(Inside(p, s.op.pattern), s.op.body)[j - 1] == e;
      path := Origin(Inside(p, s.op.pattern), s.op.body, j - 1);
      InnerPath(s, path);
      path := [0] + path;
    } else {
      path := [0];
    }
  }

  lemma SizeIs(s: Script, path: Path)
    requires OpAt(s, path).Some?
    ensures Start(s, path) + Size(OpAt(s, path).value) <= SizeAll(s)
  {
    StartInside(s, path);
    SizeFirstAll(s, path[0]);
  }

  // ---------------------------------------------------------------------------
  // Recorded calls as a script
  // ---------------------------------------------------------------------------

  function ScriptOf(ops: seq<Op>): Script {
    if ops == [] then End else Then(ops[0], ScriptOf(ops[1..]))
  }

  lemma {:induction false} AllFlat(ops: seq<Op>)
    requires NoUse(ops)
    ensures AllEntries(ops) == Flat(TOP, ScriptOf(ops))
    decreases |ops|
  {
    if ops != [] {
      AllFlat(ops[1..]);
      FirstEntries(ops);
      assert After(TOP, ops[0]) == TOP;
    }
  }

  lemma FirstEntries(ops: seq<Op>)
    requires ops != []
    ensures AllEntries(ops) == Entries(TOP, ops[0]) + AllEntries(ops[1..])
  {
    EntriesConcat([ops[0]], ops[1..]);
    EntriesMore([], ops[0]);
    assert [] + [ops[0]] == [ops[0]];
    assert ops == [ops[0]] + ops[1..];
  }
}
