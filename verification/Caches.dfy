/**
  The in-memory cache: entries that expire are removed now and then, and whether and when
  they are removed cannot be seen.
 */
module Caches {
  import opened Wrappers
  import opened Sets

  type Value = nat

  /** An entry without an expiry lasts until it is overwritten or deleted. */
  datatype Entry = Entry(value: Value, expires: Option<int>)

  type Items = map<string, Entry>

  predicate Expired(e: Entry, now: int) {
    e.expires.Some? && now > e.expires.value
  }

  predicate Live(m: Items, k: string, now: int) {
    k in m && !Expired(m[k], now)
  }

  function Lookup(m: Items, k: string, now: int): Option<Value> {
    if Live(m, k, now) then Some(m[k].value) else None
  }

  ghost function LiveKeys(m: Items, now: int): set<string> {
    set k | k in m && Live(m, k, now)
  }

  /**
    The entry that Set makes at the given time. A duration of zero stands for the default;
    none and negative ones never end.
   */
  function Made(v: Value, ttl: int, defaultTTL: int, now: int): Entry {
    var d := if ttl == 0 then defaultTTL else ttl;
    Entry(v, if d > 0 then Some(now + d) else None)
  }

  // ---------------------------------------------------------------------------
  // A plain map of live entries
  // ---------------------------------------------------------------------------

  datatype Op =
    | Set(k: string, e: Entry)
    | Delete(k: string)
    | Get(k: string)
    | Exists(k: string)
    | Clean

  datatype Answer = Done | Full | Found(value: Option<Value>) | Is(present: bool)

  /** Set is refused when its key is not live and as many entries are as may be. */
  ghost predicate Refuses(max: int, m: Items, k: string, now: int) {
    max > 0 && !Live(m, k, now) && |LiveKeys(m, now)| >= max
  }

  /** A map that is only changed by Set and Delete. */
  ghost function Plain(max: int, m: Items, op: Op, now: int): Items {
    match op
    case Set(k, e) => if Refuses(max, m, k, now) then m else m[k := e]
    case Delete(k) => m - {k}
    case _ => m
  }

  ghost function PlainAnswer(max: int, m: Items, op: Op, now: int): Answer {
    match op
    case Set(k, e) => if Refuses(max, m, k, now) then Full else Done
    case Get(k) => Found(Lookup(m, k, now))
    case Exists(k) => Is(Live(m, k, now))
    case _ => Done
  }

  // ---------------------------------------------------------------------------
  // The cache
  // ---------------------------------------------------------------------------

  /** What the cache may do: it removes expired entries, for a new key that needs room or when it cleans. */
  ghost predicate Step(max: int, m: Items, op: Op, now: int, m': Items, a: Answer) {
    match op
    case Set(k, e) =>
      if max <= 0 || k in m || |m| < max then m' == m[k := e] && a == Done
      else if forall x :: x in m ==> !Expired(m[x], now) then m' == m && a == Full
      else a == Done && exists x :: x in m && Expired(m[x], now) && m' == (m - {x})[k := e]
    case Delete(k) => m' == m - {k} && a == Done
    case Get(k) => m' == m && a == Found(if k in m && !Expired(m[k], now) then Some(m[k].value) else None)
    case Exists(k) => m' == m && a == Is(k in m && !Expired(m[k], now))
    case Clean => a == Done && Cleaned(m, now, m')
  }

  /** Some expired entries are gone, and nothing else. */
  ghost predicate Cleaned(m: Items, now: int, m': Items) {
    && m'.Keys <= m.Keys
    && (forall k :: k in m' ==> m'[k] == m[k])
    && (forall k :: k in m && k !in m' ==> Expired(m[k], now))
  }

  /** From now on the two maps have the same live entries. */
  ghost predicate Agree(m: Items, plain: Items, now: int) {
    forall k, t {:trigger SameAt(m, plain, k, t)} :: t >= now ==> SameAt(m, plain, k, t)
  }

  ghost predicate SameAt(m: Items, plain: Items, k: string, t: int) {
    && (Live(m, k, t) <==> Live(plain, k, t))
    && (Live(m, k, t) ==> m[k] == plain[k])
  }

  lemma SameLiveKeys(m: Items, plain: Items, now: int)
    requires Agree(m, plain, now)
    ensures LiveKeys(m, now) == LiveKeys(plain, now)
  {
    forall k
      ensures k in LiveKeys(m, now) <==> k in LiveKeys(plain, now)
    {
      assert SameAt(m, plain, k, now);
    }
  }

  /** With every entry live there are as many live entries as entries; otherwise there are fewer. */
  lemma LiveCount(m: Items, now: int)
    ensures |LiveKeys(m, now)| <= |m|
    ensures |LiveKeys(m, now)| == |m| <==> forall x :: x in m ==> !Expired(m[x], now)
  {
    SubsetSize(LiveKeys(m, now), m.Keys);
    if x :| x in m && Expired(m[x], now) {
      SubsetSize(LiveKeys(m, now), m.Keys - {x});
    } else {
      assert LiveKeys(m, now) == m.Keys;
    }
  }

  /** A Set is refused by the cache exactly when it is by the plain map. */
  lemma SetAnswers(max: int, m: Items, plain: Items, k: string, e: Entry, now: int, m': Items, a: Answer)
    requires Agree(m, plain, now) && (max > 0 ==> |m| <= max)
    requires Step(max, m, Set(k, e), now, m', a)
    ensures a == PlainAnswer(max, plain, Set(k, e), now)
    ensures max > 0 ==> |m'| <= max
  {
    SameLiveKeys(m, plain, now);
    assert SameAt(m, plain, k, now);
    LiveCount(m, now);
    if k in m && !Live(m, k, now) {
      FewerLive(m, k, now);
    }
    SetSize(max, m, k, e, now, m', a);
  }

  lemma FewerLive(m: Items, k: string, now: int)
    requires k in m && !Live(m, k, now)
    ensures |LiveKeys(m, now)| < |m|
  {
    SubsetSize(LiveKeys(m, now), m.Keys - {k});
    assert |m.Keys - {k}| == |m.Keys| - 1 == |m| - 1;
  }

  lemma SetSize(max: int, m: Items, k: string, e: Entry, now: int, m': Items, a: Answer)
    requires max > 0 ==> |m| <= max
    requires Step(max, m, Set(k, e), now, m', a)
    ensures max > 0 ==> |m'| <= max
  {
    PutSize(m, k, e);
    if max > 0 && k !in m && |m| >= max && a == Done {
      var x :| x in m && Expired(m[x], now) && m' == (m - {x})[k := e];
      assert (m - {x}).Keys == m.Keys - {x};
      PutSize(m - {x}, k, e);
    }
  }

  lemma PutSize(m: Items, k: string, e: Entry)
    ensures |m[k := e]| == if k in m then |m| else |m| + 1
  {
    assert m[k := e].Keys == m.Keys + {k};
    assert |m[k := e]| == |m[k := e].Keys| && |m| == |m.Keys|;
    assert k in m ==> m.Keys + {k} == m.Keys;
    assert k !in m ==> |m.Keys + {k}| == |m.Keys| + 1;
  }

  lemma CleanAgrees(m: Items, plain: Items, now: int, m': Items)
    requires Agree(m, plain, now) && Cleaned(m, now, m')
    ensures Agree(m', plain, now)
  {
    forall k, t | t >= now
      ensures SameAt(m', plain, k, t)
    {
      assert SameAt(m, plain, k, t);
    }
  }

  lemma PutAgrees(m: Items, plain: Items, now: int, k: string, e: Entry)
    requires Agree(m, plain, now)
    ensures Agree(m[k := e], plain[k := e], now)
  {
    var m', plain' := m[k := e], plain[k := e];
    forall x, t | t >= now
      ensures SameAt(m', plain', x, t)
    {
      assert SameAt(m, plain, x, t);
    }
  }

  lemma DropAgrees(m: Items, plain: Items, now: int, k: string)
    requires Agree(m, plain, now)
    ensures Agree(m - {k}, plain - {k}, now)
  {
    var m', plain' := m - {k}, plain - {k};
    forall x, t | t >= now
      ensures SameAt(m', plain', x, t)
    {
      assert SameAt(m, plain, x, t);
    }
  }

  lemma SetAgrees(max: int, m: Items, plain: Items, k: string, e: Entry, now: int, m': Items, a: Answer)
    requires Agree(m, plain, now) && (max > 0 ==> |m| <= max)
    requires Step(max, m, Set(k, e), now, m', a)
    ensures Agree(m', Plain(max, plain, Set(k, e), now), now)
  {
    SetAnswers(max, m, plain, k, e, now, m', a);
    PutAgrees(m, plain, now, k, e);
    if a == Done && m' != m[k := e] {
      var x :| x in m && Expired(m[x], now) && m' == (m - {x})[k := e];
      CleanAgrees(m, plain, now, m - {x});
      PutAgrees(m - {x}, plain, now, k, e);
    }
  }

  /** Every operation answers as on the plain map, and the cache goes on agreeing with it. */
  lemma StepRefines(max: int, m: Items, plain: Items, op: Op, now: int, m': Items, a: Answer)
    requires Agree(m, plain, now) && (max > 0 ==> |m| <= max)
    requires Step(max, m, op, now, m', a)
    ensures a == PlainAnswer(max, plain, op, now)
    ensures Agree(m', Plain(max, plain, op, now), now)
    ensures max > 0 ==> |m'| <= max
  {
    match op {
      case Set(k, e) =>
        SetAnswers(max, m, plain, k, e, now, m', a);
        SetAgrees(max, m, plain, k, e, now, m', a);
      case Delete(k) =>
        DropAgrees(m, plain, now, k);
        SubsetSize(m'.Keys, m.Keys);
      case Get(k) => assert SameAt(m, plain, k, now);
      case Exists(k) => assert SameAt(m, plain, k, now);
      case Clean =>
        CleanAgrees(m, plain, now, m');
        SubsetSize(m'.Keys, m.Keys);
    }
  }

  // ---------------------------------------------------------------------------
  // Every run
  // ---------------------------------------------------------------------------

  datatype Call = Call(op: Op, now: int, after: Items, answer: Answer)

  /** The calls of a run of the cache from items on, at times that do not go back. */
  ghost predicate Run(max: int, m: Items, clock: int, calls: seq<Call>)
    decreases |calls|
  {
    calls == [] ||
    (clock <= calls[0].now && Step(max, m, calls[0].op, calls[0].now, calls[0].after, calls[0].answer)
     && Run(max, calls[0].after, calls[0].now, calls[1..]))
  }

  /** The answers of the plain map to the same calls. */
  ghost function PlainAnswers(max: int, m: Items, calls: seq<Call>): seq<Answer>
    decreases |calls|
  {
    if calls == [] then []
    else
      [PlainAnswer(max, m, calls[0].op, calls[0].now)] +
      PlainAnswers(max, Plain(max, m, calls[0].op, calls[0].now), calls[1..])
  }

  /** The calls that are not clean-ups. */
  ghost function Visible(calls: seq<Call>): seq<Call>
    decreases |calls|
  {
    if calls == [] then []
    else (if calls[0].op == Clean then [] else [calls[0]]) + Visible(calls[1..])
  }

  ghost function Answers(calls: seq<Call>): seq<Answer> {
    seq(|calls|, i requires 0 <= i < |calls| => calls[i].answer)
  }

  /**
    Whatever clean-ups a run of the cache holds, the other calls are answered as a plain
    map answers them without any, and the cache never holds more than max entries.
   */
  lemma {:induction false} RunRefines(max: int, m: Items, plain: Items, clock: int, calls: seq<Call>)
    requires Agree(m, plain, clock) && (max > 0 ==> |m| <= max) && Run(max, m, clock, calls)
    ensures Answers(Visible(calls)) == PlainAnswers(max, plain, Visible(calls))
    ensures max > 0 ==> forall i :: 0 <= i < |calls| ==> |calls[i].after| <= max
    decreases |calls|
  {
    if calls != [] {
      var c := calls[0];
      Later(m, plain, clock, c.now);
      StepRefines(max, m, plain, c.op, c.now, c.after, c.answer);
      RunRefines(max, c.after, Plain(max, plain, c.op, c.now), c.now, calls[1..]);
      VisibleFirst(max, plain, calls);
      forall i | 0 <= i < |calls| && max > 0
        ensures |calls[i].after| <= max
      {
        assert i > 0 ==> calls[i] == calls[1..][i - 1];
      }
    }
  }

  lemma VisibleFirst(max: int, plain: Items, calls: seq<Call>)
    requires calls != []
    ensures var c, rest := calls[0], Visible(calls[1..]);
      var next := Plain(max, plain, c.op, c.now);
      if c.op == Clean then Visible(calls) == rest && next == plain
      else
        Answers(Visible(calls)) == [c.answer] + Answers(rest)
        && PlainAnswers(max, plain, Visible(calls)) ==
          [PlainAnswer(max, plain, c.op, c.now)] + PlainAnswers(max, next, rest)
  {
    var c, rest := calls[0], Visible(calls[1..]);
    if c.op != Clean {
      assert Visible(calls) == [c] + rest && ([c] + rest)[1..] == rest;
    }
  }

  lemma Later(m: Items, plain: Items, clock: int, now: int)
    requires Agree(m, plain, clock) && clock <= now
    ensures Agree(m, plain, now)
  {
  }

  // ---------------------------------------------------------------------------
  // How long an entry lasts
  // ---------------------------------------------------------------------------

  /** No call sets or deletes k. */
  ghost predicate Untouched(calls: seq<Call>, k: string) {
    forall i :: 0 <= i < |calls| ==>
      !(calls[i].op.Set? && calls[i].op.k == k) && !(calls[i].op.Delete? && calls[i].op.k == k)
  }

  /** A call that does not set or delete k leaves it alone; what is removed then has expired. */
  lemma KeptBy(max: int, m: Items, k: string, e: Entry, c: Call)
    requires Step(max, m, c.op, c.now, c.after, c.answer) && Untouched([c], k)
    requires if k in m then m[k] == e else Expired(e, c.now)
    ensures if k in c.after then c.after[k] == e else Expired(e, c.now)
  {
    assert [c][0] == c;
  }

  /** From an entry on, calls that do not set or delete its key find it until it expires, and then nothing. */
  lemma {:induction false} EntryLasts(max: int, m: Items, k: string, e: Entry, clock: int, calls: seq<Call>, i: nat)
    requires Run(max, m, clock, calls) && i < |calls| && Untouched(calls, k)
    requires if k in m then m[k] == e else Expired(e, clock)
    ensures calls[i].op == Get(k) ==>
      calls[i].answer == Found(if Expired(e, calls[i].now) then None else Some(e.value))
    ensures calls[i].op == Exists(k) ==> calls[i].answer == Is(!Expired(e, calls[i].now))
    decreases |calls|
  {
    var c := calls[0];
    assert Untouched([c], k) by {
      assert [c][0] == calls[0];
    }
    KeptBy(max, m, k, e, c);
    if i > 0 {
      forall j | 0 <= j < |calls[1..]|
        ensures calls[1..][j] == calls[j + 1]
      {
      }
      EntryLasts(max, c.after, k, e, c.now, calls[1..], i - 1);
    }
  }

  /**
    After a Set of k with a time to live, at the given time, that was not refused: until k
    is set or deleted again, Get gives the value and Exists says yes up to the end of that
    time, or of the default if it is zero, and for ever if that is not positive; afterwards
    they give nothing and say no.
   */
  lemma SetLasts(
      max: int, defaultTTL: int, m: Items, k: string, v: Value, ttl: int, at: int, clock: int, calls: seq<Call>, i: nat)
    requires Run(max, m, clock, calls) && 0 < i < |calls| && Untouched(calls[1..], k)
    requires calls[0].op == Set(k, Made(v, ttl, defaultTTL, at)) && calls[0].answer == Done
    ensures var d := if ttl == 0 then defaultTTL else ttl;
      var lasts := d <= 0 || calls[i].now <= at + d;
      && (calls[i].op == Get(k) ==> calls[i].answer == Found(if lasts then Some(v) else None))
      && (calls[i].op == Exists(k) ==> calls[i].answer == Is(lasts))
  {
    var e := Made(v, ttl, defaultTTL, at);
    assert k in calls[0].after && calls[0].after[k] == e;
    EntryLasts(max, calls[0].after, k, e, calls[0].now, calls[1..], i - 1);
  }

  /** After a Delete of k, until it is set again, Get gives nothing and Exists says no. */
  lemma {:induction false} DeleteLasts(max: int, m: Items, k: string, clock: int, calls: seq<Call>, i: nat)
    requires Run(max, m, clock, calls) && i < |calls| && k !in m
    requires forall j :: 0 <= j < |calls| ==> !(calls[j].op.Set? && calls[j].op.k == k)
    ensures calls[i].op == Get(k) ==> calls[i].answer == Found(None)
    ensures calls[i].op == Exists(k) ==> calls[i].answer == Is(false)
    decreases |calls|
  {
    assert !(calls[0].op.Set? && calls[0].op.k == k);
    if i > 0 {
      forall j | 0 <= j < |calls[1..]|
        ensures calls[1..][j] == calls[j + 1]
      {
      }
      DeleteLasts(max, calls[0].after, k, calls[0].now, calls[1..], i - 1);
    }
  }

  // ---------------------------------------------------------------------------
  // The gap in Get and Exists
  // ---------------------------------------------------------------------------

  /** What Get takes under the lock. */
  function Taken(m: Items, k: string): Option<Entry> {
    if k in m then Some(m[k]) else None
  }

  /**
    What Get answers from the entry it took, at the later time when it checks it; Exists
    tells whether there is an answer.
   */
  function Checked(e: Option<Entry>, now: int): Option<Value> {
    if e.Some? && !Expired(e.value, now) then Some(e.value.value) else None
  }

  /** The plain map gives k the value a at some time between the two. */
  ghost predicate AnswersWithin(plain: Items, k: string, from: int, to: int, a: Option<Value>) {
    exists t :: from <= t <= to && Lookup(plain, k, t) == a
  }

  /** At some moment from clock to now, in a run of calls, the plain map gives k the value a. */
  ghost predicate AnswersSometime(
      max: int, plain: Items, k: string, clock: int, calls: seq<Call>, now: int, a: Option<Value>)
    decreases |calls|
  {
    if calls == [] then AnswersWithin(plain, k, clock, now, a)
    else
      || AnswersWithin(plain, k, clock, calls[0].now, a)
      || AnswersSometime(max, Plain(max, plain, calls[0].op, calls[0].now), k, calls[0].now, calls[1..], now, a)
  }

  /** At some moment from clock to now k is live in the plain map, or at some moment it is not. */
  ghost predicate LiveSometime(max: int, plain: Items, k: string, clock: int, calls: seq<Call>, now: int, live: bool)
    decreases |calls|
  {
    if calls == [] then LiveWithin(plain, k, clock, now, live)
    else
      || LiveWithin(plain, k, clock, calls[0].now, live)
      || LiveSometime(max, Plain(max, plain, calls[0].op, calls[0].now), k, calls[0].now, calls[1..], now, live)
  }

  ghost predicate LiveWithin(plain: Items, k: string, from: int, to: int, live: bool) {
    exists t :: from <= t <= to && (Live(plain, k, t) <==> live)
  }

  /** The calls are over by now. */
  predicate OverBy(calls: seq<Call>, now: int) {
    calls == [] || calls[|calls| - 1].now <= now
  }

  /**
    The entry e of k is overwritten before it expires, and so is every entry after it but
    the last, which lasts until now; nothing deletes k.
   */
  predicate KeptUp(e: Entry, k: string, calls: seq<Call>, now: int)
    decreases |calls|
  {
    if calls == [] then !Expired(e, now)
    else
      match calls[0].op
      case Set(x, e') =>
        if x == k then !Expired(e, calls[0].now) && KeptUp(e', k, calls[1..], now)
        else KeptUp(e, k, calls[1..], now)
      case Delete(x) => x != k && KeptUp(e, k, calls[1..], now)
      case _ => KeptUp(e, k, calls[1..], now)
  }

  lemma WithinNow(plain: Items, k: string, from: int, to: int)
    requires from <= to
    ensures LiveWithin(plain, k, from, to, false) <==> !Live(plain, k, to)
    ensures LiveWithin(plain, k, from, to, true) <==> Live(plain, k, from)
  {
    if Live(plain, k, to) {
      forall t | from <= t <= to
        ensures Live(plain, k, t)
      {
      }
    }
  }

  /** The calls that follow the first of a run. */
  lemma RunRest(max: int, m: Items, clock: int, calls: seq<Call>, now: int)
    requires Run(max, m, clock, calls) && calls != [] && OverBy(calls, now)
    ensures clock <= calls[0].now <= now && OverBy(calls[1..], now)
    decreases |calls|
  {
    if |calls| > 1 {
      RunRest(max, calls[0].after, calls[0].now, calls[1..], now);
    }
  }

  /** An entry that has expired is not kept up. */
  lemma {:induction false} ExpiredNotKept(
      max: int, m: Items, e: Entry, k: string, clock: int, calls: seq<Call>, now: int)
    requires Run(max, m, clock, calls) && OverBy(calls, now) && clock <= now && Expired(e, clock)
    ensures !KeptUp(e, k, calls, now)
    decreases |calls|
  {
    if calls != [] {
      RunRest(max, m, clock, calls, now);
      ExpiredNotKept(max, calls[0].after, e, k, calls[0].now, calls[1..], now);
    }
  }

  lemma NotLiveNow(max: int, m: Items, plain: Items, k: string, clock: int, calls: seq<Call>, now: int)
    requires Run(max, m, clock, calls) && OverBy(calls, now) && clock <= now
    requires !Live(plain, k, clock)
    ensures LiveSometime(max, plain, k, clock, calls, now, false)
  {
    if calls == [] {
      assert LiveWithin(plain, k, clock, now, false);
    } else {
      RunRest(max, m, clock, calls, now);
      assert LiveWithin(plain, k, clock, calls[0].now, false);
    }
  }

  /** While k is live with entry e, it is live at every moment from then on exactly when e is kept up. */
  lemma {:induction false} KeptUpIff(
      max: int, m: Items, plain: Items, k: string, clock: int, calls: seq<Call>, now: int)
    requires Run(max, m, clock, calls) && OverBy(calls, now) && clock <= now
    requires Live(plain, k, clock)
    ensures LiveSometime(max, plain, k, clock, calls, now, false) <==> !KeptUp(plain[k], k, calls, now)
    decreases |calls|
  {
    if calls == [] {
      WithinNow(plain, k, clock, now);
      return;
    }
    var c := calls[0];
    var next := Plain(max, plain, c.op, c.now);
    RunRest(max, m, clock, calls, now);
    WithinNow(plain, k, clock, c.now);
    if !Live(plain, k, c.now) {
      ExpiredNotKept(max, c.after, plain[k], k, c.now, calls[1..], now);
      return;
    }
    KeptUpFirst(max, plain, k, calls, now);
    if Live(next, k, c.now) {
      KeptUpIff(max, c.after, next, k, c.now, calls[1..], now);
    } else {
      NotLiveNow(max, c.after, next, k, c.now, calls[1..], now);
      if k in next {
        ExpiredNotKept(max, c.after, next[k], k, c.now, calls[1..], now);
      }
    }
  }

  lemma KeptUpFirst(max: int, plain: Items, k: string, calls: seq<Call>, now: int)
    requires calls != [] && Live(plain, k, calls[0].now)
    ensures var next := Plain(max, plain, calls[0].op, calls[0].now);
      KeptUp(plain[k], k, calls, now) <==> k in next && KeptUp(next[k], k, calls[1..], now)
  {
  }

  lemma {:induction false} NoAnswerIsNotLive(max: int, plain: Items, k: string, clock: int, calls: seq<Call>, now: int)
    ensures AnswersSometime(max, plain, k, clock, calls, now, None) <==>
      LiveSometime(max, plain, k, clock, calls, now, false)
    decreases |calls|
  {
    NoAnswerWithin(plain, k, clock, now);
    if calls != [] {
      NoAnswerWithin(plain, k, clock, calls[0].now);
      NoAnswerIsNotLive(max, Plain(max, plain, calls[0].op, calls[0].now), k, calls[0].now, calls[1..], now);
    }
  }

  lemma NoAnswerWithin(plain: Items, k: string, from: int, to: int)
    ensures AnswersWithin(plain, k, from, to, None) <==> LiveWithin(plain, k, from, to, false)
  {
    if t :| from <= t <= to && Lookup(plain, k, t) == None {
      assert !Live(plain, k, t);
    }
    if t :| from <= t <= to && !Live(plain, k, t) {
      assert Lookup(plain, k, t) == None;
    }
  }

  /** The entry taken expires before it is checked, but is kept up by the calls in between. */
  predicate Overtaken(m: Items, k: string, calls: seq<Call>, now: int) {
    k in m && Expired(m[k], now) && KeptUp(m[k], k, calls, now)
  }

  lemma OvertakenIff(max: int, m: Items, plain: Items, k: string, at: int, calls: seq<Call>, now: int)
    requires Agree(m, plain, at) && Run(max, m, at, calls) && OverBy(calls, now) && at <= now
    requires Checked(Taken(m, k), now).None?
    ensures LiveSometime(max, plain, k, at, calls, now, false) <==> !Overtaken(m, k, calls, now)
  {
    assert SameAt(m, plain, k, at);
    if Live(plain, k, at) {
      KeptUpIff(max, m, plain, k, at, calls, now);
    } else {
      NotLiveNow(max, m, plain, k, at, calls, now);
      if k in m {
        ExpiredNotKept(max, m, m[k], k, at, calls, now);
      }
    }
  }

  lemma AnswersAtOnce(max: int, m: Items, plain: Items, k: string, at: int, calls: seq<Call>, now: int)
    requires Agree(m, plain, at) && Run(max, m, at, calls) && OverBy(calls, now) && at <= now
    requires Checked(Taken(m, k), now).Some?
    ensures AnswersSometime(max, plain, k, at, calls, now, Checked(Taken(m, k), now))
    ensures LiveSometime(max, plain, k, at, calls, now, true)
  {
    assert SameAt(m, plain, k, at);
    assert Live(plain, k, at) && Lookup(plain, k, at) == Checked(Taken(m, k), now);
    if calls == [] {
      assert LiveWithin(plain, k, at, now, true) && AnswersWithin(plain, k, at, now, Checked(Taken(m, k), now));
    } else {
      RunRest(max, m, at, calls, now);
      assert LiveWithin(plain, k, at, calls[0].now, true);
      assert AnswersWithin(plain, k, at, calls[0].now, Checked(Taken(m, k), now));
    }
  }

  /**
    Get takes an entry under the lock and checks it later, with any calls by others in
    between. Its answer is what the plain map gives at some moment of that time, if and
    only if it is not the case that the entry expires before the check and was overwritten
    before it expired, by entries that lasted on.
   */
  lemma GetExactIff(max: int, m: Items, plain: Items, k: string, at: int, calls: seq<Call>, now: int)
    requires Agree(m, plain, at) && Run(max, m, at, calls) && OverBy(calls, now) && at <= now
    ensures AnswersSometime(max, plain, k, at, calls, now, Checked(Taken(m, k), now)) <==> !Overtaken(m, k, calls, now)
  {
    if Checked(Taken(m, k), now).Some? {
      AnswersAtOnce(max, m, plain, k, at, calls, now);
    } else {
      NoAnswerIsNotLive(max, plain, k, at, calls, now);
      OvertakenIff(max, m, plain, k, at, calls, now);
    }
  }

  /** The same of Exists, which tells only whether there is an answer. */
  lemma ExistsExactIff(max: int, m: Items, plain: Items, k: string, at: int, calls: seq<Call>, now: int)
    requires Agree(m, plain, at) && Run(max, m, at, calls) && OverBy(calls, now) && at <= now
    ensures LiveSometime(max, plain, k, at, calls, now, Checked(Taken(m, k), now).Some?) <==>
      !Overtaken(m, k, calls, now)
  {
    if Checked(Taken(m, k), now).Some? {
      AnswersAtOnce(max, m, plain, k, at, calls, now);
    } else {
      OvertakenIff(max, m, plain, k, at, calls, now);
    }
  }

  /** An overwrite between the two makes Get miss a key that is live all the time. */
  lemma GetMissesLiveKey()
    ensures var m: Items := map["k" := Entry(1, Some(10))];
      var e := Entry(2, None);
      var calls := [Call(Set("k", e), 9, m["k" := e], Done)];
      && Run(0, m, 9, calls) && Overtaken(m, "k", calls, 11)
      && Checked(Taken(m, "k"), 11) == None
      && !LiveSometime(0, m, "k", 9, calls, 11, false)
  {
    var m: Items := map["k" := Entry(1, Some(10))];
    var e := Entry(2, None);
    var calls := [Call(Set("k", e), 9, m["k" := e], Done)];
    assert calls[1..] == [];
    assert Run(0, m["k" := e], 9, calls[1..]) && KeptUp(e, "k", calls[1..], 11);
    KeptUpIff(0, m, m, "k", 9, calls, 11);
  }

  // ---------------------------------------------------------------------------
  // The service
  // ---------------------------------------------------------------------------

  datatype Result<T> = Ok(value: T) | Closed

  class Cache {
    const maxEntries: int
    const defaultTTL: int

    // The entries; none before Init and after Close.
    var items: Items
    var open: bool

    ghost predicate Valid()
      reads this
    {
      (!open ==> items == map[]) && (maxEntries > 0 ==> |items| <= maxEntries)
    }

    constructor (maxEntries: int, defaultTTL: int)
      ensures Valid() && !open && this.maxEntries == maxEntries && this.defaultTTL == defaultTTL
    {
      this.maxEntries, this.defaultTTL := maxEntries, defaultTTL;
      items, open := map[], false;
    }

    method Init()
      modifies this
      ensures Valid() && open && items == map[]
    {
      items, open := map[], true;
    }

    method Close()
      modifies this
      ensures Valid() && !open && items == map[]
    {
      items, open := map[], false;
    }

    /** The first region of Get and of Exists, under the lock for reading. */
    method Take(k: string) returns (r: Result<Option<Entry>>)
      ensures r == if open then Ok(Taken(items, k)) else Closed
    {
      if !open {
        return Closed;
      }
      r := Ok(if k in items then Some(items[k]) else None);
    }

    /** The second region of Get, after it found that the entry it took has expired. */
    method Forget(k: string, now: int)
      requires Valid()
      modifies this`items
      ensures Valid() && Cleaned(old(items), now, items)
      ensures k in items <==> Live(old(items), k, now)
    {
      if k in items && Expired(items[k], now) {
        SubsetSize(items.Keys - {k}, items.Keys);
        items := items - {k};
      }
    }

    /**
      Get when nobody comes between: takes the entry, checks it later, and forgets it later
      still if it has expired.
     */
    method Get(k: string, now: int, later: int) returns (r: Result<Option<Value>>)
      requires Valid() && now <= later
      modifies this`items
      ensures Valid() && (r.Closed? <==> !open)
      ensures r.Ok? ==> r.value == Checked(Taken(old(items), k), now) && Cleaned(old(items), later, items)
    {
      var e := Take(k);
      if e.Closed? {
        return Closed;
      }
      r := Ok(Checked(e.value, now));
      if e.value.Some? && r.value.None? {
        Forget(k, later);
      }
    }

    /** The entry's time is taken before the lock, the check for room after it. */
    method Set(k: string, v: Value, ttl: int, before: int, now: int) returns (r: Result<Answer>)
      requires Valid() && before <= now
      modifies this`items
      ensures Valid() && (r.Closed? <==> !open) && (r.Closed? ==> items == old(items))
      ensures r.Ok? ==> Step(maxEntries, old(items), Op.Set(k, Made(v, ttl, defaultTTL, before)), now, items, r.value)
    {
      if !open {
        return Closed;
      }
      var d := if ttl == 0 then defaultTTL else ttl;
      var e := Entry(v, None);
      if d > 0 {
        e := Entry(v, Some(before + d));
      }
      if maxEntries > 0 && k !in items && |items| >= maxEntries {
        var evicted := EvictOneExpired(now);
        if !evicted {
          return Ok(Full);
        }
      }
      items := items[k := e];
      r := Ok(Done);
    }

    method EvictOneExpired(now: int) returns (evicted: bool)
      modifies this`items
      ensures evicted <==> exists x :: x in old(items) && Expired(old(items)[x], now)
      ensures evicted ==>
        exists x :: x in old(items) && Expired(old(items)[x], now)
                    && items == old(items) - {x} && |items| == |old(items)| - 1
      ensures !evicted ==> items == old(items)
    {
      var keys := items.Keys;
      while keys != {}
        invariant keys <= items.Keys && items == old(items)
        invariant forall x :: x in items && x !in keys ==> !Expired(items[x], now)
        decreases |keys|
      {
        var x :| x in keys;
        if Expired(items[x], now) {
          var rest := items - {x};
          assert items.Keys == rest.Keys + {x};
          items := rest;
          return true;
        }
        keys := keys - {x};
      }
      evicted := false;
    }

    method Delete(k: string) returns (r: Result<Answer>)
      requires Valid()
      modifies this`items
      ensures Valid() && (r.Closed? <==> !open)
      ensures r.Ok? ==> r.value == Done && items == old(items) - {k}
    {
      if !open {
        return Closed;
      }
      SubsetSize(items.Keys - {k}, items.Keys);
      items := items - {k};
      r := Ok(Done);
    }

    /** Exists when nobody comes between. */
    method Exists(k: string, now: int) returns (r: Result<bool>)
      ensures r == if open then Ok(Live(items, k, now)) else Closed
    {
      var e := Take(k);
      if e.Closed? {
        return Closed;
      }
      r := Ok(Checked(e.value, now).Some?);
    }

    /** The background clean-up: every expired entry goes. */
    method RemoveExpired(now: int)
      requires Valid()
      modifies this`items
      ensures Valid() && Cleaned(old(items), now, items)
      ensures forall k :: k in items <==> Live(old(items), k, now)
    {
      var keys := items.Keys;
      while keys != {}
        invariant keys <= old(items).Keys && Cleaned(old(items), now, items)
        invariant forall k :: k in keys ==> k in items
        invariant forall k :: k in items && k !in keys ==> !Expired(items[k], now)
        decreases |keys|
      {
        var k :| k in keys;
        keys := keys - {k};
        if Expired(items[k], now) {
          items := items - {k};
        }
      }
      SubsetSize(items.Keys, old(items).Keys);
    }
  }
}
