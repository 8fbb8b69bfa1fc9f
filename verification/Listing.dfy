/**
  Listing objects: keys are rolled up into common prefixes at a delimiter, and the names
  that remain are handed out page by page.
 */
module Listing {
  import opened Wrappers
  import opened Strings

  /** An absent prefix, delimiter or start is the empty string. */
  datatype Input = Input(prefix: string, delimiter: string, startAfter: string)

  // ---------------------------------------------------------------------------
  // Rolling up
  // ---------------------------------------------------------------------------

  predicate OccursAt(s: string, d: string, i: int) {
    0 <= i && i + |d| <= |s| && s[i..i + |d|] == d
  }

  /** The first place at or after i where d occurs in s. */
  function IndexFrom(s: string, d: string, i: nat): (r: Option<nat>)
    ensures r.Some? ==> i <= r.value && OccursAt(s, d, r.value) && forall j :: i <= j < r.value ==> !OccursAt(s, d, j)
    ensures r.None? ==> forall j :: i <= j ==> !OccursAt(s, d, j)
    decreases |s| - i
  {
    if OccursAt(s, d, i) then Some(i)
    else if i >= |s| then None
    else IndexFrom(s, d, i + 1)
  }

  /** d occurs in s at i if and only if s is d between what comes before and what comes after. */
  lemma OccursIff(s: string, d: string, i: int)
    ensures OccursAt(s, d, i) <==> exists a: string, b: string :: |a| == i && s == a + d + b
  {
    if 0 <= i && i + |d| <= |s| && s[i..i + |d|] == d {
      assert s == s[..i] + d + s[i + |d|..];
    }
    if a: string, b: string :| |a| == i && s == a + d + b {
      assert s[i..i + |d|] == d;
    }
  }

  predicate Selected(q: Input, k: string) {
    q.prefix <= k && Less(q.startAfter, k)
  }

  /** Where the delimiter first occurs in k after the prefix. */
  function Cut(q: Input, k: string): Option<nat> {
    if q.delimiter == "" then None else IndexFrom(k, q.delimiter, |q.prefix|)
  }

  /** The name under which the key k is listed. */
  function Rolled(q: Input, k: string): string {
    match Cut(q, k)
    case Some(i) => k[..i + |q.delimiter|]
    case None => k
  }

  ghost function Names(q: Input, keys: set<string>): set<string> {
    set k | k in keys && Selected(q, k) :: Rolled(q, k)
  }

  ghost function Common(q: Input, keys: set<string>): set<string> {
    set k | k in keys && Selected(q, k) && Cut(q, k).Some? :: Rolled(q, k)
  }

  /** The names to list, possibly repeated, and which of them are common prefixes. */
  method RollUp(keys: seq<string>, q: Input) returns (names: seq<string>, common: set<string>)
    ensures Elements(names) == Names(q, Elements(keys))
    ensures common == Common(q, Elements(keys))
  {
    names, common := [], {};
    for n := 0 to |keys|
      invariant RolledUp(q, keys[..n], names, common)
    {
      ghost var before, seen := names, common;
      if q.prefix <= keys[n] && Less(q.startAfter, keys[n]) {
        var k, cut := Roll(q, keys[n]);
        if cut {
          common := common + {k};
        }
        names := names + [k];
      }
      NextKey(q, keys, n, before, seen);
    }
    assert keys[..|keys|] == keys;
  }

  method Roll(q: Input, k: string) returns (name: string, cut: bool)
    requires q.prefix <= k
    ensures name == Rolled(q, k) && (cut <==> Cut(q, k).Some?)
  {
    if q.delimiter != "" {
      var i := IndexFrom(k, q.delimiter, |q.prefix|);
      if i.Some? {
        return k[..i.value + |q.delimiter|], true;
      }
    }
    return k, false;
  }

  ghost predicate RolledUp(q: Input, keys: seq<string>, names: seq<string>, common: set<string>) {
    Elements(names) == Names(q, Elements(keys)) && common == Common(q, Elements(keys))
  }

  lemma NextKey(q: Input, keys: seq<string>, n: nat, names: seq<string>, common: set<string>)
    requires n < |keys| && RolledUp(q, keys[..n], names, common)
    ensures var k := keys[n];
      if !Selected(q, k) then RolledUp(q, keys[..n + 1], names, common)
      else RolledUp(q, keys[..n + 1], names + [Rolled(q, k)],
                    if Cut(q, k).Some? then common + {Rolled(q, k)} else common)
  {
    assert keys[..n + 1] == keys[..n] + [keys[n]];
    ElementsAppend(keys[..n], keys[n]);
    NamesMore(q, Elements(keys[..n]), keys[n]);
    ElementsAppend(names, Rolled(q, keys[n]));
  }

  lemma NamesMore(q: Input, keys: set<string>, k: string)
    ensures Names(q, keys + {k}) == Names(q, keys) + if Selected(q, k) then {Rolled(q, k)} else {}
    ensures Common(q, keys + {k}) == Common(q, keys) + if Selected(q, k) && Cut(q, k).Some? then {Rolled(q, k)} else {}
  {
  }

  // ---------------------------------------------------------------------------
  // What a listed name stands for
  // ---------------------------------------------------------------------------

  /** n ends with the first delimiter after the prefix. */
  ghost predicate IsCommonPrefix(q: Input, n: string) {
    && q.delimiter != "" && q.prefix <= n && |q.prefix| + |q.delimiter| <= |n|
    && OccursAt(n, q.delimiter, |n| - |q.delimiter|)
    && forall i :: |q.prefix| <= i < |n| - |q.delimiter| ==> !OccursAt(n, q.delimiter, i)
  }

  /** n has no delimiter after the prefix. */
  ghost predicate IsPlain(q: Input, n: string) {
    q.prefix <= n && (q.delimiter != "" ==> forall i :: |q.prefix| <= i ==> !OccursAt(n, q.delimiter, i))
  }

  /** n stands for k: as k itself, or as the common prefix that k begins with. */
  ghost predicate Represents(q: Input, n: string, k: string) {
    (n == k && IsPlain(q, k)) || (n <= k && IsCommonPrefix(q, n))
  }

  lemma OccursInPrefix(s: string, t: string, d: string, i: int)
    requires t <= s && i + |d| <= |t|
    ensures OccursAt(t, d, i) <==> OccursAt(s, d, i)
  {
    if 0 <= i {
      assert t[i..i + |d|] == s[i..i + |d|];
    }
  }

  lemma RolledRepresents(q: Input, k: string)
    requires q.prefix <= k
    ensures Represents(q, Rolled(q, k), k)
    ensures Cut(q, k).Some? ==> IsCommonPrefix(q, Rolled(q, k))
    ensures Cut(q, k).None? ==> IsPlain(q, Rolled(q, k))
  {
    var n := Rolled(q, k);
    if Cut(q, k).Some? {
      var c := Cut(q, k).value;
      OccursInPrefix(k, n, q.delimiter, c);
      forall i | |q.prefix| <= i < c
        ensures !OccursAt(n, q.delimiter, i)
      {
        OccursInPrefix(k, n, q.delimiter, i);
      }
      assert |n| - |q.delimiter| == c;
    }
  }

  /** Two common prefixes of one key are the same, and a key that has one is not plain. */
  lemma OnePrefix(q: Input, n: string, m: string, k: string)
    requires Represents(q, n, k) && Represents(q, m, k)
    ensures n == m
  {
    var d := q.delimiter;
    if IsCommonPrefix(q, n) && n <= k {
      OccursInPrefix(k, n, d, |n| - |d|);
    }
    if IsCommonPrefix(q, m) && m <= k {
      OccursInPrefix(k, m, d, |m| - |d|);
    }
    if IsCommonPrefix(q, n) && n <= k && IsCommonPrefix(q, m) && m <= k {
      if |n| < |m| {
        OccursInPrefix(k, m, d, |n| - |d|);
      } else if |m| < |n| {
        OccursInPrefix(k, n, d, |m| - |d|);
      }
    }
  }

  /** Every selected key is represented by exactly one listed name, and every listed name represents one. */
  lemma RollUpPartitions(q: Input, keys: set<string>)
    ensures forall k :: k in keys && q.prefix <= k && Less(q.startAfter, k) ==>
      Rolled(q, k) in Names(q, keys) && Represents(q, Rolled(q, k), k)
    ensures forall k, n ::
      (k in keys && q.prefix <= k && Less(q.startAfter, k) && n in Names(q, keys) && Represents(q, n, k)) ==>
      n == Rolled(q, k)
    ensures forall n :: n in Names(q, keys) ==>
      exists k :: k in keys && q.prefix <= k && Less(q.startAfter, k) && Represents(q, n, k)
  {
    forall k | k in keys && Selected(q, k)
      ensures Represents(q, Rolled(q, k), k)
    {
      RolledRepresents(q, k);
    }
    forall k, n | k in keys && Selected(q, k) && n in Names(q, keys) && Represents(q, n, k)
      ensures n == Rolled(q, k)
    {
      RolledRepresents(q, k);
      OnePrefix(q, n, Rolled(q, k), k);
    }
    forall n | n in Names(q, keys)
      ensures exists k :: k in keys && Selected(q, k) && Represents(q, n, k)
    {
      var k :| k in keys && Selected(q, k) && Rolled(q, k) == n;
      RolledRepresents(q, k);
    }
  }

  /** A listed name is a common prefix exactly when it looks like one, so it is never also a key listed as itself. */
  lemma CommonIff(q: Input, keys: set<string>, n: string)
    requires n in Names(q, keys)
    ensures n in Common(q, keys) <==> IsCommonPrefix(q, n)
    ensures n in Common(q, keys) <==> !IsPlain(q, n)
  {
    forall k | k in keys && Selected(q, k) && Rolled(q, k) == n
      ensures Cut(q, k).Some? <==> IsCommonPrefix(q, n)
      ensures Cut(q, k).Some? <==> !IsPlain(q, n)
    {
      RolledRepresents(q, k);
      if IsCommonPrefix(q, n) {
        assert OccursAt(n, q.delimiter, |n| - |q.delimiter|);
      }
    }
  }

  /** Rolling up what is already rolled up changes nothing. */
  lemma RolledAgain(q: Input, k: string)
    requires q.prefix <= k
    ensures q.prefix <= Rolled(q, k) && Rolled(q, Rolled(q, k)) == Rolled(q, k)
  {
    var n := Rolled(q, k);
    RolledRepresents(q, k);
    RolledRepresents(q, n);
    if IsPlain(q, n) {
      assert Represents(q, n, n);
    } else {
      assert Represents(q, n, n);
    }
    OnePrefix(q, n, Rolled(q, n), n);
  }

  // ---------------------------------------------------------------------------
  // Pages
  // ---------------------------------------------------------------------------

  /** How many entries of the ascending list come before x. */
  ghost function Rank(list: seq<string>, x: string): (r: nat)
    ensures r <= |list|
  {
    if list == [] then 0
    else if Less(list[|list| - 1], x) then |list|
    else Rank(list[..|list| - 1], x)
  }

  /** The entries of the ascending list that come after x. */
  ghost function Following(list: seq<string>, x: string): seq<string> {
    var i := Rank(list, x);
    if i < |list| && list[i] == x then list[i + 1..] else list[i..]
  }

  lemma {:induction false} RankIs(list: seq<string>, x: string)
    requires Sorted(list)
    ensures forall i :: 0 <= i < Rank(list, x) ==> Less(list[i], x)
    ensures forall i :: Rank(list, x) <= i < |list| ==> !Less(list[i], x)
  {
    if list != [] {
      var rest, last := list[..|list| - 1], list[|list| - 1];
      if Less(last, x) {
        forall i | 0 <= i < |list|
          ensures Less(list[i], x)
        {
          if i < |list| - 1 {
            assert LessAt(list, i, |list| - 1);
            LessTransitive(list[i], last, x);
          }
        }
      } else {
        SortedPrefix(list, |list| - 1);
        RankIs(rest, x);
      }
    }
  }

  lemma SortedPrefix(list: seq<string>, n: nat)
    requires Sorted(list) && n <= |list|
    ensures Sorted(list[..n]) && Sorted(list[n..])
  {
    forall i, j | 0 <= i < j < n
      ensures LessAt(list[..n], i, j)
    {
      assert LessAt(list, i, j);
    }
    forall i, j | 0 <= i < j < |list| - n
      ensures LessAt(list[n..], i, j)
    {
      assert LessAt(list, n + i, n + j);
    }
  }

  /** The list from the n-th entry on is what follows x; that entry and later ones are after x, the others not. */
  ghost predicate FollowsFrom(list: seq<string>, x: string, n: nat) {
    && n <= |list| && Following(list, x) == list[n..]
    && forall i {:trigger list[i]} :: 0 <= i < |list| ==> (Less(x, list[i]) <==> n <= i)
  }

  lemma FollowingFrom(list: seq<string>, x: string) returns (n: nat)
    requires Sorted(list)
    ensures FollowsFrom(list, x, n)
  {
    RankIs(list, x);
    var r := Rank(list, x);
    n := if r < |list| && list[r] == x then r + 1 else r;
    forall i | 0 <= i < |list|
      ensures Less(x, list[i]) <==> n <= i
    {
      LessTotal(x, list[i]);
      if r < i {
        SortedAt(list, r, i);
        LessTotal(list[r], x);
      }
    }
  }

  /** Only the entries after x follow it, and all of them do. */
  lemma FollowingHas(list: seq<string>, x: string, y: string)
    requires Sorted(list)
    ensures y in Following(list, x) <==> y in list && Less(x, y)
  {
    var n := FollowingFrom(list, x);
    if y in list && Less(x, y) {
      var i :| 0 <= i < |list| && list[i] == y;
      assert list[n..][i - n] == y;
    }
    if y in list[n..] {
      var i :| 0 <= i < |list[n..]| && list[n..][i] == y;
      assert list[n + i] == y;
    }
  }

  /** The place where x is or would be in the ascending list, by bisection. */
  method BinarySearch(list: seq<string>, x: string) returns (i: nat, found: bool)
    requires Sorted(list)
    ensures i == Rank(list, x) && (found <==> i < |list| && list[i] == x)
  {
    var lo, hi := 0, |list|;
    RankIs(list, x);
    while lo < hi
      invariant 0 <= lo <= Rank(list, x) <= hi <= |list|
    {
      var mid := (lo + hi) / 2;
      if Less(list[mid], x) {
        lo := mid + 1;
      } else {
        hi := mid;
      }
    }
    i, found := lo, lo < |list| && list[lo] == x;
  }

  /** An ascending list without its repeats. */
  method Compact(list: seq<string>) returns (r: seq<string>)
    requires Ascending(list)
    ensures r == Listed(Elements(list))
  {
    r := [];
    for i := 0 to |list|
      invariant Sorted(r) && Elements(r) == Elements(list[..i])
      invariant i > 0 ==> r != [] && r[|r| - 1] == list[i - 1]
    {
      assert list[..i + 1] == list[..i] + [list[i]];
      ElementsAppend(list[..i], list[i]);
      if i == 0 || list[i] != list[i - 1] {
        SortedAppend(list, i, r);
        ElementsAppend(r, list[i]);
        r := r + [list[i]];
      } else {
        assert list[i] in Elements(list[..i]);
      }
    }
    assert list[..|list|] == list;
    ListedIs(Elements(list));
    SortedUnique(r, Listed(Elements(list)));
  }

  lemma SortedAppend(list: seq<string>, i: nat, r: seq<string>)
    requires Ascending(list) && i < |list| && Sorted(r) && Elements(r) == Elements(list[..i])
    requires i > 0 ==> r != [] && r[|r| - 1] == list[i - 1] && list[i] != list[i - 1]
    ensures Sorted(r + [list[i]])
  {
    var q := r + [list[i]];
    forall a, b | 0 <= a < b < |q|
      ensures LessAt(q, a, b)
    {
      if b < |r| {
        assert LessAt(r, a, b);
      } else {
        assert r[a] in Elements(list[..i]);
        LessTotal(list[i - 1], list[i]);
        if a < |r| - 1 {
          assert LessAt(r, a, |r| - 1);
          LessTransitive(r[a], list[i - 1], list[i]);
        }
      }
    }
  }

  /** The names that follow after, in order. */
  ghost function Left(all: set<string>, after: string): seq<string> {
    Following(Listed(all), after)
  }

  /** The names after the one a listing resumes after, at most n of them, and whether more follow. */
  ghost predicate IsPage(all: set<string>, after: string, n: nat, pg: seq<string>, truncated: bool) {
    var rest := Left(all, after);
    (truncated <==> |rest| > n) && pg == if truncated then rest[..n] else rest
  }

  method Page(names: seq<string>, after: string, n: nat) returns (pg: seq<string>, truncated: bool)
    ensures IsPage(Elements(names), after, n, pg, truncated)
  {
    SortAscending(names);
    var list := Compact(Sort(names));
    SortSame(names);
    SameElements(names, Sort(names));
    ListedIs(Elements(names));
    var i, found := BinarySearch(list, after);
    AfterRank(list, after);
    pg, truncated := Slice(list, after, if found then i + 1 else i, n);
  }

  lemma AfterRank(list: seq<string>, x: string)
    ensures var i := Rank(list, x);
      var n := if i < |list| && list[i] == x then i + 1 else i;
      n <= |list| && list[n..] == Following(list, x)
  {
  }

  /** At most n names from the i-th on. */
  method Slice(list: seq<string>, ghost after: string, i: nat, n: nat) returns (pg: seq<string>, truncated: bool)
    requires i <= |list| && list[i..] == Following(list, after)
    ensures truncated <==> |Following(list, after)| > n
    ensures pg == if truncated then Following(list, after)[..n] else Following(list, after)
  {
    var rest := list[i..];
    if |rest| > n {
      return rest[..n], true;
    }
    return rest, false;
  }

  /** What opening a listed object finds: deleted or damaged since its key was read, or unreadable. */
  datatype Status = Found | Gone | Corrupt | Unreadable

  datatype Output = Output(objects: seq<string>, prefixes: seq<string>, next: Option<string>, skipped: nat)

  /** The names of pg that are common prefixes, or those that are not and are found as want. */
  function Prefixes(pg: seq<string>, common: set<string>): seq<string> {
    if pg == [] then []
    else
      var n := pg[|pg| - 1];
      Prefixes(pg[..|pg| - 1], common) + if n in common then [n] else []
  }

  function Objects(pg: seq<string>, common: set<string>, status: string -> Status, want: Status): seq<string> {
    if pg == [] then []
    else
      var n := pg[|pg| - 1];
      Objects(pg[..|pg| - 1], common, status, want) + if n !in common && status(n) == want then [n] else []
  }

  /**
    out hands out the page pg of a bucket with so many damaged objects, and continues after
    its last name when more follow.
   */
  ghost predicate HandsOut(
      pg: seq<string>, truncated: bool, common: set<string>, status: string -> Status, damaged: nat,
      out: Option<Output>) {
    if Objects(pg, common, status, Unreadable) != [] then out == None
    else out == Some(Output(
      Objects(pg, common, status, Found),
      Prefixes(pg, common),
      if truncated && pg != [] then Some(pg[|pg| - 1]) else None,
      damaged + |Objects(pg, common, status, Corrupt)|))
  }

  /** out has, in order, the common prefixes of pg, and the keys of pg that could be read. */
  ghost predicate Parted(q: Input, pg: seq<string>, status: string -> Status, out: Output) {
    && Sorted(out.prefixes) && Sorted(out.objects)
    && (forall n :: n in out.prefixes <==> n in pg && IsCommonPrefix(q, n))
    && (forall n :: n in out.objects <==> n in pg && IsPlain(q, n) && status(n) == Found)
  }

  /** When more names follow the listing goes on after the greatest of the page. */
  ghost predicate NextIs(pg: seq<string>, truncated: bool, next: Option<string>) {
    && (next.Some? <==> truncated)
    && (next.Some? ==> next.value in pg && forall y :: y in pg ==> y == next.value || Less(y, next.value))
  }

  /** out is one page of the listing, in two parts, or there is none because an object on it cannot be read. */
  ghost predicate IsListing(
      q: Input, keys: set<string>, after: string, n: nat, status: string -> Status, damaged: nat,
      out: Option<Output>) {
    exists pg, truncated :: IsListingOf(q, keys, after, n, status, damaged, out, pg, truncated)
  }

  ghost predicate IsListingOf(
      q: Input, keys: set<string>, after: string, n: nat, status: string -> Status, damaged: nat, out: Option<Output>,
      pg: seq<string>, truncated: bool) {
    && IsPage(Names(q, keys), after, n, pg, truncated)
    && HandsOut(pg, truncated, Common(q, keys), status, damaged, out)
    && (out.Some? ==> Parted(q, pg, status, out.value))
    && (out.None? <==> exists n :: n in pg && IsPlain(q, n) && status(n) == Unreadable)
    && (out.Some? ==> NextIs(pg, truncated, out.value.next))
    && (out.Some? ==> out.value.skipped == damaged + |set n | n in pg && IsPlain(q, n) && status(n) == Corrupt|)
  }

  /** One page of the objects and common prefixes, or None when an object cannot be read. */
  method ListObjects(
      keys: seq<string>, damaged: nat, q: Input, after: string, n: nat, status: string -> Status)
    returns (out: Option<Output>)
    requires n >= 1
    ensures IsListing(q, Elements(keys), after, n, status, damaged, out)
  {
    var names, common := RollUp(keys, q);
    var page, more := Page(names, after, n);
    out := HandOut(page, more, common, status, damaged);
    PageParted(q, Elements(keys), after, n, page, more, status);
    PageCounted(q, Elements(keys), after, n, page, more, status);
    PageNext(Names(q, Elements(keys)), after, n, page, more);
    assert IsListingOf(q, Elements(keys), after, n, status, damaged, out, page, more);
  }

  method HandOut(
      page: seq<string>, more: bool, common: set<string>, status: string -> Status, damaged: nat)
    returns (out: Option<Output>)
    requires more ==> page != []
    ensures HandsOut(page, more, common, status, damaged, out)
  {
    var objects, prefixes: seq<string>, skipped := [], [], damaged;
    for i := 0 to |page|
      invariant objects == Objects(page[..i], common, status, Found)
      invariant prefixes == Prefixes(page[..i], common)
      invariant skipped == damaged + |Objects(page[..i], common, status, Corrupt)|
      invariant Objects(page[..i], common, status, Unreadable) == []
    {
      var name := page[i];
      assert page[..i + 1][..i] == page[..i];
      if name in common {
        prefixes := prefixes + [name];
        continue;
      }
      match status(name)
      case Found => objects := objects + [name];
      case Gone =>
      case Corrupt => skipped := skipped + 1;
      case Unreadable =>
        ObjectsGrow(page, i + 1, common, status, Unreadable);
        return None;
    }
    assert page[..|page|] == page;
    out := Some(Output(objects, prefixes, if more then Some(page[|page| - 1]) else None, skipped));
  }

  /** The names on a page are names of the listing, after the one it resumes after, in order. */
  lemma PageNames(all: set<string>, after: string, n: nat, pg: seq<string>, truncated: bool)
    requires IsPage(all, after, n, pg, truncated)
    ensures Sorted(pg)
    ensures forall y :: y in pg ==> y in all && Less(after, y)
  {
    ListedIs(all);
    var list := Listed(all);
    var m := FollowingFrom(list, after);
    SortedPrefix(list, m);
    SortedPrefix(list[m..], |pg|);
    forall y | y in pg
      ensures y in all && Less(after, y)
    {
      assert y in list[m..];
      FollowingHas(list, after, y);
      assert y in Elements(list);
    }
  }

  lemma PageParted(
      q: Input, keys: set<string>, after: string, n: nat, pg: seq<string>, truncated: bool, status: string -> Status)
    requires IsPage(Names(q, keys), after, n, pg, truncated)
    ensures var common := Common(q, keys);
      Parted(q, pg, status, Output(Objects(pg, common, status, Found), Prefixes(pg, common), None, 0))
  {
    var common := Common(q, keys);
    PageNames(Names(q, keys), after, n, pg, truncated);
    PageSplit(pg, common, status, Found);
    PageSorted(pg, common, status, Found);
    forall y | y in pg
      ensures y in common <==> IsCommonPrefix(q, y)
      ensures y in common <==> !IsPlain(q, y)
    {
      CommonIff(q, keys, y);
    }
  }

  lemma PageNext(all: set<string>, after: string, n: nat, pg: seq<string>, truncated: bool)
    requires n >= 1 && IsPage(all, after, n, pg, truncated)
    ensures NextIs(pg, truncated, if truncated && pg != [] then Some(pg[|pg| - 1]) else None)
  {
    PageNames(all, after, n, pg, truncated);
    forall y | y in pg && y != pg[|pg| - 1]
      ensures Less(y, pg[|pg| - 1])
    {
      var i :| 0 <= i < |pg| && pg[i] == y;
      assert LessAt(pg, i, |pg| - 1);
    }
  }

  /** The objects of a page that are found as want, counted. */
  lemma PageCounted(
      q: Input, keys: set<string>, after: string, n: nat, pg: seq<string>, truncated: bool, status: string -> Status)
    requires IsPage(Names(q, keys), after, n, pg, truncated)
    ensures var common := Common(q, keys);
      && |Objects(pg, common, status, Corrupt)| == |set y | y in pg && IsPlain(q, y) && status(y) == Corrupt|
      && (Objects(pg, common, status, Unreadable) == [] <==>
            !exists y :: y in pg && IsPlain(q, y) && status(y) == Unreadable)
  {
    var common := Common(q, keys);
    PageNames(Names(q, keys), after, n, pg, truncated);
    forall y | y in pg
      ensures y in common <==> !IsPlain(q, y)
    {
      CommonIff(q, keys, y);
    }
    CorruptCounted(q, pg, common, status);
    UnreadableFound(q, pg, common, status);
  }

  lemma CorruptCounted(q: Input, pg: seq<string>, common: set<string>, status: string -> Status)
    requires Sorted(pg) && forall y :: y in pg ==> (y in common <==> !IsPlain(q, y))
    ensures |Objects(pg, common, status, Corrupt)| == |set y | y in pg && IsPlain(q, y) && status(y) == Corrupt|
  {
    var found := Objects(pg, common, status, Corrupt);
    ObjectsHave(pg, common, status, Corrupt);
    ObjectsSorted(pg, common, status, Corrupt);
    SortedSize(found);
    assert Elements(found) == set y | y in pg && IsPlain(q, y) && status(y) == Corrupt;
  }

  lemma UnreadableFound(q: Input, pg: seq<string>, common: set<string>, status: string -> Status)
    requires forall y :: y in pg ==> (y in common <==> !IsPlain(q, y))
    ensures Objects(pg, common, status, Unreadable) == [] <==>
      !exists y :: y in pg && IsPlain(q, y) && status(y) == Unreadable
  {
    var found := Objects(pg, common, status, Unreadable);
    ObjectsHave(pg, common, status, Unreadable);
    assert found != [] ==> found[0] in found;
  }

  lemma {:induction false} ObjectsHave(pg: seq<string>, common: set<string>, status: string -> Status, want: Status)
    ensures forall y :: y in Objects(pg, common, status, want) <==> y in pg && y !in common && status(y) == want
  {
    if pg != [] {
      ObjectsHave(pg[..|pg| - 1], common, status, want);
      assert pg == pg[..|pg| - 1] + [pg[|pg| - 1]];
    }
  }

  lemma ObjectsSorted(pg: seq<string>, common: set<string>, status: string -> Status, want: Status)
    requires Sorted(pg)
    ensures Sorted(Objects(pg, common, status, want))
  {
    PageSorted(pg, common, status, want);
  }

  lemma {:induction false} SortedSize(s: seq<string>)
    requires Sorted(s)
    ensures |Elements(s)| == |s|
  {
    if s != [] {
      var rest, x := s[..|s| - 1], s[|s| - 1];
      assert s == rest + [x];
      forall i, j | 0 <= i < j < |rest|
        ensures LessAt(rest, i, j)
      {
        assert LessAt(s, i, j);
      }
      SortedSize(rest);
      assert x !in rest by {
        if x in rest {
          var i :| 0 <= i < |rest| && rest[i] == x;
          assert LessAt(s, i, |s| - 1);
          LessTotal(x, x);
        }
      }
      assert Elements(s) == Elements(rest) + {x};
    }
  }

  lemma {:induction false} ObjectsGrow(
      pg: seq<string>, i: nat, common: set<string>, status: string -> Status, want: Status)
    requires i <= |pg|
    ensures Objects(pg[..i], common, status, want) <= Objects(pg, common, status, want)
    decreases |pg|
  {
    if i == |pg| {
      assert pg[..i] == pg;
    } else {
      ObjectsGrow(pg[..|pg| - 1], i, common, status, want);
      assert pg[..|pg| - 1][..i] == pg[..i];
    }
  }

  /** A page's common prefixes and its objects of each status are the names of that kind. */
  lemma {:induction false} PageSplit(pg: seq<string>, common: set<string>, status: string -> Status, want: Status)
    ensures forall n :: n in Prefixes(pg, common) <==> n in pg && n in common
    ensures forall n :: n in Objects(pg, common, status, want) <==> n in pg && n !in common && status(n) == want
  {
    if pg != [] {
      PageSplit(pg[..|pg| - 1], common, status, want);
      assert pg == pg[..|pg| - 1] + [pg[|pg| - 1]];
    }
  }

  /** Each of them is in order. */
  lemma {:induction false} PageSorted(pg: seq<string>, common: set<string>, status: string -> Status, want: Status)
    requires Sorted(pg)
    ensures Sorted(Prefixes(pg, common)) && Sorted(Objects(pg, common, status, want))
  {
    if pg != [] {
      var rest, x := pg[..|pg| - 1], pg[|pg| - 1];
      SortedPrefix(pg, |pg| - 1);
      PageSorted(rest, common, status, want);
      PageSplit(rest, common, status, want);
      assert pg == rest + [x];
      LastIsGreatest(rest, x);
      assert Prefixes(rest, common) + [] == Prefixes(rest, common);
      assert Objects(rest, common, status, want) + [] == Objects(rest, common, status, want);
      SortedLast(Prefixes(rest, common), x);
      SortedLast(Objects(rest, common, status, want), x);
    }
  }

  lemma LastIsGreatest(rest: seq<string>, x: string)
    requires Sorted(rest + [x])
    ensures forall n :: n in rest ==> Less(n, x)
  {
    forall n | n in rest
      ensures Less(n, x)
    {
      var i :| 0 <= i < |rest| && rest[i] == n;
      assert LessAt(rest + [x], i, |rest|);
    }
  }

  lemma SortedLast(list: seq<string>, x: string)
    requires Sorted(list) && forall n :: n in list ==> Less(n, x)
    ensures Sorted(list + [x])
  {
    var q := list + [x];
    forall i, j | 0 <= i < j < |q|
      ensures LessAt(q, i, j)
    {
      if j < |list| {
        assert LessAt(list, i, j);
      } else {
        assert list[i] in list;
      }
    }
  }

  // ---------------------------------------------------------------------------
  // Following the continuation
  // ---------------------------------------------------------------------------

  /** One page after another, each resuming after the last name of the one before it. */
  ghost predicate Pages(all: set<string>, after: string, n: nat, pages: seq<seq<string>>)
    decreases |pages|
  {
    && pages != []
    && IsPage(all, after, n, pages[0], |pages| > 1)
    && (|pages| > 1 ==> pages[0] != [] && Pages(all, pages[0][|pages[0]| - 1], n, pages[1..]))
  }

  ghost function Joined(pages: seq<seq<string>>): seq<string> {
    if pages == [] then [] else pages[0] + Joined(pages[1..])
  }

  /** What follows the n-th name that follows x. */
  lemma FollowingMore(list: seq<string>, x: string, n: nat)
    requires Sorted(list) && 0 < n <= |Following(list, x)|
    ensures Following(list, Following(list, x)[n - 1]) == Following(list, x)[n..]
  {
    var m := FollowingFrom(list, x);
    FollowingEntry(list, m + n - 1);
    SliceOfSlice(list, m, n);
  }

  lemma SliceOfSlice(list: seq<string>, m: nat, n: nat)
    requires m <= |list| && n <= |list| - m
    ensures list[m..][n..] == list[m + n..]
  {
  }

  /** What follows an entry of the list is the rest of the list. */
  lemma FollowingEntry(list: seq<string>, at: nat)
    requires Sorted(list) && at < |list|
    ensures Following(list, list[at]) == list[at + 1..]
  {
    RankAt(list, at);
  }

  lemma SortedAt(list: seq<string>, i: nat, j: nat)
    requires Sorted(list) && i < j < |list|
    ensures Less(list[i], list[j])
  {
    assert LessAt(list, i, j);
  }

  lemma RankAt(list: seq<string>, at: nat)
    requires Sorted(list) && at < |list|
    ensures Rank(list, list[at]) == at
  {
    var r := Rank(list, list[at]);
    RankIs(list, list[at]);
    LessTotal(list[at], list[at]);
    if r < at {
      SortedAt(list, r, at);
    }
  }

  /** What is left after a full page. */
  lemma LeftMore(all: set<string>, after: string, n: nat)
    requires 0 < n <= |Left(all, after)|
    ensures Left(all, Left(all, after)[n - 1]) == Left(all, after)[n..]
  {
    ListedIs(all);
    FollowingMore(Listed(all), after, n);
  }

  /** However many pages it takes, together they hold every name after the start once, in order. */
  lemma {:induction false} PagesJoin(all: set<string>, after: string, n: nat, pages: seq<seq<string>>)
    requires n >= 1 && Pages(all, after, n, pages)
    ensures Joined(pages) == Left(all, after)
    decreases |pages|
  {
    if |pages| > 1 {
      LeftMore(all, after, n);
      var rest := Left(all, after);
      PagesJoin(all, rest[n - 1], n, pages[1..]);
      HeadAndTail(rest, n);
    } else {
      assert pages[1..] == [];
    }
  }

  lemma HeadAndTail(list: seq<string>, n: nat)
    requires n <= |list|
    ensures list[..n] + list[n..] == list
  {
  }

  /** Following the continuation ends: there is a last page. */
  lemma {:induction false} PagesEnd(all: set<string>, after: string, n: nat) returns (pages: seq<seq<string>>)
    requires n >= 1
    ensures Pages(all, after, n, pages)
    decreases |Left(all, after)|
  {
    var rest := Left(all, after);
    if |rest| <= n {
      pages := [rest];
    } else {
      LeftMore(all, after, n);
      var more := PagesEnd(all, rest[n - 1], n);
      pages := [rest[..n]] + more;
      assert pages[1..] == more;
    }
  }

  lemma NamesNotEmpty(q: Input, keys: set<string>)
    ensures "" !in Names(q, keys)
  {
    forall k | k in keys && Selected(q, k)
      ensures Rolled(q, k) != ""
    {
    }
  }

  /**
    A whole listing, from no continuation on: the pages together are the sorted list of
    the names, each once, whatever the page size.
   */
  lemma ListingComplete(q: Input, keys: set<string>, n: nat, pages: seq<seq<string>>)
    requires n >= 1 && Pages(Names(q, keys), "", n, pages)
    ensures Joined(pages) == Listed(Names(q, keys))
  {
    PagesJoin(Names(q, keys), "", n, pages);
    NamesNotEmpty(q, keys);
    ListedIs(Names(q, keys));
    assert "" !in Elements(Listed(Names(q, keys)));
    FollowingEmpty(Listed(Names(q, keys)));
  }

  /** Every other string comes after the empty one. */
  lemma FollowingEmpty(list: seq<string>)
    requires Sorted(list) && "" !in list
    ensures Following(list, "") == list
  {
    RankIs(list, "");
    if list != [] {
      LessTotal(list[0], "");
    }
  }
}
