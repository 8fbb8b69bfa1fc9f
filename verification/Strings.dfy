/**
  The byte-wise order of strings, and sorting by it.
 */
module Strings {

  predicate Less(a: string, b: string) {
    && b != ""
    && (a == "" || a[0] < b[0] || (a[0] == b[0] && Less(a[1..], b[1..])))
  }

  lemma {:induction false} LessTransitive(a: string, b: string, c: string)
    requires Less(a, b) && Less(b, c)
    ensures Less(a, c)
  {
    if a != "" && a[0] == b[0] && b[0] == c[0] {
      LessTransitive(a[1..], b[1..], c[1..]);
    }
  }

  /** Of two strings exactly one of three holds: the first is less, the second is less, or they are equal. */
  lemma {:induction false} LessTotal(a: string, b: string)
    ensures !(Less(a, b) && Less(b, a))
    ensures Less(a, b) || Less(b, a) <==> a != b
  {
    if a != "" && b != "" {
      LessTotal(a[1..], b[1..]);
      assert a == [a[0]] + a[1..] && b == [b[0]] + b[1..];
    }
  }

  /** a is less than b if it is a first part of it, or has the lesser character where they first differ. */
  lemma {:induction false} LessIff(a: string, b: string)
    ensures Less(a, b) <==>
      exists i: nat :: i <= |a| && i < |b| && a[..i] == b[..i] && (i == |a| || a[i] < b[i])
  {
    if a == "" || b == "" || a[0] != b[0] {
      assert a[..0] == b[..0];
      forall i: nat | 0 < i <= |a| && i < |b| && a[..i] == b[..i]
        ensures a[0] == b[0]
      {
        assert a[..i][0] == b[..i][0];
      }
    } else {
      LessIff(a[1..], b[1..]);
      forall i: nat | i < |a| && i < |b|
        ensures a[1..][..i] == b[1..][..i] <==> a[..i + 1] == b[..i + 1]
      {
        assert a[..i + 1] == [a[0]] + a[1..][..i] && b[..i + 1] == [b[0]] + b[1..][..i];
        assert a[..i + 1][1..] == a[1..][..i] && b[..i + 1][1..] == b[1..][..i];
      }
      LessTails(a, b);
    }
  }

  lemma LessTails(a: string, b: string)
    requires a != "" && b != "" && a[0] == b[0]
    ensures (exists i: nat :: i <= |a| && i < |b| && a[..i] == b[..i] && (i == |a| || a[i] < b[i])) <==>
      exists i: nat :: i <= |a[1..]| && i < |b[1..]| && a[1..][..i] == b[1..][..i] &&
        (i == |a[1..]| || a[1..][i] < b[1..][i])
  {
    if i: nat :| i <= |a| && i < |b| && a[..i] == b[..i] && (i == |a| || a[i] < b[i]) {
      assert i > 0;
      assert a[1..][..i - 1] == a[..i][1..] && b[1..][..i - 1] == b[..i][1..];
      assert i - 1 <= |a[1..]| && (i - 1 == |a[1..]| || a[1..][i - 1] < b[1..][i - 1]);
    }
    var u, v := a[1..], b[1..];
    if i: nat :| i <= |u| && i < |v| && u[..i] == v[..i] && (i == |u| || u[i] < v[i]) {
      assert a[..i + 1] == [a[0]] + a[1..][..i] && b[..i + 1] == [b[0]] + b[1..][..i];
    }
  }

  /** s is in ascending order; entries may be repeated. */
  ghost predicate Ascending(s: seq<string>) {
    forall i, j :: 0 <= i < j < |s| ==> !Less(s[j], s[i])
  }

  /** s is in ascending order, without repeats. */
  ghost predicate Sorted(s: seq<string>) {
    forall i, j {:trigger LessAt(s, i, j)} :: 0 <= i < j < |s| ==> LessAt(s, i, j)
  }

  ghost predicate LessAt(s: seq<string>, i: int, j: int)
    requires 0 <= i < |s| && 0 <= j < |s|
  {
    Less(s[i], s[j])
  }

  ghost function Elements(s: seq<string>): set<string> {
    set x | x in s
  }

  /** A set of strings is listed in ascending order in one way only. */
  lemma {:induction false} SortedUnique(s: seq<string>, t: seq<string>)
    requires Sorted(s) && Sorted(t)
    requires Elements(s) == Elements(t)
    ensures s == t
  {
    assert s != [] ==> s[0] in Elements(t);
    assert t != [] ==> t[0] in Elements(s);
    if s != [] && t != [] {
      FirstIsLeast(s);
      FirstIsLeast(t);
      LessTotal(s[0], t[0]);
      SortedTail(s);
      SortedTail(t);
      assert Elements(s[1..]) == Elements(s) - {s[0]};
      SortedUnique(s[1..], t[1..]);
      assert s == [s[0]] + s[1..] && t == [t[0]] + t[1..];
    }
  }

  lemma FirstIsLeast(s: seq<string>)
    requires Sorted(s) && s != []
    ensures forall x :: x in s ==> x == s[0] || Less(s[0], x)
  {
    forall x | x in s && x != s[0]
      ensures Less(s[0], x)
    {
      var i :| 0 <= i < |s| && s[i] == x;
      assert LessAt(s, 0, i);
    }
  }

  lemma SortedTail(s: seq<string>)
    requires Sorted(s) && s != []
    ensures Sorted(s[1..])
    ensures Elements(s[1..]) == Elements(s) - {s[0]}
  {
    forall x | x in s[1..]
      ensures x != s[0]
    {
      LessTotal(x, s[0]);
      var i :| 0 <= i < |s[1..]| && s[1..][i] == x;
      assert LessAt(s, 0, 1 + i);
    }
    assert s == [s[0]] + s[1..];
    forall i, j | 0 <= i < j < |s[1..]|
      ensures LessAt(s[1..], i, j)
    {
      assert LessAt(s, 1 + i, 1 + j);
    }
  }

  /** x goes before the first entry that is greater. */
  function Insert(s: seq<string>, x: string): seq<string> {
    if s == [] then [x]
    else if Less(x, s[|s| - 1]) then Insert(s[..|s| - 1], x) + [s[|s| - 1]]
    else s + [x]
  }

  lemma {:induction false} InsertSame(s: seq<string>, x: string)
    ensures multiset(Insert(s, x)) == multiset(s) + multiset{x}
  {
    if s != [] {
      InsertSame(s[..|s| - 1], x);
      assert s == s[..|s| - 1] + [s[|s| - 1]];
    }
  }

  lemma {:induction false} InsertAscending(s: seq<string>, x: string)
    requires Ascending(s)
    ensures Ascending(Insert(s, x))
  {
    if s != [] {
      var rest, last := s[..|s| - 1], s[|s| - 1];
      if Less(x, last) {
        InsertAscending(rest, x);
        var r := Insert(rest, x);
        InsertSame(rest, x);
        forall i | 0 <= i < |r|
          ensures !Less(last, r[i])
        {
          assert r[i] in multiset(r);
          LessTotal(x, last);
        }
      } else {
        forall i | 0 <= i < |s|
          ensures !Less(x, s[i])
        {
          LessTotal(s[i], last);
          if Less(x, s[i]) && s[i] != last {
            LessTransitive(x, s[i], last);
          }
        }
      }
    }
  }

  function Sort(s: seq<string>): seq<string> {
    if s == [] then [] else Insert(Sort(s[..|s| - 1]), s[|s| - 1])
  }

  /** Sorting keeps every entry as often as it is there. */
  lemma {:induction false} SortSame(s: seq<string>)
    ensures multiset(Sort(s)) == multiset(s)
  {
    if s != [] {
      SortSame(s[..|s| - 1]);
      InsertSame(Sort(s[..|s| - 1]), s[|s| - 1]);
      assert s == s[..|s| - 1] + [s[|s| - 1]];
    }
  }

  lemma {:induction false} SortAscending(s: seq<string>)
    ensures Ascending(Sort(s))
  {
    if s != [] {
      SortAscending(s[..|s| - 1]);
      InsertAscending(Sort(s[..|s| - 1]), s[|s| - 1]);
    }
  }

  ghost predicate Distinct(s: seq<string>) {
    forall i, j :: 0 <= i < j < |s| ==> s[i] != s[j]
  }

  lemma DistinctCounts(s: seq<string>)
    requires Distinct(s)
    ensures forall x :: multiset(s)[x] <= 1
  {
    if s != [] {
      var rest := s[..|s| - 1];
      assert s == rest + [s[|s| - 1]];
      DistinctCounts(rest);
      assert s[|s| - 1] !in rest;
      assert s[|s| - 1] !in multiset(rest);
    }
  }

  lemma CountsDistinct(s: seq<string>)
    requires forall x :: multiset(s)[x] <= 1
    ensures Distinct(s)
  {
    forall i, j | 0 <= i < j < |s|
      ensures s[i] != s[j]
    {
      assert s == s[..i + 1] + s[i + 1..];
      assert multiset(s) == multiset(s[..i + 1]) + multiset(s[i + 1..]);
      var front, back := s[..i + 1], s[i + 1..];
      assert s[i] == front[i] && s[j] == back[j - i - 1];
      assert multiset(front)[s[i]] >= 1 && multiset(back)[s[j]] >= 1;
      assert multiset(s)[s[i]] <= 1;
    }
  }

  /** Sorting entries that are all different gives the one ascending list of them. */
  lemma SortDistinct(s: seq<string>)
    requires Distinct(s)
    ensures Sorted(Sort(s)) && Elements(Sort(s)) == Elements(s)
  {
    var r := Sort(s);
    SortSame(s);
    SortAscending(s);
    DistinctCounts(s);
    CountsDistinct(r);
    forall i, j | 0 <= i < j < |r|
      ensures LessAt(r, i, j)
    {
      LessTotal(r[i], r[j]);
    }
    SameElements(s, r);
  }

  lemma SameElements(s: seq<string>, r: seq<string>)
    requires multiset(s) == multiset(r)
    ensures Elements(s) == Elements(r)
  {
    forall x
      ensures x in s <==> x in r
    {
      assert x in s <==> x in multiset(s);
      assert x in r <==> x in multiset(r);
    }
  }

  ghost function Any(s: set<string>): (x: string)
    requires s != {}
    ensures x in s
  {
    var x :| x in s;
    x
  }

  /** The members of s in ascending order. */
  ghost function Listed(s: set<string>): seq<string> {
    if s == {} then [] else Sort(Listed(s - {Any(s)}) + [Any(s)])
  }

  lemma {:induction false} ListedIs(s: set<string>)
    ensures Sorted(Listed(s)) && Elements(Listed(s)) == s
  {
    if s != {} {
      var x := Any(s);
      var rest := Listed(s - {x});
      ListedIs(s - {x});
      AppendDistinct(rest, x);
      ElementsAppend(rest, x);
      SortDistinct(rest + [x]);
    }
  }

  lemma AppendDistinct(s: seq<string>, x: string)
    requires Sorted(s) && x !in Elements(s)
    ensures Distinct(s + [x])
  {
    SortedDistinct(s);
  }

  lemma ElementsAppend(s: seq<string>, x: string)
    ensures Elements(s + [x]) == Elements(s) + {x}
  {
    forall y
      ensures y in s + [x] <==> y in s || y == x
    {
    }
  }

  lemma SortedDistinct(s: seq<string>)
    requires Sorted(s)
    ensures Distinct(s)
  {
    forall i, j | 0 <= i < j < |s|
      ensures s[i] != s[j]
    {
      assert LessAt(s, i, j);
      LessTotal(s[i], s[j]);
    }
  }

  /** The members of a set in some order, as ranging over a map gives its keys. */
  method Range(s: set<string>) returns (r: seq<string>)
    ensures Distinct(r) && Elements(r) == s
  {
    r := [];
    var rest := s;
    while rest != {}
      invariant rest <= s
      invariant Distinct(r)
      invariant Elements(r) == s - rest
      decreases |rest|
    {
      var x :| x in rest;
      assert x !in Elements(r);
      ElementsAppend(r, x);
      r, rest := r + [x], rest - {x};
    }
  }
}
