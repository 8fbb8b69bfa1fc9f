/**
  Graphs in which a node has at most one outgoing edge, so that the nodes reachable
  from it form one walk. The waits-for graph of goroutines is one: a goroutine waits
  on at most one build, and a build is run by one goroutine.
 */
module Walks {
  import opened Wrappers
  import opened Sets

  type Node = nat

  /** The node n edges after g, or None when the walk has ended before that. */
  function Walk(next: map<Node, Node>, g: Node, n: nat): Option<Node>
    decreases n
  {
    if n == 0 then Some(g)
    else if g in next then Walk(next, next[g], n - 1)
    else None
  }

  /** The walk from g comes to target, possibly at once. */
  ghost predicate Reaches(next: map<Node, Node>, g: Node, target: Node) {
    exists n: nat :: Walk(next, g, n) == Some(target)
  }

  /** The walk from g comes to a node without an outgoing edge. */
  ghost predicate Ends(next: map<Node, Node>, g: Node) {
    exists n: nat :: Walk(next, g, n) == None
  }

  ghost predicate Acyclic(next: map<Node, Node>) {
    forall g: Node :: Ends(next, g)
  }

  lemma {:induction false} WalkAdd(next: map<Node, Node>, g: Node, n: nat, m: nat)
    requires Walk(next, g, n).Some?
    ensures Walk(next, g, n + m) == Walk(next, Walk(next, g, n).value, m)
    decreases n
  {
    if n > 0 {
      WalkAdd(next, next[g], n - 1, m);
    }
  }

  lemma {:induction false} WalkPrefix(next: map<Node, Node>, g: Node, n: nat, m: nat)
    requires n <= m && Walk(next, g, m).Some?
    ensures Walk(next, g, n).Some?
    ensures n < m ==> Walk(next, g, n).value in next
    decreases n
  {
    if n > 0 {
      WalkPrefix(next, next[g], n - 1, m - 1);
    }
  }

  /** The first n nodes of a walk. */
  ghost function Nodes(next: map<Node, Node>, g: Node, n: nat): (s: set<Node>)
    requires forall i: nat :: i < n ==> Walk(next, g, i).Some?
  {
    set i | 0 <= i < n :: Walk(next, g, i).value
  }

  lemma {:induction false} DistinctNodes(next: map<Node, Node>, g: Node, n: nat)
    requires forall i: nat :: i < n ==> Walk(next, g, i).Some?
    requires forall i: nat, j: nat :: i < j < n ==> Walk(next, g, i) != Walk(next, g, j)
    ensures |Nodes(next, g, n)| == n
  {
    if n > 0 {
      DistinctNodes(next, g, n - 1);
      var last := Walk(next, g, n - 1).value;
      assert Nodes(next, g, n) == Nodes(next, g, n - 1) + {last};
      assert last !in Nodes(next, g, n - 1);
    }
  }

  /** Among more nodes than there are edges, a walk visits some node twice. */
  lemma {:induction false} WalkRepeats(next: map<Node, Node>, g: Node, n: nat) returns (i: nat, j: nat)
    requires n > |next| && Walk(next, g, n).Some?
    ensures i < j < n && Walk(next, g, i) == Walk(next, g, j)
  {
    forall k: nat | k < n ensures Walk(next, g, k).Some? && Walk(next, g, k).value in next {
      WalkPrefix(next, g, k, n);
    }
    if forall i: nat, j: nat :: i < j < n ==> Walk(next, g, i) != Walk(next, g, j) {
      DistinctNodes(next, g, n);
      SubsetSize(Nodes(next, g, n), next.Keys);
      assert false;
    } else {
      i, j :| i < j < n && Walk(next, g, i) == Walk(next, g, j);
    }
  }

  /** Whatever a walk reaches, it reaches within as many edges as the graph has. */
  lemma {:induction false} ReachesWithin(next: map<Node, Node>, g: Node, target: Node, n: nat) returns (m: nat)
    requires Walk(next, g, n) == Some(target)
    ensures m <= |next| && Walk(next, g, m) == Some(target)
    decreases n
  {
    if n <= |next| {
      m := n;
    } else {
      var i, j := WalkRepeats(next, g, n);
      WalkPrefix(next, g, j, n);
      WalkAdd(next, g, j, n - j);
      WalkAdd(next, g, i, n - j);
      m := ReachesWithin(next, g, target, i + (n - j));
    }
  }

  /** In a graph without cycles a walk is never back at a node it has left. */
  lemma {:induction false} NoReturn(next: map<Node, Node>, g: Node, k: nat)
    requires Ends(next, g) && k > 0
    ensures Walk(next, g, k) != Some(g)
  {
    if Walk(next, g, k) == Some(g) {
      var n: nat :| Walk(next, g, n) == None;
      Loops(next, g, k, n);
      WalkPrefix(next, g, n, k * (n + 1));
    }
  }

  /** Every walk ends exactly when no walk comes back to where it started. */
  lemma AcyclicMeansNoCycle(next: map<Node, Node>)
    ensures Acyclic(next) <==> forall g: Node, k: nat :: k > 0 ==> Walk(next, g, k) != Some(g)
  {
    if Acyclic(next) {
      forall g: Node, k: nat | k > 0 ensures Walk(next, g, k) != Some(g) {
        assert Ends(next, g);
        NoReturn(next, g, k);
      }
    } else {
      var g: Node :| !Ends(next, g);
      var i, j := WalkRepeats(next, g, |next| + 1);
      WalkPrefix(next, g, j, |next| + 1);
      WalkAdd(next, g, i, j - i);
      assert Walk(next, Walk(next, g, i).value, j - i) == Walk(next, g, i);
    }
  }

  lemma {:induction false} Loops(next: map<Node, Node>, g: Node, k: nat, n: nat)
    requires k > 0 && Walk(next, g, k) == Some(g)
    ensures Walk(next, g, k * (n + 1)) == Some(g) && n <= k * (n + 1)
    decreases n
  {
    if n > 0 {
      Loops(next, g, k, n - 1);
      WalkAdd(next, g, k, k * n);
      assert k + k * n == k * (n + 1);
    }
  }

  /** A walk that does not come to g is not changed by an edge that starts at g. */
  lemma {:induction false} WalkAvoids(next: map<Node, Node>, x: Node, g: Node, h: Node, n: nat)
    requires g !in next
    requires forall i: nat :: i < n ==> Walk(next, x, i) != Some(g)
    ensures Walk(next[g := h], x, n) == Walk(next, x, n)
    decreases n
  {
    if n > 0 {
      assert Walk(next, x, 0) == Some(x);
      if x in next {
        forall i: nat | i < n - 1 ensures Walk(next, next[x], i) != Some(g) {
          assert Walk(next, x, i + 1) == Walk(next, next[x], i);
        }
        WalkAvoids(next, next[x], g, h, n - 1);
      }
    }
  }

  lemma {:induction false} FirstHit(next: map<Node, Node>, x: Node, g: Node, n: nat) returns (k: nat)
    requires Walk(next, x, n) == Some(g)
    ensures k <= n && Walk(next, x, k) == Some(g)
    ensures forall i: nat :: i < k ==> Walk(next, x, i) != Some(g)
  {
    k := 0;
    while Walk(next, x, k) != Some(g)
      invariant k <= n
      invariant forall i: nat :: i < k ==> Walk(next, x, i) != Some(g)
      decreases n - k
    {
      k := k + 1;
    }
  }

  /** An edge from g to h keeps the graph acyclic when no walk leads from h to g. */
  lemma AddEdge(next: map<Node, Node>, g: Node, h: Node)
    requires Acyclic(next) && g !in next && !Reaches(next, h, g)
    ensures Acyclic(next[g := h])
  {
    var next' := next[g := h];
    var m: nat :| Walk(next, h, m) == None by { assert Ends(next, h); }
    WalkAvoids(next, h, g, h, m);
    forall x: Node ensures Ends(next', x) {
      var n: nat :| Walk(next, x, n) == None by { assert Ends(next, x); }
      if hit: nat :| Walk(next, x, hit) == Some(g) {
        var k := FirstHit(next, x, g, hit);
        WalkAvoids(next, x, g, h, k);
        WalkAdd(next', x, k, m + 1);
        assert Walk(next', x, k + (m + 1)) == None;
      } else {
        WalkAvoids(next, x, g, h, n);
      }
    }
  }

  lemma {:induction false} RemoveWalk(next: map<Node, Node>, g: Node, x: Node, n: nat)
    requires Walk(next, x, n) == None
    ensures Walk(next - {g}, x, n) == None
    decreases n
  {
    if n > 0 && x in next && x != g {
      RemoveWalk(next, g, next[x], n - 1);
    }
  }

  /** Dropping an edge keeps the graph acyclic. */
  lemma RemoveEdge(next: map<Node, Node>, g: Node)
    requires Acyclic(next)
    ensures Acyclic(next - {g})
  {
    forall x: Node ensures Ends(next - {g}, x) {
      var n: nat :| Walk(next, x, n) == None by { assert Ends(next, x); }
      RemoveWalk(next, g, x, n);
    }
  }
}
