/** Connectivity by edges, and the union-find that decides it. */
module Connectivity {

  type Edge = (nat, nat)

  predicate Joined(edges: seq<Edge>, a: nat, b: nat) {
    (a, b) in edges || (b, a) in edges
  }

  ghost predicate IsPath(edges: seq<Edge>, p: seq<nat>) {
    |p| > 0 && forall k :: 0 < k < |p| ==> Joined(edges, p[k - 1], p[k])
  }

  ghost predicate PathBetween(edges: seq<Edge>, p: seq<nat>, a: nat, b: nat) {
    IsPath(edges, p) && p[0] == a && p[|p| - 1] == b
  }

  ghost predicate Connected(edges: seq<Edge>, a: nat, b: nat) {
    exists p :: PathBetween(edges, p, a, b)
  }

  lemma ConnectedToSelf(edges: seq<Edge>, a: nat)
    ensures Connected(edges, a, a)
  {
    assert PathBetween(edges, [a], a, a);
  }

  lemma ConnectedByEdge(edges: seq<Edge>, a: nat, b: nat)
    requires Joined(edges, a, b)
    ensures Connected(edges, a, b)
  {
    assert PathBetween(edges, [a, b], a, b);
  }

  lemma ConnectedBack(edges: seq<Edge>, a: nat, b: nat)
    requires Connected(edges, a, b)
    ensures Connected(edges, b, a)
  {
    var p :| PathBetween(edges, p, a, b);
    var q := seq(|p|, k requires 0 <= k < |p| => p[|p| - 1 - k]);
    forall k | 0 < k < |q| ensures Joined(edges, q[k - 1], q[k]) {
      assert Joined(edges, p[|p| - 1 - k], p[|p| - k]);
    }
    assert PathBetween(edges, q, b, a);
  }

  lemma ConnectedThrough(edges: seq<Edge>, a: nat, b: nat, c: nat)
    requires Connected(edges, a, b) && Connected(edges, b, c)
    ensures Connected(edges, a, c)
  {
    var p :| PathBetween(edges, p, a, b);
    var q :| PathBetween(edges, q, b, c);
    assert PathBetween(edges, p + q[1..], a, c);
  }

  lemma MoreEdgesConnect(edges: seq<Edge>, more: seq<Edge>, a: nat, b: nat)
    requires Connected(edges, a, b)
    ensures Connected(edges + more, a, b)
  {
    var p :| PathBetween(edges, p, a, b);
    assert PathBetween(edges + more, p, a, b);
  }

  // ----- the roots after merging the edges one by one -----

  function Merged(root: seq<nat>, e: Edge): seq<nat>
    requires e.0 < |root| && e.1 < |root|
  {
    seq(|root|, i requires 0 <= i < |root| => if root[i] == root[e.0] then root[e.1] else root[i])
  }

  predicate InRange(n: nat, edges: seq<Edge>) {
    forall e :: e in edges ==> e.0 < n && e.1 < n
  }

  function Roots(n: nat, edges: seq<Edge>): (root: seq<nat>)
    requires InRange(n, edges)
    ensures |root| == n
  {
    if edges == [] then seq(n, i => i)
    else
      assert edges[|edges| - 1] in edges;
      Merged(Roots(n, edges[..|edges| - 1]), edges[|edges| - 1])
  }

  lemma {:induction false} EdgesShareRoot(n: nat, edges: seq<Edge>, e: Edge)
    requires InRange(n, edges) && e in edges
    ensures e.0 < n && e.1 < n && Roots(n, edges)[e.0] == Roots(n, edges)[e.1]
  {
    var init := edges[..|edges| - 1];
    if e in init {
      EdgesShareRoot(n, init, e);
    }
  }

  lemma {:induction false} PathsShareRoot(n: nat, edges: seq<Edge>, p: seq<nat>)
    requires InRange(n, edges) && IsPath(edges, p) && p[0] < n
    ensures p[|p| - 1] < n && Roots(n, edges)[p[0]] == Roots(n, edges)[p[|p| - 1]]
  {
    if |p| > 1 {
      var q := p[..|p| - 1];
      PathsShareRoot(n, edges, q);
      var a, b := p[|p| - 2], p[|p| - 1];
      assert Joined(edges, a, b);
      EdgesShareRoot(n, edges, if (a, b) in edges then (a, b) else (b, a));
    }
  }

  lemma {:induction false} SharedRootConnects(n: nat, edges: seq<Edge>, a: nat, b: nat)
    requires InRange(n, edges) && a < n && b < n && Roots(n, edges)[a] == Roots(n, edges)[b]
    ensures Connected(edges, a, b)
    decreases |edges|, 0
  {
    if edges == [] {
      ConnectedToSelf(edges, a);
    } else {
      var init, e := edges[..|edges| - 1], edges[|edges| - 1];
      assert edges == init + [e];
      var root := Roots(n, init);
      if root[a] == root[b] {
        SharedRootConnects(n, init, a, b);
        MoreEdgesConnect(init, [e], a, b);
      } else if root[a] == root[e.0] {
        CrossingConnects(n, init, e, a, b);
      } else {
        CrossingConnects(n, init, e, b, a);
        ConnectedBack(edges, b, a);
      }
    }
  }

  /** a is on the side of e.0 and b on the side of e.1. */
  lemma CrossingConnects(n: nat, init: seq<Edge>, e: Edge, a: nat, b: nat)
    requires InRange(n, init + [e]) && InRange(n, init) && a < n && b < n && e.0 < n && e.1 < n
    requires Roots(n, init)[a] == Roots(n, init)[e.0] && Roots(n, init)[b] == Roots(n, init)[e.1]
    ensures Connected(init + [e], a, b)
    decreases |init|, 1
  {
    var edges := init + [e];
    SharedRootConnects(n, init, a, e.0);
    SharedRootConnects(n, init, e.1, b);
    MoreEdgesConnect(init, [e], a, e.0);
    MoreEdgesConnect(init, [e], e.1, b);
    ConnectedByEdge(edges, e.0, e.1);
    ConnectedThrough(edges, a, e.0, e.1);
    ConnectedThrough(edges, a, e.1, b);
  }

  /** Two entries have the same root exactly when a path of edges joins them. */
  lemma RootsAreComponents(n: nat, edges: seq<Edge>, a: nat, b: nat)
    requires InRange(n, edges) && a < n && b < n
    ensures Roots(n, edges)[a] == Roots(n, edges)[b] <==> Connected(edges, a, b)
  {
    if Roots(n, edges)[a] == Roots(n, edges)[b] {
      SharedRootConnects(n, edges, a, b);
    }
    if Connected(edges, a, b) {
      var p :| PathBetween(edges, p, a, b);
      PathsShareRoot(n, edges, p);
    }
  }
}

module UnionFinds {
  import opened Connectivity

  /**
   A parent array without cycles: rank grows along every parent link, and root
   says where the links of each node end.
   */
  ghost predicate Forest(parent: seq<nat>, root: seq<nat>, rank: seq<nat>, bound: nat) {
    && |parent| == |root| == |rank|
    && forall i :: 0 <= i < |parent| ==> GoodNode(parent, root, rank, bound, i)
  }

  ghost predicate GoodNode(parent: seq<nat>, root: seq<nat>, rank: seq<nat>, bound: nat, i: nat)
    requires |parent| == |root| == |rank| && i < |parent|
  {
    var up, top := parent[i], root[i];
    && up < |parent| && top < |parent| && rank[i] <= bound
    && root[up] == top && parent[top] == top && root[top] == top
    && if up == i then top == i else rank[i] < rank[up] <= rank[top]
  }

  lemma CompressionKeepsForest(parent: seq<nat>, root: seq<nat>, rank: seq<nat>, bound: nat, i: nat)
    requires Forest(parent, root, rank, bound) && i < |parent| && parent[i] != i
    ensures GoodNode(parent, root, rank, bound, i)
    ensures Forest(parent[i := root[i]], root, rank, bound)
  {
    var parent' := parent[i := root[i]];
    assert GoodNode(parent, root, rank, bound, i);
    forall k | 0 <= k < |parent| ensures GoodNode(parent', root, rank, bound, k) {
      assert GoodNode(parent, root, rank, bound, k);
      assert GoodNode(parent, root, rank, bound, root[i]);
    }
  }

  /** Linking one root under another merges two classes and keeps the forest. */
  lemma LinkingKeepsForest(parent: seq<nat>, root: seq<nat>, rank: seq<nat>, bound: nat, a: nat, b: nat)
      returns (rank': seq<nat>)
    requires Forest(parent, root, rank, bound) && a < |parent| && b < |parent| && root[a] != root[b]
    ensures root[a] < |parent|
    ensures Forest(parent[root[a] := root[b]], Merged(root, (a, b)), rank', bound + 1)
  {
    var ra, rb := root[a], root[b];
    assert GoodNode(parent, root, rank, bound, a) && GoodNode(parent, root, rank, bound, b);
    assert GoodNode(parent, root, rank, bound, ra) && GoodNode(parent, root, rank, bound, rb);
    rank' := rank[rb := if rank[rb] > rank[ra] then rank[rb] else rank[ra] + 1];
    var parent', root', bound' := parent[ra := rb], Merged(root, (a, b)), bound + 1;
    forall k | 0 <= k < |parent| ensures GoodNode(parent', root', rank', bound', k) {
      assert GoodNode(parent, root, rank, bound, k);
      assert GoodNode(parent, root, rank, bound, parent[k]);
    }
  }

  class UnionFind {
    const parent: array<nat>
    ghost var root: seq<nat>
    ghost var rank: seq<nat>
    ghost var bound: nat

    ghost predicate Valid()
      reads this, parent
    {
      Forest(parent[..], root, rank, bound)
    }

    constructor (size: nat)
      ensures Valid() && parent.Length == size && root == Roots(size, []) && fresh(parent)
    {
      parent := new nat[size](i => i);
      root := seq(size, i => i);
      rank := seq(size, _ => 0);
      bound := 0;
    }

    /** The root of x. Compresses the path of x, and moves nobody to another root. */
    method Find(x: nat) returns (r: nat)
      requires Valid() && x < parent.Length
      modifies parent
      ensures Valid() && r < parent.Length && r == root[x] && parent[r] == r
    {
      r := x;
      assert GoodNode(parent[..], root, rank, bound, x);
      while parent[r] != r
        invariant r < parent.Length && root[r] == root[x]
        invariant GoodNode(parent[..], root, rank, bound, r)
        decreases bound - rank[r]
      {
        assert GoodNode(parent[..], root, rank, bound, parent[r]);
        r := parent[r];
      }
      var y: nat := x;
      while parent[y] != r
        invariant Valid() && y < parent.Length && r < parent.Length && r == root[y] && parent[r] == r
        invariant GoodNode(parent[..], root, rank, bound, y)
        decreases bound - rank[y]
      {
        ghost var before := parent[..];
        CompressionKeepsForest(before, root, rank, bound, y);
        var next := parent[y];
        assert GoodNode(before, root, rank, bound, next);
        parent[y] := r;
        assert parent[..] == before[y := r];
        y := next;
        assert GoodNode(parent[..], root, rank, bound, y);
      }
    }

    method Union(a: nat, b: nat)
      requires Valid() && a < parent.Length && b < parent.Length
      modifies this, parent
      ensures Valid() && root == Merged(old(root), (a, b))
    {
      var ra := Find(a);
      var rb := Find(b);
      assert GoodNode(parent[..], root, rank, bound, a);
      if ra != rb {
        ghost var before := parent[..];
        rank := LinkingKeepsForest(before, root, rank, bound, a, b);
        parent[ra] := rb;
        assert parent[..] == before[ra := rb];
        root := Merged(root, (a, b));
        bound := bound + 1;
      } else {
        assert Merged(root, (a, b)) == root;
      }
    }
  }
}
