/**
 Review lots: the connected components of the similarity edges that have more
 than one entry. Entries and edges stand for their indices.
 */
module ReviewLots {
  import opened Connectivity
  import opened Counting
  import opened UnionFinds

  datatype Lot = Lot(members: seq<nat>, edges: seq<nat>) {
    function AddMember(i: nat): Lot { Lot(members + [i], edges) }

    function AddEdge(e: nat): Lot { Lot(members, edges + [e]) }
  }

  /** The entries below k whose root is r, in order. */
  function MembersOf(root: seq<nat>, k: nat, r: nat): (m: seq<nat>)
    requires k <= |root|
    ensures forall i: nat :: i in m <==> i < k && root[i] == r
    ensures Increasing(m)
  {
    if k == 0 then []
    else
      var init := MembersOf(root, k - 1, r);
      assert forall j :: 0 <= j < |init| ==> init[j] in init;
      init + if root[k - 1] == r then [k - 1] else []
  }

  /** The first k edges whose first end has root r, in order. */
  function EdgesOf(root: seq<nat>, edges: seq<Edge>, k: nat, r: nat): (m: seq<nat>)
    requires InRange(|root|, edges) && k <= |edges|
    ensures forall i: nat :: i in m <==> i < k && root[edges[i].0] == r
    ensures Increasing(m)
  {
    if k == 0 then []
    else
      assert edges[k - 1] in edges;
      var init := EdgesOf(root, edges, k - 1, r);
      assert forall j :: 0 <= j < |init| ==> init[j] in init;
      init + if root[edges[k - 1].0] == r then [k - 1] else []
  }

  ghost predicate Distinct(s: seq<nat>) {
    forall i, j :: 0 <= i < j < |s| ==> s[i] != s[j]
  }

  /** The lot that has been put together for root r after k entries and e edges. */
  function Node(root: seq<nat>, edges: seq<Edge>, k: nat, e: nat, r: nat): Lot
    requires InRange(|root|, edges) && k <= |root| && e <= |edges|
  {
    Lot(MembersOf(root, k, r), EdgesOf(root, edges, e, r))
  }

  ghost predicate GoodNode(nodes: map<nat, Lot>, root: seq<nat>, edges: seq<Edge>, k: nat, e: nat, r: nat)
    requires InRange(|root|, edges) && k <= |root| && e <= |edges|
  {
    r in nodes ==> nodes[r] == Node(root, edges, k, e, r)
  }

  ghost predicate Grouped(nodes: map<nat, Lot>, root: seq<nat>, edges: seq<Edge>, k: nat, e: nat)
    requires InRange(|root|, edges) && k <= |root| && e <= |edges|
  {
    && (forall i :: 0 <= i < k ==> root[i] in nodes)
    && (forall r :: GoodNode(nodes, root, edges, k, e, r))
  }

  /** The keys of the dictionary, each once, in order of insertion. */
  ghost predicate Keyed(keys: seq<nat>, domain: set<nat>) {
    Distinct(keys) && forall r :: r in keys <==> r in domain
  }

  /** A lot that is exactly one component of more than one entry, with all its edges. */
  ghost predicate IsLot(n: nat, edges: seq<Edge>, lot: Lot) {
    && |lot.members| > 1 && Increasing(lot.members) && Increasing(lot.edges)
    && (forall a :: a in lot.members ==> a < n)
    && (forall a: nat, b: nat :: a in lot.members && b < n ==> (b in lot.members <==> Connected(edges, a, b)))
    && (forall e: nat :: e in lot.edges <==> e < |edges| && edges[e].0 in lot.members)
    && (forall e :: e in lot.edges ==> edges[e].0 in lot.members && edges[e].1 in lot.members)
  }

  lemma ComponentIsLot(n: nat, edges: seq<Edge>, r: nat)
    requires InRange(n, edges)
    requires |MembersOf(Roots(n, edges), n, r)| > 1
    ensures IsLot(n, edges, Lot(MembersOf(Roots(n, edges), n, r), EdgesOf(Roots(n, edges), edges, |edges|, r)))
  {
    var root := Roots(n, edges);
    var lot := Lot(MembersOf(root, n, r), EdgesOf(root, edges, |edges|, r));
    forall a: nat, b: nat | a in lot.members && b < n ensures b in lot.members <==> Connected(edges, a, b) {
      RootsAreComponents(n, edges, a, b);
    }
    forall e: nat ensures e in lot.edges <==> e < |edges| && edges[e].0 in lot.members {
      if e < |edges| {
        assert edges[e] in edges;
      }
    }
    forall e | e in lot.edges ensures edges[e].0 in lot.members && edges[e].1 in lot.members {
      EdgesShareRoot(n, edges, edges[e]);
    }
  }

  /** An entry connected to another one lies on an edge, so its node is kept. */
  lemma LargeComponentHasEdges(n: nat, edges: seq<Edge>, r: nat)
    requires InRange(n, edges)
    requires |MembersOf(Roots(n, edges), n, r)| > 1
    ensures EdgesOf(Roots(n, edges), edges, |edges|, r) != []
  {
    var root := Roots(n, edges);
    var m := MembersOf(root, n, r);
    var a, b := m[0], m[1];
    assert a in m && b in m;
    RootsAreComponents(n, edges, a, b);
    var p :| PathBetween(edges, p, a, b);
    assert Joined(edges, p[0], p[1]);
    var edge := if (p[0], p[1]) in edges then (p[0], p[1]) else (p[1], p[0]);
    var e :| 0 <= e < |edges| && edges[e] == edge;
    EdgesShareRoot(n, edges, edge);
    assert e in EdgesOf(root, edges, |edges|, r);
  }

  /** No two lots share an entry or an edge. */
  ghost predicate Separate(lots: seq<Lot>) {
    forall k, l :: 0 <= k < l < |lots| ==>
      && (forall a :: a in lots[k].members ==> a !in lots[l].members)
      && (forall e :: e in lots[k].edges ==> e !in lots[l].edges)
  }

  /** Two different entries in one component are in one lot, and so is an edge between two entries. */
  ghost predicate Complete(n: nat, edges: seq<Edge>, lots: seq<Lot>) {
    && (forall a: nat, b: nat :: a < n && b < n && a != b && Connected(edges, a, b) ==>
          exists lot :: lot in lots && a in lot.members && b in lot.members)
    && (forall e :: 0 <= e < |edges| && edges[e].0 != edges[e].1 ==> exists lot :: lot in lots && e in lot.edges)
  }

  lemma OneMoreMember(root: seq<nat>, edges: seq<Edge>, i: nat, r: nat)
    requires InRange(|root|, edges) && i < |root|
    ensures Node(root, edges, i + 1, 0, r)
         == if root[i] == r then Node(root, edges, i, 0, r).AddMember(i) else Node(root, edges, i, 0, r)
  {
  }

  /** Grouping one more entry under its root. */
  lemma GroupEntry(nodes: map<nat, Lot>, root: seq<nat>, edges: seq<Edge>, i: nat, node: Lot)
    requires InRange(|root|, edges) && i < |root| && Grouped(nodes, root, edges, i, 0)
    requires node == if root[i] in nodes then nodes[root[i]].AddMember(i) else Lot([i], [])
    ensures Grouped(nodes[root[i] := node], root, edges, i + 1, 0)
  {
    var r := root[i];
    var nodes', k := nodes[r := node], i + 1;
    if r !in nodes {
      NoMembersYet(root, i, r);
    }
    forall x: nat ensures GoodNode(nodes', root, edges, k, 0, x) {
      assert GoodNode(nodes, root, edges, i, 0, x);
      OneMoreMember(root, edges, i, x);
    }
  }

  /** Adding one more edge to the node of its first end. */
  lemma GroupEdge(nodes: map<nat, Lot>, root: seq<nat>, edges: seq<Edge>, e: nat)
    requires InRange(|root|, edges) && e < |edges| && Grouped(nodes, root, edges, |root|, e)
    ensures edges[e].0 < |root| && root[edges[e].0] in nodes
    ensures var r := root[edges[e].0];
            Grouped(nodes[r := nodes[r].AddEdge(e)], root, edges, |root|, e + 1)
  {
    assert edges[e] in edges;
    var r := root[edges[e].0];
    var nodes', e' := nodes[r := nodes[r].AddEdge(e)], e + 1;
    forall x: nat ensures GoodNode(nodes', root, edges, |root|, e', x) {
      assert GoodNode(nodes, root, edges, |root|, e, x);
    }
  }

  lemma {:induction false} NoMembersYet(root: seq<nat>, k: nat, r: nat)
    requires k <= |root| && forall i :: 0 <= i < k ==> root[i] != r
    ensures MembersOf(root, k, r) == []
  {
    if k > 0 {
      NoMembersYet(root, k - 1, r);
    }
  }

  /** The nodes with several members and some edge, in order. */
  function Kept(keys: seq<nat>, nodes: map<nat, Lot>): seq<Lot>
    requires forall r :: r in keys ==> r in nodes
  {
    if keys == [] then []
    else
      var node := nodes[keys[0]];
      (if |node.members| > 1 && node.edges != [] then [node] else []) + Kept(keys[1..], nodes)
  }

  lemma {:induction false} KeptContains(keys: seq<nat>, nodes: map<nat, Lot>, lot: Lot)
    requires forall r :: r in keys ==> r in nodes
    ensures lot in Kept(keys, nodes) <==>
            exists r :: r in keys && nodes[r] == lot && |lot.members| > 1 && lot.edges != []
  {
    if keys != [] {
      KeptContains(keys[1..], nodes, lot);
      assert forall r :: r in keys <==> r == keys[0] || r in keys[1..];
    }
  }

  lemma {:induction false} KeptInOrder(keys: seq<nat>, nodes: map<nat, Lot>, k: nat, l: nat) returns (i: nat, j: nat)
    requires forall r :: r in keys ==> r in nodes
    requires k < l < |Kept(keys, nodes)|
    ensures i < j < |keys| && Kept(keys, nodes)[k] == nodes[keys[i]] && Kept(keys, nodes)[l] == nodes[keys[j]]
  {
    var node := nodes[keys[0]];
    if |node.members| > 1 && node.edges != [] {
      if k == 0 {
        var lot := Kept(keys[1..], nodes)[l - 1];
        assert lot in Kept(keys[1..], nodes);
        KeptContains(keys[1..], nodes, lot);
        var r :| r in keys[1..] && nodes[r] == lot;
        var at :| 0 <= at < |keys[1..]| && keys[1..][at] == r;
        return 0, at + 1;
      }
      i, j := KeptInOrder(keys[1..], nodes, k - 1, l - 1);
    } else {
      i, j := KeptInOrder(keys[1..], nodes, k, l);
    }
    i, j := i + 1, j + 1;
  }

  lemma KeptAreLots(n: nat, edges: seq<Edge>, keys: seq<nat>, nodes: map<nat, Lot>)
    requires InRange(n, edges) && Grouped(nodes, Roots(n, edges), edges, n, |edges|) && Keyed(keys, nodes.Keys)
    ensures forall lot :: lot in Kept(keys, nodes) ==> IsLot(n, edges, lot)
  {
    forall lot | lot in Kept(keys, nodes) ensures IsLot(n, edges, lot) {
      KeptContains(keys, nodes, lot);
      var r :| r in keys && nodes[r] == lot;
      assert GoodNode(nodes, Roots(n, edges), edges, n, |edges|, r);
      ComponentIsLot(n, edges, r);
    }
  }

  lemma KeptAreSeparate(n: nat, edges: seq<Edge>, keys: seq<nat>, nodes: map<nat, Lot>)
    requires InRange(n, edges) && Grouped(nodes, Roots(n, edges), edges, n, |edges|) && Keyed(keys, nodes.Keys)
    ensures Separate(Kept(keys, nodes))
  {
    var lots := Kept(keys, nodes);
    forall k, l | 0 <= k < l < |lots|
      ensures (forall a :: a in lots[k].members ==> a !in lots[l].members)
      ensures (forall e :: e in lots[k].edges ==> e !in lots[l].edges)
    {
      var i, j := KeptInOrder(keys, nodes, k, l);
      assert keys[i] != keys[j];
      assert GoodNode(nodes, Roots(n, edges), edges, n, |edges|, keys[i]);
      assert GoodNode(nodes, Roots(n, edges), edges, n, |edges|, keys[j]);
    }
  }

  lemma KeptAreComplete(n: nat, edges: seq<Edge>, keys: seq<nat>, nodes: map<nat, Lot>)
    requires InRange(n, edges) && Grouped(nodes, Roots(n, edges), edges, n, |edges|) && Keyed(keys, nodes.Keys)
    ensures Complete(n, edges, Kept(keys, nodes))
  {
    forall a: nat, b: nat | a < n && b < n && a != b && Connected(edges, a, b)
      ensures exists lot :: lot in Kept(keys, nodes) && a in lot.members && b in lot.members
    {
      var lot := ComponentIsKept(n, edges, keys, nodes, a, b);
    }
    forall e | 0 <= e < |edges| && edges[e].0 != edges[e].1
      ensures exists lot :: lot in Kept(keys, nodes) && e in lot.edges
    {
      assert edges[e] in edges;
      ConnectedByEdge(edges, edges[e].0, edges[e].1);
      var lot := ComponentIsKept(n, edges, keys, nodes, edges[e].0, edges[e].1);
    }
  }

  lemma ComponentIsKept(n: nat, edges: seq<Edge>, keys: seq<nat>, nodes: map<nat, Lot>, a: nat, b: nat)
      returns (lot: Lot)
    requires InRange(n, edges) && Grouped(nodes, Roots(n, edges), edges, n, |edges|) && Keyed(keys, nodes.Keys)
    requires a < n && b < n && a != b && Connected(edges, a, b)
    ensures lot in Kept(keys, nodes) && a in lot.members && b in lot.members
    ensures forall e :: 0 <= e < |edges| && edges[e].0 == a ==> e in lot.edges
  {
    var root := Roots(n, edges);
    RootsAreComponents(n, edges, a, b);
    var r := root[a];
    lot := nodes[r];
    assert GoodNode(nodes, root, edges, n, |edges|, r);
    assert a in lot.members && b in lot.members;
    var i :| 0 <= i < |lot.members| && lot.members[i] == a;
    var j :| 0 <= j < |lot.members| && lot.members[j] == b;
    assert i != j;
    LargeComponentHasEdges(n, edges, r);
    KeptContains(keys, nodes, lot);
  }

  /** The union-find after all edges: its roots are the components. */
  method UniteAll(n: nat, edges: seq<Edge>) returns (uf: UnionFind)
    requires InRange(n, edges)
    ensures fresh(uf) && fresh(uf.parent) && uf.Valid() && uf.parent.Length == n
    ensures uf.root == Roots(n, edges)
  {
    uf := new UnionFind(n);
    for i := 0 to |edges|
      invariant fresh(uf) && fresh(uf.parent) && uf.Valid() && uf.parent.Length == n
      invariant uf.root == Roots(n, edges[..i])
    {
      assert edges[i] in edges;
      uf.Union(edges[i].0, edges[i].1);
      assert edges[..i + 1][..i] == edges[..i];
    }
    assert edges[..|edges|] == edges;
  }

  method GroupEntries(uf: UnionFind, edges: seq<Edge>) returns (keys: seq<nat>, nodes: map<nat, Lot>)
    requires uf.Valid() && InRange(uf.parent.Length, edges)
    modifies uf.parent
    ensures uf.Valid() && Grouped(nodes, uf.root, edges, uf.parent.Length, 0) && Keyed(keys, nodes.Keys)
  {
    nodes, keys := map[], [];
    var i: nat := 0;
    while i < uf.parent.Length
      invariant i <= uf.parent.Length
      invariant uf.Valid() && Grouped(nodes, uf.root, edges, i, 0) && Keyed(keys, nodes.Keys)
    {
      var r := uf.Find(i);
      var node := if r in nodes then nodes[r].AddMember(i) else Lot([i], []);
      GroupEntry(nodes, uf.root, edges, i, node);
      if r !in nodes {
        keys := keys + [r];
      }
      nodes := nodes[r := node];
      i := i + 1;
    }
  }

  method GroupEdges(uf: UnionFind, edges: seq<Edge>, entries: map<nat, Lot>) returns (nodes: map<nat, Lot>)
    requires uf.Valid() && InRange(uf.parent.Length, edges)
    requires Grouped(entries, uf.root, edges, uf.parent.Length, 0)
    modifies uf.parent
    ensures Grouped(nodes, uf.root, edges, uf.parent.Length, |edges|) && nodes.Keys == entries.Keys
  {
    nodes := entries;
    var e: nat := 0;
    while e < |edges|
      invariant e <= |edges|
      invariant uf.Valid() && Grouped(nodes, uf.root, edges, uf.parent.Length, e) && nodes.Keys == entries.Keys
    {
      GroupEdge(nodes, uf.root, edges, e);
      var r := uf.Find(edges[e].0);
      nodes := nodes[r := nodes[r].AddEdge(e)];
      e := e + 1;
    }
  }

  /**
   The lots are exactly the components of more than one entry, with each edge
   between two entries in exactly one of them.
   */
  method BuildLots(n: nat, edges: seq<Edge>) returns (lots: seq<Lot>)
    requires InRange(n, edges)
    ensures forall lot :: lot in lots ==> IsLot(n, edges, lot)
    ensures Separate(lots) && Complete(n, edges, lots)
  {
    var uf := UniteAll(n, edges);
    var keys, entries := GroupEntries(uf, edges);
    var nodes := GroupEdges(uf, edges, entries);
    lots := Kept(keys, nodes);
    KeptAreLots(n, edges, keys, nodes);
    KeptAreSeparate(n, edges, keys, nodes);
    KeptAreComplete(n, edges, keys, nodes);
  }
}
