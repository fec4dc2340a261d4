/** What `ProvinceGraph::from` guarantees about the graph it builds: where
    each edge lands, which names it resolves to, and what happens with
    duplicate names (src/data_structures/graph.rs). */
module GraphProperties {
  import opened Wrappers
  import opened Graph

  /** The first node carrying a name is its own owner. */
  lemma OwnerOfOwner(provinces: seq<ProvinceData>, i: nat)
    requires i < |provinces|
    ensures Owner(provinces, Owner(provinces, i)) == Owner(provinces, i)
  {
  }

  /** A successful edge loop was successful on every shorter prefix. */
  lemma LinkOkPrefix(provinces: seq<ProvinceData>, count: nat)
    requires 0 < count <= |provinces| && Link(provinces, count).Ok?
    ensures Link(provinces, count - 1).Ok?
    ensures ResolveNeighbours(RecordNames(provinces), provinces[count - 1].connectedProvinces).Ok?
  {
  }

  /** Only the first node carrying a name ever receives edges: a node whose
      name an earlier node already carries keeps an empty list. */
  lemma {:induction false} LinkNonOwnerEmpty(provinces: seq<ProvinceData>, count: nat)
    requires count <= |provinces| && Link(provinces, count).Ok?
    ensures forall k :: 0 <= k < |provinces| && Owner(provinces, k) != k ==> Link(provinces, count).value[k] == []
  {
    if count > 0 {
      LinkOkPrefix(provinces, count);
      LinkNonOwnerEmpty(provinces, count - 1);
      LinkNext(provinces, count - 1);
      OwnerOfOwner(provinces, count - 1);
    }
  }

  /** Every index that record `i` resolves is on the list of record `i`'s owner. */
  ghost predicate Collected(provinces: seq<ProvinceData>, count: nat, i: nat)
    requires i < count <= |provinces| && Link(provinces, count).Ok?
  {
    var resolved := ResolveNeighbours(RecordNames(provinces), provinces[i].connectedProvinces);
    resolved.Ok? && forall e :: e in resolved.value ==> e in Link(provinces, count).value[Owner(provinces, i)]
  }

  /** Edges are only ever appended: each record's resolved indices stay on
      its owner's list once pushed there. */
  lemma {:induction false} LinkOwnerCollects(provinces: seq<ProvinceData>, count: nat)
    requires count <= |provinces| && Link(provinces, count).Ok?
    ensures forall i :: 0 <= i < count ==> Collected(provinces, count, i)
  {
    if count > 0 {
      LinkOkPrefix(provinces, count);
      LinkOwnerCollects(provinces, count - 1);
      CollectStep(provinces, count - 1, count);
    }
  }

  /** Handling record `o` keeps what earlier records collected and collects
      record `o`'s own indices. */
  lemma CollectStep(provinces: seq<ProvinceData>, o: nat, count: nat)
    requires count == o + 1 <= |provinces| && Link(provinces, count).Ok? && Link(provinces, o).Ok?
    requires forall i :: 0 <= i < o ==> Collected(provinces, o, i)
    ensures forall i :: 0 <= i < count ==> Collected(provinces, count, i)
  {
    LinkNext(provinces, o);
    var names := RecordNames(provinces);
    var adj := Link(provinces, o).value;
    var owner := Owner(provinces, o);
    var ids := ResolveNeighbours(names, provinces[o].connectedProvinces).value;
    var adj' := Link(provinces, count).value;
    assert adj' == adj[owner := adj[owner] + ids];
    forall i | 0 <= i < count
      ensures Collected(provinces, count, i)
    {
      if i < o {
        assert Collected(provinces, o, i);
        var p := Owner(provinces, i);
        assert forall e :: e in adj[p] ==> e in adj'[p];
      } else {
        assert adj'[owner] == adj[owner] + ids;
      }
    }
  }

  /** Record `i` declares a name whose first node is `e`, and `k` owns record `i`. */
  ghost predicate Declares(provinces: seq<ProvinceData>, count: nat, k: nat, e: nat)
    requires count <= |provinces|
  {
    exists i, j :: 0 <= i < count && 0 <= j < |provinces[i].connectedProvinces| &&
      Owner(provinces, i) == k && IndexOf(RecordNames(provinces), provinces[i].connectedProvinces[j]) == Some(e)
  }

  /** No edge appears that no record declared: adjacency is not symmetrised. */
  lemma {:induction false} LinkProvenance(provinces: seq<ProvinceData>, count: nat)
    requires count <= |provinces| && Link(provinces, count).Ok?
    ensures forall k, e :: 0 <= k < |provinces| && e in Link(provinces, count).value[k] ==> Declares(provinces, count, k, e)
  {
    if count > 0 {
      var names := RecordNames(provinces);
      LinkOkPrefix(provinces, count);
      LinkProvenance(provinces, count - 1);
      LinkNext(provinces, count - 1);
      var adj := Link(provinces, count - 1).value;
      var o := Owner(provinces, count - 1);
      var ids := ResolveNeighbours(names, provinces[count - 1].connectedProvinces).value;
      forall k, e | 0 <= k < |provinces| && e in Link(provinces, count).value[k]
        ensures Declares(provinces, count, k, e)
      {
        if e in adj[k] {
          assert Declares(provinces, count - 1, k, e);
          var i, j :| 0 <= i < count - 1 && 0 <= j < |provinces[i].connectedProvinces| &&
            Owner(provinces, i) == k && IndexOf(names, provinces[i].connectedProvinces[j]) == Some(e);
          assert 0 <= i < count;
        } else {
          assert k == o && e in ids;
          var j :| 0 <= j < |ids| && ids[j] == e;
          assert IndexOf(names, provinces[count - 1].connectedProvinces[j]) == Some(e);
        }
      }
    }
  }

  /** With duplicate names the graph is built as follows: `k -> e` is an edge
      exactly when `e` is the first node with its name and some record named
      like `k`'s owner declares that name, and `k` is itself the first node
      with its name; a later duplicate's edges all land on the earlier node. */
  lemma BuildEdges(provinces: seq<ProvinceData>, graph: ProvinceGraph, k: nat, e: nat)
    requires Build(provinces) == Ok(graph) && k < |provinces|
    ensures Owner(provinces, k) != k ==> graph.nodes[k].connectedProvinces == []
    ensures e in graph.nodes[k].connectedProvinces <==>
      e < |provinces| && Owner(provinces, e) == e &&
      exists i :: 0 <= i < |provinces| && Owner(provinces, i) == k &&
        provinces[e].name in provinces[i].connectedProvinces
  {
    var n := |provinces|;
    var names := RecordNames(provinces);
    var adj := Link(provinces, n).value;
    assert graph.nodes[k].connectedProvinces == adj[k];
    LinkNonOwnerEmpty(provinces, n);
    LinkOwnerCollects(provinces, n);
    LinkProvenance(provinces, n);
    if e in adj[k] {
      assert Declares(provinces, n, k, e);
      var i, j :| 0 <= i < n && 0 <= j < |provinces[i].connectedProvinces| &&
        Owner(provinces, i) == k && IndexOf(names, provinces[i].connectedProvinces[j]) == Some(e);
      assert names[e] == provinces[e].name;
      assert forall m :: 0 <= m < n ==> names[m] == provinces[m].name;
      assert provinces[e].name in provinces[i].connectedProvinces;
    }
    if e < n && Owner(provinces, e) == e &&
       exists i :: 0 <= i < n && Owner(provinces, i) == k && provinces[e].name in provinces[i].connectedProvinces
    {
      var i :| 0 <= i < n && Owner(provinces, i) == k && provinces[e].name in provinces[i].connectedProvinces;
      var ns := provinces[i].connectedProvinces;
      var j :| 0 <= j < |ns| && ns[j] == provinces[e].name;
      assert Collected(provinces, n, i);
      var ids := ResolveNeighbours(names, ns).value;
      assert IndexOf(names, ns[j]) == Some(ids[j]);
      assert forall m :: 0 <= m < n ==> names[m] == provinces[m].name;
      assert ids[j] == e;
      assert e in ids;
    }
  }

  /** Under distinct names each record owns itself. */
  lemma DistinctOwners(provinces: seq<ProvinceData>)
    requires DistinctNames(provinces)
    ensures forall i :: 0 <= i < |provinces| ==> Owner(provinces, i) == i
  {
  }

  /** The lists of the first `count` records are their own neighbour lists,
      resolved; the rest are still empty. */
  ghost predicate ResolvedInPlace(provinces: seq<ProvinceData>, count: nat)
    requires count <= |provinces| && Link(provinces, count).Ok?
  {
    var adj := Link(provinces, count).value;
    && (forall k :: 0 <= k < count ==>
          ResolveNeighbours(RecordNames(provinces), provinces[k].connectedProvinces) == Ok(adj[k]))
    && (forall k :: count <= k < |provinces| ==> adj[k] == [])
  }

  /** A record that owns itself fills its own, still empty, list. */
  lemma SelfOwnedStep(provinces: seq<ProvinceData>, o: nat)
    requires o < |provinces| && Link(provinces, o + 1).Ok? && Owner(provinces, o) == o
    requires Link(provinces, o).Ok? && ResolvedInPlace(provinces, o)
    ensures ResolvedInPlace(provinces, o + 1)
  {
    LinkNext(provinces, o);
    var names := RecordNames(provinces);
    var adj := Link(provinces, o).value;
    var ids := ResolveNeighbours(names, provinces[o].connectedProvinces).value;
    var adj' := Link(provinces, o + 1).value;
    assert adj' == adj[o := adj[o] + ids];
    forall k | 0 <= k < o + 1
      ensures ResolveNeighbours(names, provinces[k].connectedProvinces) == Ok(adj'[k])
    {
      if k < o {
        assert adj'[k] == adj[k];
      } else {
        assert adj[o] + ids == ids;
      }
    }
  }

  /** When every handled record owns itself, every record's adjacency list is
      exactly its own neighbour list resolved in declaration order (the lists
      of records not yet handled are still empty). */
  lemma {:induction false} LinkSelfOwned(provinces: seq<ProvinceData>, count: nat)
    requires count <= |provinces| && Link(provinces, count).Ok?
    requires forall i :: 0 <= i < count ==> Owner(provinces, i) == i
    ensures ResolvedInPlace(provinces, count)
  {
    if count > 0 {
      var last := count - 1;
      LinkOkPrefix(provinces, count);
      assert Link(provinces, last).Ok?;
      assert forall i :: 0 <= i < last ==> Owner(provinces, i) == i;
      assert Owner(provinces, last) == last;
      LinkSelfOwned(provinces, last);
      SelfOwnedStep(provinces, last);
    }
  }

  /** With distinct names, node `k`'s list has one entry per name record `k`
      declares, in order, and entry `j` is the node carrying the `j`-th name. */
  lemma BuildDistinct(provinces: seq<ProvinceData>, graph: ProvinceGraph, k: nat)
    requires DistinctNames(provinces) && Build(provinces) == Ok(graph) && k < |provinces|
    ensures |graph.nodes[k].connectedProvinces| == |provinces[k].connectedProvinces|
    ensures forall j :: 0 <= j < |provinces[k].connectedProvinces| ==>
      graph.nodes[k].connectedProvinces[j] < |provinces| &&
      provinces[graph.nodes[k].connectedProvinces[j]].name == provinces[k].connectedProvinces[j]
  {
    var names := RecordNames(provinces);
    DistinctOwners(provinces);
    LinkSelfOwned(provinces, |provinces|);
    var ids := graph.nodes[k].connectedProvinces;
    assert ResolveNeighbours(names, provinces[k].connectedProvinces) == Ok(ids);
    forall j | 0 <= j < |provinces[k].connectedProvinces|
      ensures ids[j] < |provinces| && provinces[ids[j]].name == provinces[k].connectedProvinces[j]
    {
      assert IndexOf(names, provinces[k].connectedProvinces[j]) == Some(ids[j]);
      assert names[ids[j]] == provinces[ids[j]].name;
    }
  }

  /** With distinct names, `k -> e` is an edge exactly when record `k` names
      record `e` as a neighbour; nothing adds the reverse edge. */
  lemma BuildDistinctEdges(provinces: seq<ProvinceData>, graph: ProvinceGraph, k: nat, e: nat)
    requires DistinctNames(provinces) && Build(provinces) == Ok(graph) && k < |provinces| && e < |provinces|
    ensures e in graph.nodes[k].connectedProvinces <==> provinces[e].name in provinces[k].connectedProvinces
  {
    BuildEdges(provinces, graph, k, e);
    DistinctOwners(provinces);
  }

  /** `graph[index]` on a built graph gives record `index`'s fields, and
      panics past the last record. */
  lemma IndexBuilt(provinces: seq<ProvinceData>, graph: ProvinceGraph, index: nat)
    requires Build(provinces) == Ok(graph)
    ensures Index(graph, index).Some? <==> index < |provinces|
    ensures index < |provinces| ==>
      var node := Index(graph, index).value;
      node.name == provinces[index].name && node.population == provinces[index].population &&
      node.densityPerSquareKm == provinces[index].densityPerSquareKm
  {
  }

  /** Province "A" lists "B", "B" lists nobody: the edge A -> B is not mirrored. */
  lemma OneWayNeighbour()
    ensures Build([ProvinceData("A", 100, 10, ["B"]), ProvinceData("B", 200, 20, [])])
      == Ok(ProvinceGraph([Province("A", 100, 10, [1]), Province("B", 200, 20, [])]))
  {
    var provinces := [ProvinceData("A", 100, 10, ["B"]), ProvinceData("B", 200, 20, [])];
    var names := RecordNames(provinces);
    assert names == ["A", "B"];
    assert IndexOf(names, "B") == Some(1);
    var first := ResolveNeighbours(names, provinces[0].connectedProvinces);
    assert first.Ok? && first.value == [1];
    assert Owner(provinces, 0) == 0 && Owner(provinces, 1) == 1;
    assert Link(provinces, 1).Ok? && Link(provinces, 1).value == [[1], []];
    assert ResolveNeighbours(names, provinces[1].connectedProvinces) == Ok([]);
    LinkNext(provinces, 1);
    assert Link(provinces, 1).value[1] + [] == [];
    assert Link(provinces, 2).Ok? && Link(provinces, 2).value == [[1], []];
    var nodes := NodesOf(provinces, Link(provinces, 2).value);
    assert nodes == [Province("A", 100, 10, [1]), Province("B", 200, 20, [])];
  }

  /** Records "A" (lists "B"), "B" and a second "A" (lists "A"): the second
      "A"'s edge lands on node 0, after node 0's own, and node 2 stays empty. */
  lemma DuplicateNameEdgesLandOnFirst()
    ensures Build([ProvinceData("A", 100, 10, ["B"]), ProvinceData("B", 200, 20, []), ProvinceData("A", 300, 30, ["A"])])
      == Ok(ProvinceGraph([Province("A", 100, 10, [1, 0]), Province("B", 200, 20, []), Province("A", 300, 30, [])]))
  {
    var provinces := [ProvinceData("A", 100, 10, ["B"]), ProvinceData("B", 200, 20, []), ProvinceData("A", 300, 30, ["A"])];
    var names := RecordNames(provinces);
    assert names[0] == "A" && names[1] == "B" && names[2] == "A" && |names| == 3;
    assert "A" != "B" by { assert "A"[0] != "B"[0]; }
    assert IndexOf(names, "A") == Some(0);
    assert IndexOf(names, "B") == Some(1);
    var first := ResolveNeighbours(names, provinces[0].connectedProvinces);
    assert first.Ok? && first.value == [1];
    var last := ResolveNeighbours(names, provinces[2].connectedProvinces);
    assert last.Ok? && last.value == [0];
    assert Owner(provinces, 0) == 0 && Owner(provinces, 1) == 1 && Owner(provinces, 2) == 0;
    assert Link(provinces, 1).Ok? && Link(provinces, 1).value == [[1], [], []];
    assert ResolveNeighbours(names, provinces[1].connectedProvinces) == Ok([]);
    LinkNext(provinces, 1);
    assert Link(provinces, 1).value[1] + [] == [];
    assert Link(provinces, 2).Ok? && Link(provinces, 2).value == [[1], [], []];
    LinkNext(provinces, 2);
    assert Link(provinces, 2).value[0] + [0] == [1, 0];
    assert Link(provinces, 3).Ok? && Link(provinces, 3).value == [[1, 0], [], []];
    var nodes := NodesOf(provinces, Link(provinces, 3).value);
    assert nodes == [Province("A", 100, 10, [1, 0]), Province("B", 200, 20, []), Province("A", 300, 30, [])];
  }

  /** Province "A" lists "B" but there is no "B": construction fails. */
  lemma MissingNeighbourFails()
    ensures Build([ProvinceData("A", 100, 10, ["B"])]) == Err(UnresolvedNeighbour("B"))
  {
    var provinces := [ProvinceData("A", 100, 10, ["B"])];
    var names := RecordNames(provinces);
    assert names == ["A"];
    assert IndexOf(names, "B") == None;
    assert ResolvePrefix(names, provinces[0].connectedProvinces, 0) == Ok([]);
    assert ResolveNeighbours(names, provinces[0].connectedProvinces) == Err(UnresolvedNeighbour("B"));
    LinkNext(provinces, 0);
  }
}
