/** The province graph: one node per input record, with each record's
    neighbour names resolved to node indices (src/data_structures/graph.rs). */
module Graph {
  import opened Wrappers

  /** Rust's `u32` and `u16`. The graph only copies these fields. */
  type U32 = x: int | 0 <= x < 0x1_0000_0000
  type U16 = x: int | 0 <= x < 0x1_0000

  /** An input record (`ProvinceData`): neighbours are given by name. */
  datatype ProvinceData = ProvinceData(
    name: string,
    population: U32,
    densityPerSquareKm: U16,
    connectedProvinces: seq<string>)

  /** A graph node (`Province`): neighbours are given by node index. */
  datatype Province = Province(
    name: string,
    population: U32,
    densityPerSquareKm: U16,
    connectedProvinces: seq<nat>)

  datatype ProvinceGraph = ProvinceGraph(nodes: seq<Province>)

  /** Construction panics on a declared neighbour name that no node carries. */
  datatype BuildError = UnresolvedNeighbour(name: string)

  function RecordNames(provinces: seq<ProvinceData>): seq<string>
  {
    seq(|provinces|, i requires 0 <= i < |provinces| => provinces[i].name)
  }

  function NodeNames(nodes: seq<Province>): seq<string>
  {
    seq(|nodes|, i requires 0 <= i < |nodes| => nodes[i].name)
  }

  /** Every neighbour name record `i` declares is the name of some record. */
  predicate NeighboursDeclared(provinces: seq<ProvinceData>, i: nat)
    requires i < |provinces|
  {
    forall j :: 0 <= j < |provinces[i].connectedProvinces| ==>
      provinces[i].connectedProvinces[j] in RecordNames(provinces)
  }

  /** Every neighbour name declared by any record is the name of some record. */
  predicate AllNeighboursDeclared(provinces: seq<ProvinceData>)
  {
    forall i :: 0 <= i < |provinces| ==> NeighboursDeclared(provinces, i)
  }

  /** No two records carry the same name. */
  predicate DistinctNames(provinces: seq<ProvinceData>)
  {
    forall i, j :: 0 <= i < j < |provinces| ==> provinces[i].name != provinces[j].name
  }

  /** The index of the first of `names[..count]` equal to `name`, as a
      search that walks the names in order stops there; `None` when none of
      them matches. */
  function FirstIndex(names: seq<string>, name: string, count: nat): (r: Option<nat>)
    requires count <= |names|
    ensures r.Some? ==> r.value < count && names[r.value] == name
    ensures r.None? ==> forall k :: 0 <= k < count ==> names[k] != name
    decreases count
  {
    if count == 0 then None
    else
      match FirstIndex(names, name, count - 1)
      case Some(k) => Some(k)
      case None => if names[count - 1] == name then Some(count - 1) else None
  }

  /** The index of the FIRST name equal to `name`, as `iter().enumerate().find`
      yields it; `None` when no name matches. */
  function IndexOf(names: seq<string>, name: string): (r: Option<nat>)
    ensures r.Some? ==> r.value < |names| && names[r.value] == name
    ensures r.None? ==> forall k :: 0 <= k < |names| ==> names[k] != name
  {
    FirstIndex(names, name, |names|)
  }

  /** No name before the one `FirstIndex` finds matches. */
  lemma {:induction false} FirstIndexIsFirst(names: seq<string>, name: string, count: nat)
    requires count <= |names|
    ensures var r := FirstIndex(names, name, count);
            r.Some? ==> forall k :: 0 <= k < r.value ==> names[k] != name
  {
    if count > 0 && FirstIndex(names, name, count - 1).Some? {
      FirstIndexIsFirst(names, name, count - 1);
    }
  }

  /** The match `IndexOf` reports is the first one. */
  lemma IndexOfIsFirst(names: seq<string>, name: string)
    ensures IndexOf(names, name).Some? ==> forall k :: 0 <= k < IndexOf(names, name).value ==> names[k] != name
  {
    FirstIndexIsFirst(names, name, |names|);
  }

  /** Resolves the first `count` neighbour names, in declaration order, to
      node indices; fails on the first of them that matches no node. */
  function ResolvePrefix(names: seq<string>, neighbours: seq<string>, count: nat): (r: Result<seq<nat>, BuildError>)
    requires count <= |neighbours|
    ensures r.Ok? ==> |r.value| == count
    ensures r.Ok? ==> forall j :: 0 <= j < count ==> IndexOf(names, neighbours[j]) == Some(r.value[j])
    ensures r.Err? ==> IndexOf(names, r.error.name) == None
    decreases count
  {
    if count == 0 then Ok([])
    else
      match ResolvePrefix(names, neighbours, count - 1)
      case Err(e) => Err(e)
      case Ok(ids) =>
        match IndexOf(names, neighbours[count - 1])
        case None => Err(UnresolvedNeighbour(neighbours[count - 1]))
        case Some(k) => Ok(ids + [k])
  }

  /** Resolves a record's whole neighbour list. */
  function ResolveNeighbours(names: seq<string>, neighbours: seq<string>): Result<seq<nat>, BuildError>
  {
    ResolvePrefix(names, neighbours, |neighbours|)
  }

  /** The node that receives record `i`'s edges: the first node whose name is
      record `i`'s name (never a later one). */
  function Owner(provinces: seq<ProvinceData>, i: nat): (o: nat)
    requires i < |provinces|
    ensures o <= i && provinces[o].name == provinces[i].name
  {
    var names := RecordNames(provinces);
    IndexOfIsFirst(names, provinces[i].name);
    assert names[i] == provinces[i].name;
    IndexOf(names, provinces[i].name).value
  }

  /** The adjacency lists once the edge loop has handled the first `count`
      records: each record's resolved neighbours are appended, in order, to
      the list of its owner node. */
  function Link(provinces: seq<ProvinceData>, count: nat): (r: Result<seq<seq<nat>>, BuildError>)
    requires count <= |provinces|
    ensures r.Ok? ==> |r.value| == |provinces|
    decreases count
  {
    if count == 0 then Ok(seq(|provinces|, _ => []))
    else
      match Link(provinces, count - 1)
      case Err(e) => Err(e)
      case Ok(adj) =>
        match ResolveNeighbours(RecordNames(provinces), provinces[count - 1].connectedProvinces)
        case Err(e) => Err(e)
        case Ok(ids) =>
          var o := Owner(provinces, count - 1);
          Ok(adj[o := adj[o] + ids])
  }

  /** The graph `ProvinceGraph::from` produces, or the panic it stops with. */
  function Build(provinces: seq<ProvinceData>): Result<ProvinceGraph, BuildError>
  {
    match Link(provinces, |provinces|)
    case Err(e) => Err(e)
    case Ok(adj) =>
      Ok(ProvinceGraph(NodesOf(provinces, adj)))
  }

  /** `graph[index]`: the node at `index`; `None` stands for the panic on an
      index past the end. */
  function Index(graph: ProvinceGraph, index: nat): (r: Option<Province>)
    ensures r.Some? <==> index < |graph.nodes|
    ensures r.Some? ==> r.value == graph.nodes[index]
  {
    if index < |graph.nodes| then Some(graph.nodes[index]) else None
  }

  /** Linear search over the nodes for the first one named `name`. */
  method FindByName(nodes: seq<Province>, name: string) returns (r: Option<nat>)
    ensures r == IndexOf(NodeNames(nodes), name)
  {
    var i := 0;
    while i < |nodes|
      invariant 0 <= i <= |nodes|
      invariant forall k :: 0 <= k < i ==> nodes[k].name != name
    {
      if nodes[i].name == name {
        assert NodeNames(nodes)[i] == name;
        IndexOfIsFirst(NodeNames(nodes), name);
        return Some(i);
      }
      i := i + 1;
    }
    return None;
  }

  /** The node-creation loop of `ProvinceGraph::from`: one node per record, in
      record order, copying name, population and density, with no edges yet. */
  method PushNodes(provinces: seq<ProvinceData>) returns (nodes: seq<Province>)
    ensures |nodes| == |provinces|
    ensures forall k :: 0 <= k < |provinces| ==>
      nodes[k] == Province(provinces[k].name, provinces[k].population, provinces[k].densityPerSquareKm, [])
  {
    nodes := [];
    for i := 0 to |provinces|
      invariant |nodes| == i
      invariant forall k :: 0 <= k < i ==>
        nodes[k] == Province(provinces[k].name, provinces[k].population, provinces[k].densityPerSquareKm, [])
    {
      var province := provinces[i];
      nodes := nodes + [Province(province.name, province.population, province.densityPerSquareKm, [])];
    }
  }

  /** The nodes carrying the records' own fields and the adjacency lists `adj`. */
  function NodesOf(provinces: seq<ProvinceData>, adj: seq<seq<nat>>): seq<Province>
    requires |adj| == |provinces|
  {
    seq(|provinces|, k requires 0 <= k < |provinces| =>
      Province(provinces[k].name, provinces[k].population, provinces[k].densityPerSquareKm, adj[k]))
  }

  /** The nodes as the edge loop leaves them after `count` records. */
  ghost predicate NodesAfter(provinces: seq<ProvinceData>, count: nat, nodes: seq<Province>)
    requires count <= |provinces|
  {
    Link(provinces, count).Ok? && nodes == NodesOf(provinces, Link(provinces, count).value)
  }

  /** Pushing index `x` onto node `o` is appending `x` to adjacency list `o`. */
  lemma PushEdge(provinces: seq<ProvinceData>, adj: seq<seq<nat>>, o: nat, x: nat)
    requires |adj| == |provinces| && o < |provinces|
    ensures var nodes := NodesOf(provinces, adj);
            nodes[o := nodes[o].(connectedProvinces := nodes[o].connectedProvinces + [x])]
              == NodesOf(provinces, adj[o := adj[o] + [x]])
  {
  }

  /** The nodes part-way through record `i`: the indices `ids` resolved so far
      are appended to the list of record `i`'s owner. */
  ghost function Pending(provinces: seq<ProvinceData>, i: nat, ids: seq<nat>): seq<Province>
    requires i < |provinces| && Link(provinces, i).Ok?
  {
    var adj := Link(provinces, i).value;
    var o := Owner(provinces, i);
    NodesOf(provinces, adj[o := adj[o] + ids])
  }

  /** One turn of the inner edge loop, for neighbour `j` of record `i`: the
      neighbour's name is looked up among the nodes and its index pushed onto
      the first node named like record `i`; an unknown name panics. */
  method PushNeighbour(provinces: seq<ProvinceData>, i: nat, j: nat, current: seq<Province>, ghost ids: seq<nat>)
    returns (r: Result<seq<Province>, BuildError>)
    requires i < |provinces| && Link(provinces, i).Ok? && j < |provinces[i].connectedProvinces|
    requires ResolvePrefix(RecordNames(provinces), provinces[i].connectedProvinces, j) == Ok(ids)
    requires current == Pending(provinces, i, ids)
    ensures var resolved := ResolvePrefix(RecordNames(provinces), provinces[i].connectedProvinces, j + 1);
            match r
            case Err(e) => resolved == Err(e)
            case Ok(next) => resolved.Ok? && next == Pending(provinces, i, resolved.value)
  {
    ghost var names := RecordNames(provinces);
    ghost var adj := Link(provinces, i).value;
    ghost var o := Owner(provinces, i);
    ghost var adj' := adj[o := adj[o] + ids];
    NodesOfNames(provinces, adj');
    var connected := provinces[i].connectedProvinces[j];
    var connectedIdx := FindByName(current, connected);
    if connectedIdx.None? {
      return Err(UnresolvedNeighbour(connected));
    }
    var nodeIdx := FindByName(current, provinces[i].name);
    OwnerIsFirstMatch(provinces, i);
    var n, x := nodeIdx.value, connectedIdx.value;
    r := Ok(current[n := current[n].(connectedProvinces := current[n].connectedProvinces + [x])]);
    assert r.value == Pending(provinces, i, ids + [x]) by {
      PushEdge(provinces, adj', o, x);
      assert adj[o] + ids + [x] == adj[o] + (ids + [x]);
    }
  }

  /** One pass of the edge loop, for record `i`: its neighbour names, in
      order, are each pushed by `PushNeighbour`; the first unknown one panics. */
  method LinkRecord(provinces: seq<ProvinceData>, i: nat, nodes: seq<Province>) returns (r: Result<seq<Province>, BuildError>)
    requires i < |provinces| && NodesAfter(provinces, i, nodes)
    ensures r.Ok? ==> NodesAfter(provinces, i + 1, r.value)
    ensures r.Err? ==> Link(provinces, i + 1) == Err(r.error)
  {
    ghost var names := RecordNames(provinces);
    var neighbours := provinces[i].connectedProvinces;
    ghost var ids: seq<nat> := [];
    var current := nodes;
    assert current == Pending(provinces, i, ids) by {
      ghost var adj := Link(provinces, i).value;
      ghost var o := Owner(provinces, i);
      assert adj[o] + ids == adj[o];
      assert adj[o := adj[o] + ids] == adj;
    }
    for j := 0 to |neighbours|
      invariant ResolvePrefix(names, neighbours, j) == Ok(ids)
      invariant current == Pending(provinces, i, ids)
    {
      var pushed := PushNeighbour(provinces, i, j, current, ids);
      if pushed.Err? {
        assert Link(provinces, i + 1) == Err(pushed.error) by {
          PrefixErrPersists(names, neighbours, j + 1);
          LinkNext(provinces, i);
        }
        return Err(pushed.error);
      }
      current := pushed.value;
      ids := ResolvePrefix(names, neighbours, j + 1).value;
    }
    assert NodesAfter(provinces, i + 1, current) by {
      LinkNext(provinces, i);
    }
    r := Ok(current);
  }

  /** The node names never change while edges are pushed. */
  lemma NodesOfNames(provinces: seq<ProvinceData>, adj: seq<seq<nat>>)
    requires |adj| == |provinces|
    ensures NodeNames(NodesOf(provinces, adj)) == RecordNames(provinces)
  {
  }

  /** No record before record `i`'s owner carries record `i`'s name. */
  lemma OwnerIsFirst(provinces: seq<ProvinceData>, i: nat)
    requires i < |provinces|
    ensures forall k :: 0 <= k < Owner(provinces, i) ==> provinces[k].name != provinces[i].name
  {
    var names := RecordNames(provinces);
    IndexOfIsFirst(names, provinces[i].name);
    assert forall k :: 0 <= k < |provinces| ==> names[k] == provinces[k].name;
  }

  /** Record `i`'s owner is where a search for record `i`'s name stops. */
  lemma OwnerIsFirstMatch(provinces: seq<ProvinceData>, i: nat)
    requires i < |provinces|
    ensures IndexOf(RecordNames(provinces), provinces[i].name) == Some(Owner(provinces, i))
  {
    assert RecordNames(provinces)[i] == provinces[i].name;
  }

  /** One more record through the edge loop: its resolved neighbours are
      appended to its owner's list, or its first unknown name is the failure. */
  lemma LinkNext(provinces: seq<ProvinceData>, i: nat)
    requires i < |provinces| && Link(provinces, i).Ok?
    ensures var adj := Link(provinces, i).value;
            var o := Owner(provinces, i);
            match ResolveNeighbours(RecordNames(provinces), provinces[i].connectedProvinces)
            case Err(e) => Link(provinces, i + 1) == Err(e)
            case Ok(ids) => Link(provinces, i + 1) == Ok(adj[o := adj[o] + ids])
  {
  }

  /** `ProvinceGraph::from`: creates the nodes, then runs the edge loop over
      the records in order; the first unknown neighbour name panics. */
  method From(provinces: seq<ProvinceData>) returns (r: Result<ProvinceGraph, BuildError>)
    ensures r == Build(provinces)
  {
    var nodes := PushNodes(provinces);
    assert NodesAfter(provinces, 0, nodes) by {
      assert nodes == NodesOf(provinces, Link(provinces, 0).value);
    }
    for i := 0 to |provinces|
      invariant NodesAfter(provinces, i, nodes)
    {
      var linked := LinkRecord(provinces, i, nodes);
      if linked.Err? {
        LinkErrPersists(provinces, i + 1);
        return Err(linked.error);
      }
      nodes := linked.value;
    }
    r := Ok(ProvinceGraph(nodes));
  }

  /** What construction yields: a graph exactly when every declared neighbour
      name is some record's name, with one node per record in record order
      copying its fields and holding only valid node indices; otherwise the
      failure names a neighbour that no record carries. */
  lemma BuildOutcome(provinces: seq<ProvinceData>)
    ensures Build(provinces).Ok? <==> AllNeighboursDeclared(provinces)
    ensures Build(provinces).Err? ==> Build(provinces).error.name !in RecordNames(provinces)
    ensures Build(provinces).Ok? ==>
      var nodes := Build(provinces).value.nodes;
      && |nodes| == |provinces|
      && (forall k :: 0 <= k < |provinces| ==>
            nodes[k].name == provinces[k].name && nodes[k].population == provinces[k].population &&
            nodes[k].densityPerSquareKm == provinces[k].densityPerSquareKm)
      && (forall k, e :: 0 <= k < |nodes| && e in nodes[k].connectedProvinces ==> e < |nodes|)
  {
    LinkOkIff(provinces, |provinces|);
    if Build(provinces).Ok? {
      LinkBounded(provinces, |provinces|);
    } else {
      LinkErrNamesUnknown(provinces, |provinces|);
    }
  }

  /** The failure names the FIRST declared neighbour that matches no node:
      every name before it resolved. */
  lemma {:induction false} ResolveFirstFailure(names: seq<string>, neighbours: seq<string>, count: nat)
    requires count <= |neighbours| && ResolvePrefix(names, neighbours, count).Err?
    ensures exists j :: 0 <= j < count && neighbours[j] == ResolvePrefix(names, neighbours, count).error.name &&
                        forall m :: 0 <= m < j ==> neighbours[m] in names
  {
    if ResolvePrefix(names, neighbours, count - 1).Err? {
      ResolveFirstFailure(names, neighbours, count - 1);
    } else {
      var j := count - 1;
      forall m | 0 <= m < j ensures neighbours[m] in names {
        assert IndexOf(names, neighbours[m]).Some?;
      }
    }
  }

  /** Once a prefix of the neighbour list fails to resolve, the whole list
      fails with the same name. */
  lemma {:induction false} PrefixErrPersists(names: seq<string>, neighbours: seq<string>, count: nat)
    requires count <= |neighbours| && ResolvePrefix(names, neighbours, count).Err?
    ensures ResolveNeighbours(names, neighbours) == ResolvePrefix(names, neighbours, count)
    decreases |neighbours| - count
  {
    if count < |neighbours| {
      PrefixErrPersists(names, neighbours, count + 1);
    }
  }

  /** Once the edge loop has failed, handling further records keeps the failure. */
  lemma {:induction false} LinkErrPersists(provinces: seq<ProvinceData>, count: nat)
    requires count <= |provinces| && Link(provinces, count).Err?
    ensures Link(provinces, |provinces|) == Link(provinces, count)
    decreases |provinces| - count
  {
    if count < |provinces| {
      LinkErrPersists(provinces, count + 1);
    }
  }

  /** The edge loop over the first `count` records succeeds exactly when every
      neighbour name those records declare is some record's name. */
  lemma {:induction false} LinkOkIff(provinces: seq<ProvinceData>, count: nat)
    requires count <= |provinces|
    ensures Link(provinces, count).Ok? <==> forall i :: 0 <= i < count ==> NeighboursDeclared(provinces, i)
  {
    if count > 0 {
      var last := count - 1;
      LinkOkIff(provinces, last);
      var resolved := ResolveNeighbours(RecordNames(provinces), provinces[last].connectedProvinces);
      RecordResolves(provinces, last);
      assert Link(provinces, count).Ok? <==> Link(provinces, last).Ok? && resolved.Ok?;
      if forall i :: 0 <= i < count ==> NeighboursDeclared(provinces, i) {
        assert NeighboursDeclared(provinces, last);
      }
    }
  }

  /** A record's neighbour list resolves exactly when every name on it is
      some record's name. */
  lemma RecordResolves(provinces: seq<ProvinceData>, i: nat)
    requires i < |provinces|
    ensures ResolveNeighbours(RecordNames(provinces), provinces[i].connectedProvinces).Ok? <==>
            NeighboursDeclared(provinces, i)
  {
    var names := RecordNames(provinces);
    var neighbours := provinces[i].connectedProvinces;
    var r := ResolveNeighbours(names, neighbours);
    if r.Ok? {
      forall j | 0 <= j < |neighbours| ensures neighbours[j] in names {
        assert IndexOf(names, neighbours[j]) == Some(r.value[j]);
      }
    } else {
      ResolveFirstFailure(names, neighbours, |neighbours|);
    }
  }

  /** A failed edge loop names a neighbour that no record carries. */
  lemma {:induction false} LinkErrNamesUnknown(provinces: seq<ProvinceData>, count: nat)
    requires count <= |provinces| && Link(provinces, count).Err?
    ensures Link(provinces, count).error.name !in RecordNames(provinces)
  {
    if Link(provinces, count - 1).Err? {
      LinkErrNamesUnknown(provinces, count - 1);
    }
  }

  /** Every index on every adjacency list is a valid node index. */
  lemma {:induction false} LinkBounded(provinces: seq<ProvinceData>, count: nat)
    requires count <= |provinces| && Link(provinces, count).Ok?
    ensures forall k, e :: 0 <= k < |provinces| && e in Link(provinces, count).value[k] ==> e < |provinces|
  {
    if count > 0 {
      LinkBounded(provinces, count - 1);
      var ids := ResolveNeighbours(RecordNames(provinces), provinces[count - 1].connectedProvinces).value;
      assert forall j :: 0 <= j < |ids| ==> ids[j] < |provinces|;
    }
  }
}
