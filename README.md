# Covid19-Simulator: province graph, measure policies and range generators

This project models three parts of the Covid19-Simulator in Dafny:

- **The province graph** (`src/data_structures/graph.rs`). `ProvinceGraph::from`
  takes the province records in order and builds one node per record. Each
  node copies the record's name, population and density. The edge loop then
  looks up every declared neighbour name by linear search, and pushes the index
  of the FIRST node carrying that name onto the FIRST node carrying the
  declaring record's name. An unknown neighbour name panics.
  `graph[index]` reads a node and panics past the end.
- **The measure policies** (`src/data_structures/params.rs`).
  - `hand_washing` reads the history row `len - floor(incubation / h)`. It
    reports a 0.1 reduction when that row's infected column (2) exceeds one
    percent of its population column (5), and 0.0 otherwise.
  - `social_distancing` always reports 0.0.
  - `SimulationParameters` holds the parameters these read.
- **The range generators** (`src/utility.rs`).
  - `generate_range` asserts `end > start` and then `step > 0`. It then pushes
    `start + i*step` for `i` in `0 ..= ceil((end - start) / step)`.
  - `generate_range_from_input` pushes `i*step` for `i` below the input
    length.

Files and modules:

- `wrappers.dfy` (`Wrappers`): `Option` and `Result`. A Rust panic becomes the
  failure case.
- `graph.dfy` (`Graph`):
  - The records (`ProvinceData`), nodes (`Province`) and graph
    (`ProvinceGraph`).
  - The specification functions of construction: `IndexOf`, `ResolvePrefix`,
    `Owner`, `Link` and `Build`.
  - The imperative construction. `PushNodes` is the node loop. `PushNeighbour`
    and `LinkRecord` are the edge loop. `From` is the whole of
    `ProvinceGraph::from`. Each method is proved equal to the specification
    function.
  - The main outcome lemmas.
- `graph_properties.dfy` (`GraphProperties`): where edges land, including with
  duplicate names, that edges are not symmetrised, the unique-names case, and
  worked examples.
- `params.dfy` (`Params`): the parameters, the measures as a tagged datatype
  dispatched by `Evaluate`, and the delayed-row arithmetic.
- `utility.dfy` (`Utility`): the two range generators as loops. They are
  proved equal to `Range` and `Progression`, and the coverage and ordering
  properties are proved of those.
- `real_order.dfy` (`RealOrder`): three order facts about scaling by a positive
  real.

Two behaviours of the code are worth stating outright:

- The code neither symmetrises edges nor rejects duplicate names.
  `GraphProperties.LinkProvenance` and `GraphProperties.OneWayNeighbour` show
  that an edge exists only where a record declared it.
  `GraphProperties.DuplicateNameEdgesLandOnFirst` shows that a later duplicate's
  edges land on the first node with that name.
- `hand_washing` indexes the history directly, with no padding, and panics
  when the delayed index is out of range. The model returns
  `Err(RowOutOfBounds)` there.

## Model

| member | source | states |
|---|---|---|
| Graph.FirstIndex | src/data_structures/graph.rs:44-48 | a reported index is below the searched bound and holds the name; `None` means no name in the searched prefix matches |
| Graph.FirstIndexIsFirst | src/data_structures/graph.rs:44-48 | no earlier name matches the one the walk stops at |
| Graph.IndexOf | src/data_structures/graph.rs:44-48 | the search over all names: a reported index is in range and holds the name; `None` means no name matches |
| Graph.IndexOfIsFirst | src/data_structures/graph.rs:44-48 | the match reported is the lowest-index one (`find` stops at the first hit) |
| Graph.ResolvePrefix | src/data_structures/graph.rs:43-49 | resolves the first names of one record's neighbour list; `Graph.ResolveNeighbours` is this over the whole list. On success, one index per neighbour name, where entry `j` is the first node named by name `j`; a failure names a neighbour that matches no node |
| Graph.ResolveFirstFailure | src/data_structures/graph.rs:43-49 | the failure is the FIRST unknown neighbour name, and every name before it resolved |
| Graph.PrefixErrPersists | src/data_structures/graph.rs:43-49 | once a neighbour fails to resolve, the whole record fails with that name (the `unwrap` ends construction) |
| Graph.RecordResolves | src/data_structures/graph.rs:43-49 | a record's neighbours all resolve exactly when every name it declares is some record's name |
| Graph.Owner | src/data_structures/graph.rs:50-53 | the node receiving record `i`'s edges is at or before `i` and carries record `i`'s name |
| Graph.OwnerIsFirst | src/data_structures/graph.rs:50-53 | no node before the owner carries record `i`'s name (`iter_mut().find`) |
| Graph.OwnerIsFirstMatch | src/data_structures/graph.rs:50-53 | the owner is where a name search for record `i`'s name stops |
| Graph.Link | src/data_structures/graph.rs:42-56 | the edge loop's adjacency lists after a prefix of the records: one list per node |
| Graph.LinkNext | src/data_structures/graph.rs:42-56 | handling one more record appends its resolved indices to its owner's list, or fails with its first unknown name |
| Graph.LinkErrPersists | src/data_structures/graph.rs:42-56 | once the edge loop fails, the whole construction fails with that name |
| Graph.LinkOkIff | src/data_structures/graph.rs:42-56 | the edge loop over a prefix succeeds exactly when every neighbour name those records declare is some record's name |
| Graph.LinkErrNamesUnknown | src/data_structures/graph.rs:49 | a failed construction names a neighbour that no record carries |
| Graph.LinkBounded | src/data_structures/graph.rs:44-54 | every index pushed onto any list is a valid node index |
| Graph.Index | src/data_structures/graph.rs:20-22 | `graph[index]` is node `index`, and fails exactly when `index` is past the last node |
| Graph.FindByName | src/data_structures/graph.rs:44-49 | the linear search over the nodes returns the first node carrying the name, or `None` |
| Graph.PushNodes | src/data_structures/graph.rs:32-40 | one node per record, in record order, copying name, population and density, with no edges |
| Graph.PushEdge | src/data_structures/graph.rs:54 | pushing an index onto a node is appending it to that node's adjacency list |
| Graph.NodesOfNames | src/data_structures/graph.rs:42-56 | the node names never change while edges are pushed |
| Graph.PushNeighbour | src/data_structures/graph.rs:43-55 | one turn of the inner loop: the resolved prefix grows by one index pushed onto the owner, or the unknown name is the failure |
| Graph.LinkRecord | src/data_structures/graph.rs:42-56 | one turn of the outer loop takes the nodes from the state after `i` records to the state after `i + 1`, or fails as `Link` does |
| Graph.From | src/data_structures/graph.rs:27-59 | `ProvinceGraph::from` yields exactly `Graph.Build`, the specification function of construction: the nodes with the adjacency `Link` computes, or the panic on the first unknown name |
| Graph.BuildOutcome | src/data_structures/graph.rs:27-59 | states, of `Graph.Build` (the result of `ProvinceGraph::from`), that construction succeeds exactly when every declared neighbour name exists. The graph then has one node per record copying its fields, and only valid indices on its lists. A failure names an unknown neighbour |
| GraphProperties.OwnerOfOwner | src/data_structures/graph.rs:50-53 | the first node carrying a name owns itself |
| GraphProperties.LinkOkPrefix | src/data_structures/graph.rs:42-56 | a successful edge loop succeeded on every shorter prefix and resolved the last record |
| GraphProperties.LinkNonOwnerEmpty | src/data_structures/graph.rs:50-54 | a node whose name an earlier node carries never receives an edge |
| GraphProperties.CollectStep | src/data_structures/graph.rs:42-56 | handling one record keeps every index already on an owner's list and adds the record's own |
| GraphProperties.LinkOwnerCollects | src/data_structures/graph.rs:50-54 | each record's resolved indices all end up on its owner's list |
| GraphProperties.LinkProvenance | src/data_structures/graph.rs:42-56 | every edge on a list comes from a name some record owned by that node declared (no symmetrising) |
| GraphProperties.BuildEdges | src/data_structures/graph.rs:42-56 | `k -> e` is an edge exactly when `e` is the first node with its name and a record owned by `k` declares that name. A duplicate node's list stays empty |
| GraphProperties.DistinctOwners | src/data_structures/graph.rs:50-53 | with distinct names every record owns itself |
| GraphProperties.SelfOwnedStep | src/data_structures/graph.rs:42-56 | a record that owns itself fills its own, still empty, list with its resolved names |
| GraphProperties.LinkSelfOwned | src/data_structures/graph.rs:42-56 | when every record owns itself, each list is exactly that record's neighbour names resolved, and unhandled lists are empty |
| GraphProperties.BuildDistinct | src/data_structures/graph.rs:42-56 | with distinct names node `k`'s list has one entry per declared name, in order, and entry `j` is the node named by name `j` |
| GraphProperties.BuildDistinctEdges | src/data_structures/graph.rs:42-56 | with distinct names, `k -> e` is an edge exactly when record `k` names record `e`; the reverse is not added |
| GraphProperties.IndexBuilt | src/data_structures/graph.rs:20-22 | indexing a built graph gives record `index`'s fields, and fails past the last record |
| GraphProperties.OneWayNeighbour | src/data_structures/graph.rs:42-56 | "A" lists "B" and "B" lists nobody: the graph has A -> B only |
| GraphProperties.DuplicateNameEdgesLandOnFirst | src/data_structures/graph.rs:50-54 | a second record named "A" pushes its edge onto node 0, after node 0's own, and its own node stays empty |
| GraphProperties.MissingNeighbourFails | src/data_structures/graph.rs:44-49 | a neighbour name no record carries makes construction fail with that name |
| Params.DelaySteps | src/data_structures/params.rs:8-9 | `d` is the incubation period in steps of size `h`, rounded down: `d <= incubation / h < d + 1` |
| Params.DelayedRow | src/data_structures/params.rs:8-9 | a readable row lies inside the history, `incubation / h` rows back from the end, rounded down; `h <= 0` never reads |
| Params.DelayedRowInBounds | src/data_structures/params.rs:8-9 | the delayed row is inside the history exactly when `h > 0` and `1 <= incubation / h < len + 1`, i.e. `1 <= d <= len` |
| Params.HandWashingMeasure | src/data_structures/params.rs:6-14 | the result is 0.1 or 0.0. It succeeds exactly when the delayed row exists and has the population column (index 5) |
| Params.HandWashingFires | src/data_structures/params.rs:8-13 | the result is 0.1 exactly when the delayed row's infected count exceeds its population divided by 100 |
| Params.HandWashingIgnoresStateAndTime | src/data_structures/params.rs:6-14 | the result does not depend on the current state vector or the current time |
| Params.HandWashingExample | src/data_structures/params.rs:8-13 | incubation 5 with step 2 reads the row two back from the end, and 3 infected out of 200 triggers the measure |
| Params.Evaluate | src/data_structures/params.rs:2 | every measure reports a reduction between 0 and 0.1 |
| Params.SocialDistancingMeasure | src/data_structures/params.rs:17-20 | `social_distancing` reports no reduction (0.0) and never panics, whatever its inputs |
| Params.MeasuresNonNegative | src/data_structures/params.rs:17-20 | no measure reports a negative reduction, and `social_distancing` always reports 0.0 |
| Utility.Ceil | src/utility.rs:43 | `ceil(x)` is the least integer not below `x` |
| Utility.StepCount | src/utility.rs:43 | the step count `n` is the least with `n*step >= end - start` |
| Utility.Progression | src/utility.rs:45-46 | the pushed values number exactly `count` |
| Utility.ProgressionPush | src/utility.rs:46 | one more push appends `start + i*step` |
| Utility.Range | src/utility.rs:40-49 | `generate_range` succeeds exactly when `end > start` and `step > 0`, and fails on the `end` assertion first |
| Utility.GenerateRange | src/utility.rs:40-49 | the loop returns exactly `Range`: `StepCount + 1` values `start + i*step`, or the failing assertion |
| Utility.GenerateRangeFromInput | src/utility.rs:52-58 | the loop returns `input_len` values with value `i` equal to `i*step` (none for length 0) |
| Utility.ProgressionValues | src/utility.rs:45-46 | value `i` is `start + i*step`, and value 0 is `start` |
| Utility.ProgressionIncreasing | src/utility.rs:45-46 | with a positive step the values are strictly increasing |
| Utility.ProgressionPairIncreasing | src/utility.rs:45-46 | with a positive step, a value at a lower index is below a value at a higher index |
| Utility.RangeCovers | src/utility.rs:43-46 | a range has at least two values and starts at `start`. It is strictly increasing. Its last value reaches `end` and overshoots it by less than one step, and the value before the last is below `end` |
| Utility.FromInputIsRange | src/utility.rs:52-58 | `generate_range_from_input(n, step)` equals `generate_range(0, (n-1)*step, step)` for `n >= 2` and `step > 0` |

## Left out

- File loading, JSON decoding and printing: `load_file_bin` and `load_file` in `src/utility.rs`, and all of `src/main.rs`. They are I/O only.
- The `predefined_color` macro in `src/utility.rs`: it generates constants and has no behaviour.
- `src/float_helper.rs`: it wraps floats to exclude NaN. Dafny's `real` has no NaN.
- f32 rounding, overflow and infinities. All float values are `real`. The `as usize` casts of a non-negative quotient are `Floor` and `Ceil`, without saturation at `usize::MAX`.
- `Params.DelayedRow`: it does not separate the Rust failure modes for `h <= 0`. In Rust, `h < 0` or `incubation == 0` gives `d = 0`, so the index is the history length. `h == 0` gives an infinite or NaN quotient, which casts to `usize::MAX` or `0`. Every one of these panics, so the model reports `RowOutOfBounds` for all of them.
- `Params.HandWashingMeasure`: it does not separate reading column 5 from reading column 2. Any row shorter than six values panics at column 5, which is read first, so the model reports `ColumnOutOfBounds` for it.
- The closure list `Vec<Box<MeasureFn>>`. A measure is a tag (`Params.Measure`) dispatched by `Params.Evaluate`, so `SimulationParameters.measures` is a sequence of tags.
- `ProvinceGraph::from` mutates `graph.nodes` in place through `iter_mut`. The model threads a sequence of nodes through the loops and replaces one node at a time. This is the same observable update, as the graph has no other references.
- `u32` and `u16` fields are copied unchanged, so the model uses bounded integer subset types and does no arithmetic on them.
- The derivative model, the Runge-Kutta integrator, the history padding, the inter-region coupling step and the summing of measures are not part of this model. None of them appears in the modelled source files.
