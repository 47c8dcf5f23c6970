/** The layered layout of src/components/FlowchartCanvas.tsx: `computeDepths`
    (seeding, a bounded longest-path relaxation and type defaults), the grouping
    of the displayed nodes into columns by depth, the column and row coordinates,
    and the node label. Coordinates are exact rationals; the container's size is
    a parameter (absent before the container is mounted). */
module FlowchartLayout {
  import opened Types
  import opened Grouping

  /** Horizontal distance between two columns. */
  const LayerWidth: int := 220

  /** The relaxation runs at most this many passes. */
  const MaxPasses: nat := 1000

  function Max(a: int, b: int): int { if a >= b then a else b }

  function RMax(a: real, b: real): real { if a >= b then a else b }

  /** `nodes.find(n => n.type === 'main-process')`, as an index. */
  function FirstMain(nodes: seq<ChartNode>): (r: Option<nat>)
    ensures r.Some? ==> r.value < |nodes| && nodes[r.value].nodeType == MainProcess
    ensures r.Some? ==> forall j :: 0 <= j < r.value ==> nodes[j].nodeType != MainProcess
    ensures r.None? <==> forall j :: 0 <= j < |nodes| ==> nodes[j].nodeType != MainProcess
  {
    if nodes == [] then None
    else if nodes[0].nodeType == MainProcess then Some(0)
    else
      var r := FirstMain(nodes[1..]);
      assert forall j :: 1 <= j < |nodes| ==> nodes[1..][j - 1] == nodes[j];
      if r.None? then None else Some(r.value + 1)
  }

  /** Depth 0 for every problem node. */
  function ProblemSeeds(nodes: seq<ChartNode>): (r: map<string, int>)
    ensures forall k :: k in r ==> r[k] == 0
    ensures forall k :: k in r <==> exists j :: 0 <= j < |nodes| && nodes[j].id == k && nodes[j].nodeType == Problem
  {
    if nodes == [] then map[]
    else
      var n := |nodes| - 1;
      var prev := ProblemSeeds(nodes[..n]);
      assert forall j :: 0 <= j < n ==> nodes[..n][j] == nodes[j];
      if nodes[n].nodeType == Problem then prev[nodes[n].id := 0] else prev
  }

  /** The depth map before relaxation: the first main process at 0 when one is
      displayed, and otherwise every problem node at 0. */
  function Seeded(nodes: seq<ChartNode>): map<string, int>
  {
    match FirstMain(nodes)
    case Some(i) => map[nodes[i].id := 0]
    case None => ProblemSeeds(nodes)
  }

  /** Only the first main process is seeded; problem nodes are seeded only
      when no main process is displayed, and then all of them. */
  lemma SeedingRule(nodes: seq<ChartNode>)
    ensures forall i :: 0 <= i < |nodes| && nodes[i].nodeType == MainProcess
                        && (forall j :: 0 <= j < i ==> nodes[j].nodeType != MainProcess)
                        ==> Seeded(nodes) == map[nodes[i].id := 0]
    ensures (forall j :: 0 <= j < |nodes| ==> nodes[j].nodeType != MainProcess) ==>
              && (forall k :: k in Seeded(nodes) ==> Seeded(nodes)[k] == 0)
              && (forall k :: k in Seeded(nodes) <==> exists j :: 0 <= j < |nodes| && nodes[j].id == k && nodes[j].nodeType == Problem)
  {
    var r := FirstMain(nodes);
    forall i | 0 <= i < |nodes| && nodes[i].nodeType == MainProcess
                 && (forall j :: 0 <= j < i ==> nodes[j].nodeType != MainProcess)
      ensures Seeded(nodes) == map[nodes[i].id := 0]
    {
      assert r.Some?;
      assert r.value == i;
    }
  }

  /** `depth.get(id) ?? -1`. */
  function ToDepth(depth: map<string, int>, id: string): int
  {
    if id in depth then depth[id] else -1
  }

  /** Whether relaxing `e` changes the map: its source has a depth and one past
      it is more than the target's depth. */
  predicate Raises(depth: map<string, int>, e: ChartEdge)
  {
    e.from in depth && Max(ToDepth(depth, e.to), depth[e.from] + 1) != ToDepth(depth, e.to)
  }

  /** Relaxing one edge: the target's depth becomes `max(toDepth, fromDepth + 1)`. */
  function Relax(depth: map<string, int>, e: ChartEdge): map<string, int>
  {
    if Raises(depth, e) then depth[e.to := Max(ToDepth(depth, e.to), depth[e.from] + 1)] else depth
  }

  /** The map after a pass and whether any edge of the pass changed it. */
  datatype Step = Step(depth: map<string, int>, changed: bool)

  /** One pass over the edges, in order. */
  function Pass(depth: map<string, int>, edges: seq<ChartEdge>): Step
  {
    if edges == [] then Step(depth, false)
    else
      var prev := Pass(depth, edges[..|edges| - 1]);
      var e := edges[|edges| - 1];
      Step(Relax(prev.depth, e), prev.changed || Raises(prev.depth, e))
  }

  /** The outcome of the relaxation loop: the map, the passes run, and whether
      it stopped because a pass changed nothing. */
  datatype Relaxed = Relaxed(depth: map<string, int>, passes: nat, settled: bool)

  /** The loop `while (changed && guard < 1000)`, entered with `changed` set
      after `guard` passes. */
  function Relaxation(depth: map<string, int>, edges: seq<ChartEdge>, guard: nat): (r: Relaxed)
    requires guard <= MaxPasses
    ensures guard <= r.passes <= MaxPasses
    ensures r.settled || r.passes == MaxPasses
    decreases MaxPasses - guard
  {
    if guard >= MaxPasses then Relaxed(depth, guard, false)
    else
      var s := Pass(depth, edges);
      if s.changed then Relaxation(s.depth, edges, guard + 1) else Relaxed(s.depth, guard + 1, true)
  }

  /** The default depth of a node the relaxation did not reach. */
  function DefaultDepth(t: NodeType): nat
  {
    match t
    case MainProcess => 0
    case PartialProcess => 1
    case BuildingBlockNode => 2
    case _ => 0
  }

  /** Every node without a depth gets the default of its type; the first node with an id decides. */
  function WithDefaults(depth: map<string, int>, nodes: seq<ChartNode>): (r: map<string, int>)
    ensures forall k :: k in depth ==> k in r && r[k] == depth[k]
    ensures forall i :: 0 <= i < |nodes| ==> nodes[i].id in r
    ensures forall k :: k in r ==> k in depth || exists i :: 0 <= i < |nodes| && nodes[i].id == k
  {
    if nodes == [] then depth
    else
      var n := |nodes| - 1;
      var prev := WithDefaults(depth, nodes[..n]);
      assert forall i :: 0 <= i < n ==> nodes[..n][i] == nodes[i];
      if nodes[n].id in prev then prev else prev[nodes[n].id := DefaultDepth(nodes[n].nodeType)]
  }

  /** `computeDepths(nodes, edges)`. */
  function Depths(nodes: seq<ChartNode>, edges: seq<ChartEdge>): map<string, int>
  {
    WithDefaults(Relaxation(Seeded(nodes), edges, 0).depth, nodes)
  }

  /** Depths are never negative. */
  ghost predicate NonNegative(depth: map<string, int>)
  {
    forall k :: k in depth ==> depth[k] >= 0
  }

  /** `b` keeps every key of `a` at the same depth or deeper. */
  ghost predicate Raised(a: map<string, int>, b: map<string, int>)
  {
    forall k :: k in a ==> k in b && b[k] >= a[k]
  }

  /** Every edge whose source has a depth has its target at least one level deeper. */
  ghost predicate FixedPoint(depth: map<string, int>, edges: seq<ChartEdge>)
  {
    forall e :: e in edges && e.from in depth ==> e.to in depth && depth[e.to] >= depth[e.from] + 1
  }

  /** A pass never lowers a depth and never makes one negative. */
  lemma {:induction false} PassRaises(depth: map<string, int>, edges: seq<ChartEdge>)
    requires NonNegative(depth)
    ensures Raised(depth, Pass(depth, edges).depth) && NonNegative(Pass(depth, edges).depth)
  {
    if edges != [] {
      PassRaises(depth, edges[..|edges| - 1]);
    }
  }

  /** Nor does the whole relaxation. */
  lemma {:induction false} RelaxationRaises(depth: map<string, int>, edges: seq<ChartEdge>, guard: nat)
    requires guard <= MaxPasses && NonNegative(depth)
    ensures var r := Relaxation(depth, edges, guard);
            Raised(depth, r.depth) && NonNegative(r.depth)
    decreases MaxPasses - guard
  {
    if guard < MaxPasses {
      PassRaises(depth, edges);
      var s := Pass(depth, edges);
      if s.changed {
        RelaxationRaises(s.depth, edges, guard + 1);
      }
    }
  }

  /** A pass changes nothing exactly when the map is already a fixed point,
      and then it leaves the map as it was. */
  lemma {:induction false} PassUnchanged(depth: map<string, int>, edges: seq<ChartEdge>)
    requires NonNegative(depth)
    ensures !Pass(depth, edges).changed <==> FixedPoint(depth, edges)
    ensures !Pass(depth, edges).changed ==> Pass(depth, edges).depth == depth
  {
    if edges != [] {
      var n := |edges| - 1;
      var e := edges[n];
      PassUnchanged(depth, edges[..n]);
      var prev := Pass(depth, edges[..n]);
      assert forall x :: x in edges <==> x in edges[..n] || x == e;
      if !prev.changed {
        if e.from in depth {
          assert depth[e.from] + 1 > -1;
        }
      } else {
        assert !FixedPoint(depth, edges[..n]);
      }
    }
  }

  /** When the relaxation stops because a pass changed nothing, the map is a fixed point. */
  lemma {:induction false} RelaxationSettled(depth: map<string, int>, edges: seq<ChartEdge>, guard: nat)
    requires guard <= MaxPasses && NonNegative(depth)
    ensures var r := Relaxation(depth, edges, guard);
            r.settled ==> FixedPoint(r.depth, edges)
    decreases MaxPasses - guard
  {
    if guard < MaxPasses {
      PassRaises(depth, edges);
      var s := Pass(depth, edges);
      if s.changed {
        RelaxationSettled(s.depth, edges, guard + 1);
      } else {
        PassUnchanged(depth, edges);
      }
    }
  }

  /** Re-running the relaxation from a fixed point takes one pass and changes nothing. */
  lemma RelaxationRerun(depth: map<string, int>, edges: seq<ChartEdge>)
    requires NonNegative(depth) && FixedPoint(depth, edges)
    ensures Relaxation(depth, edges, 0) == Relaxed(depth, 1, true)
  {
    PassUnchanged(depth, edges);
  }

  /** A node the relaxation did not reach gets the default of the first node
      with its id; every displayed node ends with a depth, and no depth is negative. */
  lemma DepthsRule(nodes: seq<ChartNode>, edges: seq<ChartEdge>)
    ensures var relaxed := Relaxation(Seeded(nodes), edges, 0).depth;
            var d := Depths(nodes, edges);
            && NonNegative(d)
            && (forall i :: 0 <= i < |nodes| ==> nodes[i].id in d)
            && (forall k :: k in relaxed ==> d[k] == relaxed[k])
            && (forall i :: 0 <= i < |nodes| && nodes[i].id !in relaxed
                            && (forall j :: 0 <= j < i ==> nodes[j].id != nodes[i].id)
                            ==> d[nodes[i].id] == DefaultDepth(nodes[i].nodeType))
  {
    var seed := Seeded(nodes);
    assert NonNegative(seed);
    RelaxationRaises(seed, edges, 0);
    var relaxed := Relaxation(seed, edges, 0).depth;
    DefaultsNonNegative(relaxed, nodes);
    DefaultsFirst(relaxed, nodes);
  }

  lemma {:induction false} DefaultsNonNegative(depth: map<string, int>, nodes: seq<ChartNode>)
    requires NonNegative(depth)
    ensures NonNegative(WithDefaults(depth, nodes))
  {
    if nodes != [] {
      DefaultsNonNegative(depth, nodes[..|nodes| - 1]);
    }
  }

  /** The default a node gets is the one of the first node with its id. */
  lemma DefaultsFirst(depth: map<string, int>, nodes: seq<ChartNode>)
    ensures var r := WithDefaults(depth, nodes);
            forall i :: 0 <= i < |nodes| && nodes[i].id !in depth
                        && (forall j :: 0 <= j < i ==> nodes[j].id != nodes[i].id)
                        ==> r[nodes[i].id] == DefaultDepth(nodes[i].nodeType)
  {
    forall i | 0 <= i < |nodes| && nodes[i].id !in depth && FirstOfId(nodes, i)
      ensures WithDefaults(depth, nodes)[nodes[i].id] == DefaultDepth(nodes[i].nodeType)
    {
      DefaultAt(depth, nodes, i);
    }
  }

  /** No node before `i` has the id of `nodes[i]`. */
  ghost predicate FirstOfId(nodes: seq<ChartNode>, i: nat)
    requires i < |nodes|
  {
    forall j :: 0 <= j < i ==> nodes[j].id != nodes[i].id
  }

  /** The first node with an id the relaxation missed gets its type's default. */
  lemma {:induction false} DefaultAt(depth: map<string, int>, nodes: seq<ChartNode>, i: nat)
    requires i < |nodes| && nodes[i].id !in depth && FirstOfId(nodes, i)
    ensures WithDefaults(depth, nodes)[nodes[i].id] == DefaultDepth(nodes[i].nodeType)
  {
    var n := |nodes| - 1;
    if i < n {
      assert FirstOfId(nodes[..n], i) by {
        assert forall j :: 0 <= j < i ==> nodes[..n][j] == nodes[j];
      }
      DefaultAt(depth, nodes[..n], i);
      assert nodes[..n][i] == nodes[i];
      DefaultKept(depth, nodes, i);
    } else {
      DefaultLast(depth, nodes);
    }
  }

  /** The depth of an earlier node's id is kept when a node is added. */
  lemma DefaultKept(depth: map<string, int>, nodes: seq<ChartNode>, i: nat)
    requires i < |nodes| - 1
    ensures nodes[..|nodes| - 1][i] == nodes[i]
    ensures WithDefaults(depth, nodes)[nodes[i].id] == WithDefaults(depth, nodes[..|nodes| - 1])[nodes[i].id]
  {
    assert nodes[..|nodes| - 1][i] == nodes[i];
  }

  /** A last node whose id is new gets its type's default. */
  lemma DefaultLast(depth: map<string, int>, nodes: seq<ChartNode>)
    requires nodes != [] && nodes[|nodes| - 1].id !in depth && FirstOfId(nodes, |nodes| - 1)
    ensures WithDefaults(depth, nodes)[nodes[|nodes| - 1].id] == DefaultDepth(nodes[|nodes| - 1].nodeType)
  {
    var n := |nodes| - 1;
    assert forall j :: 0 <= j < n ==> nodes[..n][j].id != nodes[n].id;
  }

  /** The seeding of `computeDepths`. */
  method SeedDepths(nodes: seq<ChartNode>) returns (depth: map<string, int>)
    ensures depth == Seeded(nodes)
  {
    depth := map[];
    var mainProcess := FirstMain(nodes);
    if mainProcess.Some? {
      depth := depth[nodes[mainProcess.value].id := 0];
    } else {
      for i := 0 to |nodes|
        invariant depth == ProblemSeeds(nodes[..i])
      {
        assert nodes[..i + 1][..i] == nodes[..i];
        if nodes[i].nodeType == Problem {
          depth := depth[nodes[i].id := 0];
        }
      }
      assert nodes[..|nodes|] == nodes;
    }
  }

  /** One pass of the relaxation loop: `for (const e of edges)`. */
  method RunPass(start: map<string, int>, edges: seq<ChartEdge>) returns (depth: map<string, int>, changed: bool)
    ensures Step(depth, changed) == Pass(start, edges)
  {
    depth, changed := start, false;
    for j := 0 to |edges|
      invariant Pass(start, edges[..j]) == Step(depth, changed)
    {
      assert edges[..j + 1][..j] == edges[..j];
      var e := edges[j];
      if e.from in depth {
        var fromDepth := depth[e.from];
        var toDepth := if e.to in depth then depth[e.to] else -1;
        var next := Max(toDepth, fromDepth + 1);
        if next != toDepth {
          depth := depth[e.to := next];
          changed := true;
        }
      }
    }
    assert edges[..|edges|] == edges;
  }

  /** The relaxation loop: `while (changed && guard < 1000)`. */
  method Relax1000(start: map<string, int>, edges: seq<ChartEdge>) returns (depth: map<string, int>)
    ensures depth == Relaxation(start, edges, 0).depth
  {
    ghost var goal := Relaxation(start, edges, 0);
    depth := start;
    var changed := true;
    var guard := 0;
    while changed && guard < MaxPasses
      invariant guard <= MaxPasses
      invariant !changed ==> guard >= 1
      invariant goal == if changed then Relaxation(depth, edges, guard) else Relaxed(depth, guard, true)
      decreases MaxPasses - guard
    {
      guard := guard + 1;
      depth, changed := RunPass(depth, edges);
    }
  }

  /** The defaults loop of `computeDepths`. */
  method FillDefaults(relaxed: map<string, int>, nodes: seq<ChartNode>) returns (depth: map<string, int>)
    ensures depth == WithDefaults(relaxed, nodes)
  {
    depth := relaxed;
    for i := 0 to |nodes|
      invariant depth == WithDefaults(relaxed, nodes[..i])
    {
      assert nodes[..i + 1][..i] == nodes[..i];
      var n := nodes[i];
      if n.id !in depth {
        depth := depth[n.id := DefaultDepth(n.nodeType)];
      }
    }
    assert nodes[..|nodes|] == nodes;
  }

  /** `computeDepths`: seed, relax until a pass changes nothing or 1000 passes
      have run, then fill in the defaults. */
  method ComputeDepths(nodes: seq<ChartNode>, edges: seq<ChartEdge>) returns (depth: map<string, int>)
    ensures depth == Depths(nodes, edges)
  {
    var seed := SeedDepths(nodes);
    var relaxed := Relax1000(seed, edges);
    depth := FillDefaults(relaxed, nodes);
  }

  /** `depth.get(id) ?? 0`. */
  function DepthOf(depth: map<string, int>, id: string): int
  {
    if id in depth then depth[id] else 0
  }

  /** The column key of every node, in node order. */
  function DepthKeys(nodes: seq<ChartNode>, depth: map<string, int>): (r: seq<int>)
    ensures |r| == |nodes|
    ensures forall i :: 0 <= i < |r| ==> r[i] == DepthOf(depth, nodes[i].id)
  {
    if nodes == [] then [] else DepthKeys(nodes[..|nodes| - 1], depth) + [DepthOf(depth, nodes[|nodes| - 1].id)]
  }

  datatype Point = Point(x: real, y: real)

  /** The positions by node id, and the size of the drawing. */
  datatype Layout = Layout(positioned: map<string, Point>, width: real, height: real)

  /** `Math.max(containerWidth, totalLayers * LAYER_WIDTH + 200)`. */
  function TotalWidth(containerWidth: real, layers: int): real
  {
    RMax(containerWidth, (layers * LayerWidth + 200) as real)
  }

  /** The left edge of the first column, centring the columns. */
  function StartX(totalWidth: real, layers: int): real
  {
    (totalWidth - (layers * LayerWidth) as real) / 2.0
  }

  /** The x of the column of depth `d`. */
  function ColumnX(startX: real, d: int, minDepth: int): real
  {
    startX + ((d - minDepth) * LayerWidth) as real
  }

  /** The y of the `i`-th of `count` nodes in a column. */
  function RowY(height: real, count: nat, i: nat): real
  {
    var usable := RMax(200.0, height - 40.0);
    var stepY := if count > 1 then usable / (count + 1) as real else usable / 2.0;
    if count == 1 then height / 2.0 else 40.0 + stepY * (i + 1) as real
  }

  /** Placing the first `k` nodes of one column. */
  function PlaceGroup(pos: map<string, Point>, group: seq<ChartNode>, k: nat, x: real, height: real): map<string, Point>
    requires k <= |group|
  {
    if k == 0 then pos
    else PlaceGroup(pos, group, k - 1, x, height)[group[k - 1].id := Point(x, RowY(height, |group|, k - 1))]
  }

  /** Placing the columns of the first `k` keys, in key order. */
  function PlaceColumns(pos: map<string, Point>, cols: Groups<int, ChartNode>, k: nat, startX: real, minDepth: int, height: real): map<string, Point>
    requires k <= |cols.order| && forall i :: 0 <= i < |cols.order| ==> cols.order[i] in cols.members
  {
    if k == 0 then pos
    else
      var d := cols.order[k - 1];
      var group := cols.members[d];
      PlaceGroup(PlaceColumns(pos, cols, k - 1, startX, minDepth, height), group, |group|, ColumnX(startX, d, minDepth), height)
  }

  /** The columns: the nodes grouped by depth, in node order. */
  function Columns(nodes: seq<ChartNode>, depth: map<string, int>): Groups<int, ChartNode>
  {
    Grouped(nodes, DepthKeys(nodes, depth))
  }

  /** The coordinates of the columns, for a container of the given size. */
  function Arrange(cols: Groups<int, ChartNode>, containerWidth: real, height: real): (r: Layout)
    requires forall i :: 0 <= i < |cols.order| ==> cols.order[i] in cols.members
    ensures r.width >= containerWidth && r.height == height
  {
    var layers := Layers(cols);
    var totalWidth := TotalWidth(containerWidth, layers);
    Layout(PlaceColumns(map[], cols, |cols.order|, StartX(totalWidth, layers), MinKey(cols.order), height), totalWidth, height)
  }

  /** `maxDepth - minDepth + 1`. */
  function Layers(cols: Groups<int, ChartNode>): int
  {
    MaxKey(cols.order) - MinKey(cols.order) + 1
  }

  /** The `layout` memo. */
  function LayoutOf(nodes: seq<ChartNode>, edges: seq<ChartEdge>, clientWidth: Option<nat>, clientHeight: Option<nat>): Layout
  {
    Arrange(Columns(nodes, Depths(nodes, edges)), Measured(clientWidth, 1200), Measured(clientHeight, 800))
  }

  /** The grouping loop of the `layout` memo: `depthToNodes`. */
  method GroupByDepth(nodes: seq<ChartNode>, depth: map<string, int>) returns (cols: Groups<int, ChartNode>)
    ensures cols == Columns(nodes, depth)
  {
    cols := Groups([], map[]);
    for i := 0 to |nodes|
      invariant cols == Grouped(nodes[..i], DepthKeys(nodes[..i], depth))
    {
      assert nodes[..i + 1][..i] == nodes[..i];
      var d := if nodes[i].id in depth then depth[nodes[i].id] else 0;
      cols := Push(cols, d, nodes[i]);
    }
    assert nodes[..|nodes|] == nodes;
  }

  /** Placing one column: `group.forEach((n, i) => positioned.set(n.id, { x, y }))`. */
  method PlaceColumn(before: map<string, Point>, group: seq<ChartNode>, x: real, height: real)
    returns (positioned: map<string, Point>)
    ensures positioned == PlaceGroup(before, group, |group|, x, height)
  {
    positioned := before;
    for i := 0 to |group|
      invariant positioned == PlaceGroup(before, group, i, x, height)
    {
      positioned := positioned[group[i].id := Point(x, RowY(height, |group|, i))];
    }
  }

  /** `for (const [d, group] of depthToNodes.entries())`: the columns in key order. */
  method PlaceAll(cols: Groups<int, ChartNode>, startX: real, minDepth: int, height: real) returns (positioned: map<string, Point>)
    requires forall i :: 0 <= i < |cols.order| ==> cols.order[i] in cols.members
    ensures positioned == PlaceColumns(map[], cols, |cols.order|, startX, minDepth, height)
  {
    positioned := map[];
    for k := 0 to |cols.order|
      invariant positioned == PlaceColumns(map[], cols, k, startX, minDepth, height)
    {
      var d := cols.order[k];
      positioned := PlaceColumn(positioned, cols.members[d], ColumnX(startX, d, minDepth), height);
    }
  }

  /** The coordinates part of the `layout` memo. */
  method ArrangeColumns(cols: Groups<int, ChartNode>, containerWidth: real, height: real) returns (r: Layout)
    requires forall i :: 0 <= i < |cols.order| ==> cols.order[i] in cols.members
    ensures r == Arrange(cols, containerWidth, height)
  {
    var maxDepth, minDepth := MaxKey(cols.order), MinKey(cols.order);
    var layers := maxDepth - minDepth + 1;
    var totalWidth := TotalWidth(containerWidth, layers);
    var startX := StartX(totalWidth, layers);
    assert layers == Layers(cols);
    var positioned := PlaceAll(cols, startX, minDepth, height);
    r := Layout(positioned, totalWidth, height);
  }

  /** The `layout` memo of the canvas: depths, columns, then one position per node id. */
  method ComputeLayout(nodes: seq<ChartNode>, edges: seq<ChartEdge>, clientWidth: Option<nat>, clientHeight: Option<nat>)
    returns (r: Layout)
    ensures r == LayoutOf(nodes, edges, clientWidth, clientHeight)
  {
    var depth := ComputeDepths(nodes, edges);
    var cols := GroupByDepth(nodes, depth);
    var containerHeight := if clientHeight.Some? then clientHeight.value as real else 800.0;
    var containerWidth := if clientWidth.Some? then clientWidth.value as real else 1200.0;
    r := ArrangeColumns(cols, containerWidth, containerHeight);
  }

  /** Every displayed node sits in the column of its depth. */
  lemma NodeInItsColumn(nodes: seq<ChartNode>, depth: map<string, int>, i: nat)
    requires i < |nodes|
    ensures var cols := Columns(nodes, depth);
            DepthOf(depth, nodes[i].id) in cols.members && nodes[i] in cols.members[DepthOf(depth, nodes[i].id)]
  {
    var ks := DepthKeys(nodes, depth);
    GroupedContents(nodes, ks);
    assert ks[i] in ks;
    SelectHas(nodes, ks, i);
  }

  /** Each column holds only displayed nodes of its depth, in node order. */
  lemma ColumnHoldsItsDepth(nodes: seq<ChartNode>, depth: map<string, int>, d: int)
    ensures var cols := Columns(nodes, depth);
            d in cols.members ==> forall n :: n in cols.members[d] ==> n in nodes && DepthOf(depth, n.id) == d
  {
    var ks := DepthKeys(nodes, depth);
    var cols := Columns(nodes, depth);
    if d in cols.members {
      GroupedContents(nodes, ks);
      assert cols.members[d] == Select(nodes, ks, d);
      SelectKeys(nodes, ks, d);
      forall n | n in cols.members[d] ensures n in nodes && DepthOf(depth, n.id) == d {
        var i :| 0 <= i < |nodes| && nodes[i] == n && ks[i] == d;
      }
    }
  }

  /** Together the columns hold every node once. */
  lemma ColumnsSize(nodes: seq<ChartNode>, depth: map<string, int>)
    ensures var cols := Columns(nodes, depth); Size(cols.order, cols.members) == |nodes|
  {
    GroupedSize(nodes, DepthKeys(nodes, depth));
  }

  /** `p` is a position in the column of depth `d`: that column's x, and the y
      of one of its rows. */
  ghost predicate OnColumn(p: Point, d: int, cols: Groups<int, ChartNode>, startX: real, minDepth: int, height: real)
  {
    && d in cols.members
    && p.x == ColumnX(startX, d, minDepth)
    && exists i :: 0 <= i < |cols.members[d]| && p.y == RowY(height, |cols.members[d]|, i)
  }

  /** Every placed id sits in the column of its depth. */
  ghost predicate WellPlaced(pos: map<string, Point>, depth: map<string, int>, cols: Groups<int, ChartNode>,
                             startX: real, minDepth: int, height: real)
  {
    forall id :: id in pos ==> OnColumn(pos[id], DepthOf(depth, id), cols, startX, minDepth, height)
  }

  lemma {:induction false} PlaceGroupSound(pos: map<string, Point>, depth: map<string, int>, cols: Groups<int, ChartNode>,
                                           d: int, k: nat, startX: real, minDepth: int, height: real)
    requires d in cols.members && k <= |cols.members[d]|
    requires forall n :: n in cols.members[d] ==> DepthOf(depth, n.id) == d
    requires WellPlaced(pos, depth, cols, startX, minDepth, height)
    ensures var r := PlaceGroup(pos, cols.members[d], k, ColumnX(startX, d, minDepth), height);
            && WellPlaced(r, depth, cols, startX, minDepth, height)
            && (forall id :: id in pos ==> id in r)
            && (forall j :: 0 <= j < k ==> cols.members[d][j].id in r)
  {
    if k > 0 {
      var group := cols.members[d];
      PlaceGroupSound(pos, depth, cols, d, k - 1, startX, minDepth, height);
      var n := group[k - 1];
      assert n in group;
      var x := ColumnX(startX, d, minDepth);
      var p := Point(x, RowY(height, |group|, k - 1));
      assert OnColumn(p, DepthOf(depth, n.id), cols, startX, minDepth, height);
    }
  }

  lemma {:induction false} PlaceColumnsSound(cols: Groups<int, ChartNode>, depth: map<string, int>, k: nat,
                                             startX: real, minDepth: int, height: real)
    requires Valid(cols) && k <= |cols.order|
    requires forall d, n :: d in cols.members && n in cols.members[d] ==> DepthOf(depth, n.id) == d
    ensures var r := PlaceColumns(map[], cols, k, startX, minDepth, height);
            && WellPlaced(r, depth, cols, startX, minDepth, height)
            && forall j, n :: 0 <= j < k && n in cols.members[cols.order[j]] ==> n.id in r
  {
    if k > 0 {
      PlaceColumnsSound(cols, depth, k - 1, startX, minDepth, height);
      var d := cols.order[k - 1];
      var prev := PlaceColumns(map[], cols, k - 1, startX, minDepth, height);
      PlaceGroupSound(prev, depth, cols, d, |cols.members[d]|, startX, minDepth, height);
      var r := PlaceColumns(map[], cols, k, startX, minDepth, height);
      assert r == PlaceGroup(prev, cols.members[d], |cols.members[d]|, ColumnX(startX, d, minDepth), height);
      forall j, n | 0 <= j < k && n in cols.members[cols.order[j]] ensures n.id in r {
        if j == k - 1 {
          var i :| 0 <= i < |cols.members[d]| && cols.members[d][i] == n;
        }
      }
    }
  }

  /** Every displayed node is positioned, at the x of the column of its depth
      and at the y of one of that column's rows. */
  lemma LayoutPositions(nodes: seq<ChartNode>, edges: seq<ChartEdge>, clientWidth: Option<nat>, clientHeight: Option<nat>)
    ensures var depth := Depths(nodes, edges);
            var cols := Columns(nodes, depth);
            var r := LayoutOf(nodes, edges, clientWidth, clientHeight);
            forall i :: 0 <= i < |nodes| ==>
              && nodes[i].id in r.positioned
              && OnColumn(r.positioned[nodes[i].id], DepthOf(depth, nodes[i].id), cols,
                          StartX(r.width, Layers(cols)), MinKey(cols.order), r.height)
  {
    ArrangePositions(nodes, Depths(nodes, edges), Measured(clientWidth, 1200), Measured(clientHeight, 800));
  }

  /** The same for any depth map and container size. */
  lemma ArrangePositions(nodes: seq<ChartNode>, depth: map<string, int>, containerWidth: real, height: real)
    ensures var cols := Columns(nodes, depth);
            var r := Arrange(cols, containerWidth, height);
            forall i :: 0 <= i < |nodes| ==>
              && nodes[i].id in r.positioned
              && OnColumn(r.positioned[nodes[i].id], DepthOf(depth, nodes[i].id), cols,
                          StartX(r.width, Layers(cols)), MinKey(cols.order), r.height)
  {
    var cols := Columns(nodes, depth);
    var r := Arrange(cols, containerWidth, height);
    var startX := StartX(r.width, Layers(cols));
    forall d, n | d in cols.members && n in cols.members[d] ensures DepthOf(depth, n.id) == d {
      ColumnHoldsItsDepth(nodes, depth, d);
    }
    PlaceColumnsSound(cols, depth, |cols.order|, startX, MinKey(cols.order), height);
    forall i | 0 <= i < |nodes| ensures nodes[i].id in r.positioned {
      NodeInItsColumn(nodes, depth, i);
      var d := DepthOf(depth, nodes[i].id);
      var j :| 0 <= j < |cols.order| && cols.order[j] == d;
    }
  }

  /** Columns are left to right by depth: one node lies left of another exactly
      when its depth is smaller, and nodes of equal depth share x. */
  lemma ColumnsOrdered(startX: real, minDepth: int, d1: int, d2: int)
    ensures ColumnX(startX, d1, minDepth) < ColumnX(startX, d2, minDepth) <==> d1 < d2
    ensures ColumnX(startX, d1, minDepth) == ColumnX(startX, d2, minDepth) <==> d1 == d2
  {
  }

  /** The drawing is at least as wide as the container, and every column
      between the smallest and the largest depth lies inside it with a margin
      of 100 on each side. */
  lemma WidthFits(containerWidth: real, minDepth: int, maxDepth: int, d: int)
    requires minDepth <= d <= maxDepth
    ensures var layers := maxDepth - minDepth + 1;
            var w := TotalWidth(containerWidth, layers);
            var x := ColumnX(StartX(w, layers), d, minDepth);
            && w >= containerWidth
            && 100.0 <= x && x + LayerWidth as real <= w - 100.0
  {
    var layers := maxDepth - minDepth + 1;
    var w := TotalWidth(containerWidth, layers);
    assert w >= (layers * LayerWidth + 200) as real;
    assert (d - minDepth + 1) * LayerWidth <= layers * LayerWidth;
  }

  /** Every displayed node lies inside the drawing, 100 clear of either side. */
  lemma ArrangeFits(nodes: seq<ChartNode>, depth: map<string, int>, containerWidth: real, height: real)
    ensures var cols := Columns(nodes, depth);
            var r := Arrange(cols, containerWidth, height);
            forall i :: 0 <= i < |nodes| ==>
              nodes[i].id in r.positioned
              && 100.0 <= r.positioned[nodes[i].id].x && r.positioned[nodes[i].id].x + LayerWidth as real <= r.width - 100.0
  {
    var cols := Columns(nodes, depth);
    var r := Arrange(cols, containerWidth, height);
    ArrangePositions(nodes, depth, containerWidth, height);
    forall i | 0 <= i < |nodes|
      ensures 100.0 <= r.positioned[nodes[i].id].x && r.positioned[nodes[i].id].x + LayerWidth as real <= r.width - 100.0
    {
      var d := DepthOf(depth, nodes[i].id);
      NodeInItsColumn(nodes, depth, i);
      var j :| 0 <= j < |cols.order| && cols.order[j] == d;
      WidthFits(containerWidth, MinKey(cols.order), MaxKey(cols.order), d);
    }
  }

  /** Depths are never negative, so the leftmost column is depth 0. */
  lemma MinDepthZero(nodes: seq<ChartNode>, edges: seq<ChartEdge>)
    ensures MinKey(Columns(nodes, Depths(nodes, edges)).order) == 0
  {
    var depth := Depths(nodes, edges);
    var ks := DepthKeys(nodes, depth);
    var cols := Columns(nodes, depth);
    DepthsRule(nodes, edges);
    GroupedContents(nodes, ks);
  }

  /** A lone node is centred vertically; the rows of a larger column lie
      strictly inside the band from 40 to 40 plus the usable height. */
  lemma RowsInside(height: real, count: nat, i: nat)
    requires i < count
    ensures count == 1 ==> RowY(height, count, i) == height / 2.0
    ensures count > 1 ==> 40.0 < RowY(height, count, i) < 40.0 + RMax(200.0, height - 40.0)
  {
    if count > 1 {
      var usable := RMax(200.0, height - 40.0);
      var stepY := usable / (count + 1) as real;
      assert stepY > 0.0;
      assert stepY * (i + 1) as real <= stepY * count as real;
      assert stepY * (count + 1) as real == usable;
    }
  }

  /** `n.id ? `${n.name} [${n.id}]` : n.name`. */
  function FullLabel(n: ChartNode): string
  {
    if n.id != "" then n.name + " [" + n.id + "]" else n.name
  }

  /** The node label: shown whole up to 28 characters, otherwise cut to 27 and
      ended with an ellipsis, so it never exceeds 28. */
  function Label(n: ChartNode): (r: string)
    ensures |r| <= 28
    ensures r == FullLabel(n) <==> |FullLabel(n)| <= 28
    ensures |FullLabel(n)| > 28 ==> |r| == 28 && r[..27] == FullLabel(n)[..27] && r[27] == '…'
  {
    var full := FullLabel(n);
    if |full| > 28 then full[..27] + "…" else full
  }
}
