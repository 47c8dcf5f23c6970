/** The display-graph transitions of src/store/useFlowchartStore.ts as pure
    functions over the library and the displayed nodes and edges: what
    `expandNode` reveals, what `toggleNode` removes, and how `startFromProcess`,
    `setProblem`, `automate` and `searchAndStartProcess` seed the display.
    The store class in module FlowchartStore is proved against these. */
module StoreSpec {
  import opened Types
  import opened Text
  import Assistant

  /** The displayed nodes and edges. */
  datatype Display = Display(nodes: seq<ChartNode>, edges: seq<ChartEdge>)

  /** `Array.prototype.find`: the first element satisfying `p`. */
  function First<T>(xs: seq<T>, p: T -> bool): (r: Option<T>)
    ensures r.None? <==> forall i :: 0 <= i < |xs| ==> !p(xs[i])
    ensures r.Some? ==> exists i :: 0 <= i < |xs| && xs[i] == r.value && p(xs[i])
                                    && forall j :: 0 <= j < i ==> !p(xs[j])
  {
    if xs == [] then None
    else if p(xs[0]) then Some(xs[0])
    else
      var r := First(xs[1..], p);
      assert r.Some? ==> exists i :: 1 <= i < |xs| && xs[i] == r.value && p(xs[i])
                                    && forall j :: 0 <= j < i ==> !p(xs[j]) by {
        if r.Some? {
          var k :| 0 <= k < |xs[1..]| && xs[1..][k] == r.value && p(xs[1..][k])
                   && forall j :: 0 <= j < k ==> !p(xs[1..][j]);
          assert xs[k + 1] == r.value;
          forall j | 0 <= j < k + 1 ensures !p(xs[j]) {
            if j > 0 { assert xs[j] == xs[1..][j - 1]; }
          }
        }
      }
      r
  }

  function FindProcess(procs: seq<Process>, id: string): Option<Process>
  {
    First(procs, (p: Process) => p.id == id)
  }

  function FindBlock(blocks: seq<BuildingBlock>, id: string): Option<BuildingBlock>
  {
    First(blocks, (b: BuildingBlock) => b.id == id)
  }

  function FindNode(nodes: seq<ChartNode>, id: string): Option<ChartNode>
  {
    First(nodes, (n: ChartNode) => n.id == id)
  }

  /** `toChartNodeFromProcess`. */
  function ProcessNode(p: Process): ChartNode
  {
    ChartNode(p.id, p.name, if p.kind == Hauptprozess then MainProcess else PartialProcess,
              p.merkmalsklassen, p.randbedingungen, p.ablageort, None)
  }

  /** `toChartNodeFromBlock`. */
  function BlockNode(b: BuildingBlock): ChartNode
  {
    ChartNode(b.id, b.name, BuildingBlockNode, None, None,
              if b.ablageort.Some? then Some(Flat(b.ablageort.value)) else None, b.eigenschaften)
  }

  /** `toChartNodeFromBlock` applied to a process record: what a link target
      that is a process without a `merkmalsklassen` field becomes. */
  function ProcessAsBlockNode(p: Process): ChartNode
  {
    ChartNode(p.id, p.name, BuildingBlockNode, None, None, p.ablageort, None)
  }

  /** The display node of a link target: the first process with that id, shown
      as a process exactly when its record has a `merkmalsklassen` field and
      as a building block otherwise; failing that the first block with that id. */
  function ResolveTarget(lib: LibraryData, to: string): (r: Option<ChartNode>)
    ensures r.Some? ==> r.value.id == to
    ensures r.None? <==> FindProcess(lib.processes, to).None? && FindBlock(lib.buildingBlocks, to).None?
    ensures FindProcess(lib.processes, to).Some? ==>
              var p := FindProcess(lib.processes, to).value;
              r == Some(if p.merkmalsklassen.Some? then ProcessNode(p) else ProcessAsBlockNode(p))
  {
    match FindProcess(lib.processes, to)
    case Some(p) => Some(if p.merkmalsklassen.Some? then ProcessNode(p) else ProcessAsBlockNode(p))
    case None =>
      match FindBlock(lib.buildingBlocks, to)
      case Some(b) => Some(BlockNode(b))
      case None => None
  }

  /** A node that may be revealed, with the edge that would lead to it. */
  datatype Reveal = Reveal(node: ChartNode, edge: ChartEdge)

  /** A reveal from `id`: its edge leaves `id` and ends at the node it reveals. */
  predicate RevealsFrom(rs: seq<Reveal>, id: string)
  {
    forall k :: 0 <= k < |rs| ==> rs[k].edge.from == id && rs[k].edge.to == rs[k].node.id
  }

  /** The library links leaving `id`, in library order. */
  function OutgoingLinks(links: seq<ChartEdge>, id: string): (r: seq<ChartEdge>)
    ensures forall e :: e in r <==> e in links && e.from == id
  {
    if links == [] then []
    else
      var rest := OutgoingLinks(links[..|links| - 1], id);
      var last := links[|links| - 1];
      assert links == links[..|links| - 1] + [last];
      if last.from == id then rest + [last] else rest
  }

  /** The link loop: every link whose target resolves reveals that target
      through an edge of the link's type; dangling links are skipped. */
  function LinkReveals(lib: LibraryData, links: seq<ChartEdge>, id: string): (r: seq<Reveal>)
    ensures RevealsFrom(r, id)
    ensures forall k :: 0 <= k < |r| ==> exists l :: l in links && l.to == r[k].edge.to && l.edgeType == r[k].edge.edgeType
  {
    if links == [] then []
    else
      var rest := LinkReveals(lib, links[..|links| - 1], id);
      var link := links[|links| - 1];
      assert forall l :: l in links[..|links| - 1] ==> l in links;
      match ResolveTarget(lib, link.to)
      case None => rest
      case Some(cn) => rest + [Reveal(cn, ChartEdge(id, link.to, link.edgeType))]
  }

  /** The legacy fallback of a main process: each listed id that resolves to a
      process is revealed through a `contains` edge. */
  function ChildReveals(lib: LibraryData, pids: seq<string>, id: string): (r: seq<Reveal>)
    ensures RevealsFrom(r, id)
    ensures forall k :: 0 <= k < |r| ==>
              (r[k].edge.edgeType == Contains && exists p :: p in lib.processes && p.id in pids && r[k].node == ProcessNode(p))
  {
    if pids == [] then []
    else
      var rest := ChildReveals(lib, pids[..|pids| - 1], id);
      assert forall x :: x in pids[..|pids| - 1] ==> x in pids;
      match FindProcess(lib.processes, pids[|pids| - 1])
      case None => rest
      case Some(child) => rest + [Reveal(ProcessNode(child), ChartEdge(id, child.id, Contains))]
  }

  /** The legacy fallback of a sub-process: each listed id that resolves to a
      building block is revealed through a `uses` edge. */
  function BlockReveals(lib: LibraryData, bids: seq<string>, id: string): (r: seq<Reveal>)
    ensures RevealsFrom(r, id)
    ensures forall k :: 0 <= k < |r| ==>
              (r[k].edge.edgeType == Uses && exists b :: b in lib.buildingBlocks && b.id in bids && r[k].node == BlockNode(b))
  {
    if bids == [] then []
    else
      var rest := BlockReveals(lib, bids[..|bids| - 1], id);
      assert forall x :: x in bids[..|bids| - 1] ==> x in bids;
      match FindBlock(lib.buildingBlocks, bids[|bids| - 1])
      case None => rest
      case Some(block) => rest + [Reveal(BlockNode(block), ChartEdge(id, block.id, Uses))]
  }

  /** The fallback by the displayed node's type, reading the lists of the first
      process with the clicked id. */
  function FallbackReveals(lib: LibraryData, node: ChartNode, id: string): seq<Reveal>
  {
    var proc := FindProcess(lib.processes, id);
    if node.nodeType == MainProcess then
      (if proc.Some? && proc.value.partialProcesses.Some? then ChildReveals(lib, proc.value.partialProcesses.value, id) else [])
    else if node.nodeType == PartialProcess then
      (if proc.Some? && proc.value.buildingBlocks.Some? then BlockReveals(lib, proc.value.buildingBlocks.value, id) else [])
    else []
  }

  /** Everything the click on displayed node `node` (with id `id`) may reveal,
      in the order the source visits it. */
  function Reveals(lib: LibraryData, node: ChartNode, id: string): (r: seq<Reveal>)
    ensures RevealsFrom(r, id)
  {
    var out := OutgoingLinks(lib.links, id);
    LinkReveals(lib, out, id) + (if |out| == 0 then FallbackReveals(lib, node, id) else [])
  }

  /** The reveals of a click, none when no library is loaded or the id is not displayed. */
  function RevealsAt(lib: Option<LibraryData>, d: Display, id: string): (r: seq<Reveal>)
    ensures RevealsFrom(r, id)
  {
    if lib.None? then []
    else match FindNode(d.nodes, id)
      case None => []
      case Some(node) => Reveals(lib.value, node, id)
  }

  function RevealNodes(rs: seq<Reveal>): seq<ChartNode>
  {
    seq(|rs|, k requires 0 <= k < |rs| => rs[k].node)
  }

  function RevealEdges(rs: seq<Reveal>): seq<ChartEdge>
  {
    seq(|rs|, k requires 0 <= k < |rs| => rs[k].edge)
  }

  lemma RevealNodesSnoc(rs: seq<Reveal>)
    requires rs != []
    ensures RevealNodes(rs) == RevealNodes(rs[..|rs| - 1]) + [rs[|rs| - 1].node]
  {
    var a := RevealNodes(rs);
    var b := RevealNodes(rs[..|rs| - 1]) + [rs[|rs| - 1].node];
    assert |a| == |b|;
    forall k | 0 <= k < |a| ensures a[k] == b[k] {
      if k < |rs| - 1 {
        assert rs[..|rs| - 1][k] == rs[k];
      }
    }
  }

  lemma RevealEdgesSnoc(rs: seq<Reveal>)
    requires rs != []
    ensures RevealEdges(rs) == RevealEdges(rs[..|rs| - 1]) + [rs[|rs| - 1].edge]
  {
    var a := RevealEdges(rs);
    var b := RevealEdges(rs[..|rs| - 1]) + [rs[|rs| - 1].edge];
    assert |a| == |b|;
    forall k | 0 <= k < |a| ensures a[k] == b[k] {
      if k < |rs| - 1 {
        assert rs[..|rs| - 1][k] == rs[k];
      }
    }
  }

  /** The revealed nodes whose id was not displayed before the click. They are
      checked against the old display only, so a target revealed twice is added twice. */
  function NewNodes(rs: seq<Reveal>, shown: set<string>): (r: seq<ChartNode>)
    ensures forall n :: n in r <==> n in RevealNodes(rs) && n.id !in shown
  {
    if rs == [] then []
    else
      var init := rs[..|rs| - 1];
      var rest := NewNodes(init, shown);
      var n := rs[|rs| - 1].node;
      RevealNodesSnoc(rs);
      if n.id !in shown then rest + [n] else rest
  }

  /** The revealed edges whose key was not displayed before the click. */
  function NewEdges(rs: seq<Reveal>, keys: set<string>): (r: seq<ChartEdge>)
    ensures forall e :: e in r <==> e in RevealEdges(rs) && EdgeKey(e) !in keys
  {
    if rs == [] then []
    else
      var init := rs[..|rs| - 1];
      var rest := NewEdges(init, keys);
      var e := rs[|rs| - 1].edge;
      RevealEdgesSnoc(rs);
      if EdgeKey(e) !in keys then rest + [e] else rest
  }

  /** `expandNode` as a value: the old lists followed by what is new. */
  function Expanded(lib: Option<LibraryData>, d: Display, id: string): Display
  {
    var rs := RevealsAt(lib, d, id);
    Display(d.nodes + NewNodes(rs, NodeIds(d.nodes)), d.edges + NewEdges(rs, EdgeKeys(d.edges)))
  }

  /** Expansion is append-only; each added node was not displayed, each added
      edge leaves the clicked id with a key that was not displayed. */
  lemma ExpandAppendOnly(lib: Option<LibraryData>, d: Display, id: string)
    ensures var r := Expanded(lib, d, id);
            && |d.nodes| <= |r.nodes| && r.nodes[..|d.nodes|] == d.nodes
            && |d.edges| <= |r.edges| && r.edges[..|d.edges|] == d.edges
            && (forall i :: |d.nodes| <= i < |r.nodes| ==> r.nodes[i].id !in NodeIds(d.nodes))
            && (forall i :: |d.edges| <= i < |r.edges| ==> r.edges[i].from == id && EdgeKey(r.edges[i]) !in EdgeKeys(d.edges))
  {
    var rs := RevealsAt(lib, d, id);
    var nn, ne := NewNodes(rs, NodeIds(d.nodes)), NewEdges(rs, EdgeKeys(d.edges));
    RevealEdgesFrom(rs, id);
    AppendedNodes(d.nodes, nn, NodeIds(d.nodes));
    AppendedEdges(d.edges, ne, id, EdgeKeys(d.edges));
  }

  /** Every revealed edge leaves the clicked id. */
  lemma RevealEdgesFrom(rs: seq<Reveal>, id: string)
    requires RevealsFrom(rs, id)
    ensures forall e :: e in RevealEdges(rs) ==> e.from == id
  {
    forall e | e in RevealEdges(rs) ensures e.from == id {
      var k :| 0 <= k < |rs| && RevealEdges(rs)[k] == e;
    }
  }

  lemma AppendedNodes(a: seq<ChartNode>, nn: seq<ChartNode>, shown: set<string>)
    requires forall n :: n in nn ==> n.id !in shown
    ensures (a + nn)[..|a|] == a
    ensures forall i :: |a| <= i < |a + nn| ==> (a + nn)[i].id !in shown
  {
    forall i | |a| <= i < |a + nn| ensures (a + nn)[i].id !in shown {
      assert (a + nn)[i] == nn[i - |a|];
    }
  }

  lemma AppendedEdges(a: seq<ChartEdge>, ne: seq<ChartEdge>, id: string, keys: set<string>)
    requires forall e :: e in ne ==> e.from == id && EdgeKey(e) !in keys
    ensures (a + ne)[..|a|] == a
    ensures forall i :: |a| <= i < |a + ne| ==> (a + ne)[i].from == id && EdgeKey((a + ne)[i]) !in keys
  {
    forall i | |a| <= i < |a + ne| ensures (a + ne)[i].from == id && EdgeKey((a + ne)[i]) !in keys {
      assert (a + ne)[i] == ne[i - |a|];
    }
  }

  /** Nothing changes without a library or when the id is not displayed. */
  lemma ExpandUnknownIsNoOp(lib: Option<LibraryData>, d: Display, id: string)
    requires lib.None? || id !in NodeIds(d.nodes)
    ensures Expanded(lib, d, id) == d
  {
    if lib.Some? {
      assert FindNode(d.nodes, id).None?;
    }
    assert d.nodes + [] == d.nodes && d.edges + [] == d.edges;
  }

  /** When the library has links from the id, the legacy lists are ignored and
      every revealed edge copies the type of a library link from the id to the same target. */
  lemma LinksWinOverFallback(lib: LibraryData, node: ChartNode, id: string)
    requires |OutgoingLinks(lib.links, id)| > 0
    ensures var rs := Reveals(lib, node, id);
            forall k :: 0 <= k < |rs| ==>
              exists l :: l in lib.links && l.from == id && l.to == rs[k].edge.to && l.edgeType == rs[k].edge.edgeType
  {
    var out := OutgoingLinks(lib.links, id);
    assert Reveals(lib, node, id) == LinkReveals(lib, out, id) + [];
  }

  /** A node whose links all dangle reveals nothing: the fallback is not consulted. */
  lemma {:induction false} DanglingLinksRevealNothing(lib: LibraryData, links: seq<ChartEdge>, id: string)
    requires forall l :: l in links ==> ResolveTarget(lib, l.to).None?
    ensures LinkReveals(lib, links, id) == []
  {
    if links != [] {
      assert forall l :: l in links[..|links| - 1] ==> l in links;
      DanglingLinksRevealNothing(lib, links[..|links| - 1], id);
    }
  }

  /** Without links, a main-process node reveals only processes, through
      `contains` edges; a sub-process node only blocks, through `uses` edges;
      any other node nothing. */
  lemma FallbackResolution(lib: LibraryData, node: ChartNode, id: string)
    requires |OutgoingLinks(lib.links, id)| == 0
    ensures node.nodeType == MainProcess ==> forall k :: 0 <= k < |Reveals(lib, node, id)| ==>
              Reveals(lib, node, id)[k].edge.edgeType == Contains
              && exists p :: p in lib.processes && Reveals(lib, node, id)[k].node == ProcessNode(p)
    ensures node.nodeType == PartialProcess ==> forall k :: 0 <= k < |Reveals(lib, node, id)| ==>
              Reveals(lib, node, id)[k].edge.edgeType == Uses
              && exists b :: b in lib.buildingBlocks && Reveals(lib, node, id)[k].node == BlockNode(b)
    ensures node.nodeType !in {MainProcess, PartialProcess} ==> Reveals(lib, node, id) == []
  {
    var out := OutgoingLinks(lib.links, id);
    assert out == [];
    var fb := FallbackReveals(lib, node, id);
    assert Reveals(lib, node, id) == [] + fb;
    var proc := FindProcess(lib.processes, id);
    if node.nodeType == MainProcess && proc.Some? && proc.value.partialProcesses.Some? {
      assert fb == ChildReveals(lib, proc.value.partialProcesses.value, id);
    } else if node.nodeType == PartialProcess && proc.Some? && proc.value.buildingBlocks.Some? {
      var bs := BlockReveals(lib, proc.value.buildingBlocks.value, id);
      assert fb == bs;
      forall k | 0 <= k < |fb|
        ensures fb[k].edge.edgeType == Uses && exists b :: b in lib.buildingBlocks && fb[k].node == BlockNode(b)
      {
        var b :| b in lib.buildingBlocks && b.id in proc.value.buildingBlocks.value && bs[k].node == BlockNode(b);
      }
    } else {
      assert fb == [];
    }
  }

  lemma NodeIdsAppend(a: seq<ChartNode>, b: seq<ChartNode>)
    ensures NodeIds(a + b) == NodeIds(a) + NodeIds(b)
  {
    forall x | x in NodeIds(a + b) ensures x in NodeIds(a) + NodeIds(b) {
      var i :| 0 <= i < |a + b| && (a + b)[i].id == x;
      if i < |a| { assert (a + b)[i] == a[i]; } else { assert (a + b)[i] == b[i - |a|]; }
    }
    forall x | x in NodeIds(a) + NodeIds(b) ensures x in NodeIds(a + b) {
      if x in NodeIds(a) {
        var i :| 0 <= i < |a| && a[i].id == x;
        assert (a + b)[i] == a[i];
      } else {
        var i :| 0 <= i < |b| && b[i].id == x;
        assert (a + b)[|a| + i] == b[i];
      }
    }
  }

  /** After an expansion every revealed node's id is displayed. */
  lemma RevealedIdsShown(rs: seq<Reveal>, nodes: seq<ChartNode>)
    ensures forall k :: 0 <= k < |rs| ==> rs[k].node.id in NodeIds(nodes + NewNodes(rs, NodeIds(nodes)))
  {
    var nn := NewNodes(rs, NodeIds(nodes));
    NodeIdsAppend(nodes, nn);
    forall k | 0 <= k < |rs| ensures rs[k].node.id in NodeIds(nodes) + NodeIds(nn) {
      var n := rs[k].node;
      assert RevealNodes(rs)[k] == n;
      if n.id !in NodeIds(nodes) {
        assert n in nn;
        var i :| 0 <= i < |nn| && nn[i] == n;
      }
    }
  }

  /** Every added edge is the edge of some reveal. */
  lemma NewEdgesFromReveals(rs: seq<Reveal>, keys: set<string>, e: ChartEdge)
    requires e in NewEdges(rs, keys)
    ensures exists k :: 0 <= k < |rs| && rs[k].edge == e
  {
    assert e in RevealEdges(rs);
    var k :| 0 <= k < |rs| && RevealEdges(rs)[k] == e;
  }

  /** Expansion keeps a consistent display consistent. */
  lemma ExpandKeepsEdgesWithinNodes(lib: Option<LibraryData>, d: Display, id: string)
    requires EdgesWithinNodes(d.nodes, d.edges)
    ensures var r := Expanded(lib, d, id); EdgesWithinNodes(r.nodes, r.edges)
  {
    var r := Expanded(lib, d, id);
    NodeIdsAppend(d.nodes, NewNodes(RevealsAt(lib, d, id), NodeIds(d.nodes)));
    forall e | e in r.edges ensures e.from in NodeIds(r.nodes) && e.to in NodeIds(r.nodes) {
      if e !in d.edges {
        NewEdgeWithinNodes(lib, d, id, e);
      }
    }
  }

  /** An edge added by expansion joins two nodes shown after it. */
  lemma NewEdgeWithinNodes(lib: Option<LibraryData>, d: Display, id: string, e: ChartEdge)
    requires e in NewEdges(RevealsAt(lib, d, id), EdgeKeys(d.edges))
    ensures var r := Expanded(lib, d, id); e.from in NodeIds(r.nodes) && e.to in NodeIds(r.nodes)
  {
    var rs := RevealsAt(lib, d, id);
    var nn := NewNodes(rs, NodeIds(d.nodes));
    NodeIdsAppend(d.nodes, nn);
    RevealedIdsShown(rs, d.nodes);
    NewEdgesFromReveals(rs, EdgeKeys(d.edges), e);
    assert rs != [];
    assert lib.Some? && FindNode(d.nodes, id).Some?;
    assert id in NodeIds(d.nodes);
  }

  // ---------------------------------------------------------------------
  // Collapse

  /** The targets of the edges leaving a set of ids. */
  function Succ(edges: seq<ChartEdge>, s: set<string>): (r: set<string>)
    ensures forall e :: e in edges && e.from in s ==> e.to in r
    ensures forall x :: x in r ==> exists e :: e in edges && e.from in s && e.to == x
  {
    set e | e in edges && e.from in s :: e.to
  }

  function Targets(edges: seq<ChartEdge>): (r: set<string>)
    ensures forall s :: Succ(edges, s) <= r
  {
    set e | e in edges :: e.to
  }

  /** Growing a subset of `t` strictly shrinks what is left of `t`. */
  lemma ShrinkingGap(t: set<string>, s: set<string>, next: set<string>)
    requires s <= next <= t && next != s
    ensures |t - next| < |t - s|
  {
    assert exists y :: y in next && y !in s by {
      assert !(forall y :: y in next ==> y in s);
    }
    var x :| x in next && x !in s;
    assert t - next <= (t - s) - {x};
    assert |(t - s) - {x}| == |t - s| - 1;
    SubsetCard(t - next, (t - s) - {x});
  }

  lemma {:induction false} SubsetCard(a: set<string>, b: set<string>)
    requires a <= b
    ensures |a| <= |b|
    decreases |b|
  {
    if a != {} {
      var x :| x in a;
      SubsetCard(a - {x}, b - {x});
    }
  }

  /** The least set containing `s` and closed under `Succ`. */
  function Closure(edges: seq<ChartEdge>, s: set<string>): (r: set<string>)
    requires s <= Targets(edges)
    ensures s <= r <= Targets(edges)
    ensures Succ(edges, r) <= r
    decreases |Targets(edges) - s|
  {
    var next := s + Succ(edges, s);
    if next == s then s
    else
      ShrinkingGap(Targets(edges), s, next);
      Closure(edges, next)
  }

  /** Every set that contains `s` and is closed under `Succ` contains the closure. */
  lemma {:induction false} ClosureLeast(edges: seq<ChartEdge>, s: set<string>, c: set<string>)
    requires s <= Targets(edges)
    requires s <= c && Succ(edges, c) <= c
    ensures Closure(edges, s) <= c
    decreases |Targets(edges) - s|
  {
    var next := s + Succ(edges, s);
    if next != s {
      assert Succ(edges, s) <= Succ(edges, c);
      ShrinkingGap(Targets(edges), s, next);
      ClosureLeast(edges, next, c);
    }
  }

  /** The nodes `toggleNode` collapses: everything reachable from the direct
      children of `id` along displayed edges. `id` itself is not excluded. */
  function Descendants(edges: seq<ChartEdge>, id: string): set<string>
  {
    Closure(edges, Succ(edges, {id}))
  }

  /** Collapse has no guard for the clicked node: on a displayed cycle through
      `id`, the clicked node is removed too. */
  lemma CollapseReachesRootOnCycle(edges: seq<ChartEdge>, id: string, child: string)
    requires ChartEdge(id, child, Contains) in edges && ChartEdge(child, id, Contains) in edges
    ensures id in Descendants(edges, id)
  {
    var kids := Succ(edges, {id});
    assert child in kids;
    var c := Descendants(edges, id);
    assert child in c;
    assert id in Succ(edges, c);
  }

  /** Whether a displayed edge leaves `id` (`edges.some`). */
  predicate HasOutgoing(edges: seq<ChartEdge>, id: string)
  {
    exists e :: e in edges && e.from == id
  }

  /** The nodes outside the removal set, in display order. */
  function KeepNodes(nodes: seq<ChartNode>, gone: set<string>): (r: seq<ChartNode>)
    ensures forall n :: n in r <==> n in nodes && n.id !in gone
  {
    if nodes == [] then []
    else
      var rest := KeepNodes(nodes[..|nodes| - 1], gone);
      var n := nodes[|nodes| - 1];
      assert nodes == nodes[..|nodes| - 1] + [n];
      if n.id !in gone then rest + [n] else rest
  }

  /** The edges that neither leave `id` nor touch the removal set, in display order. */
  function KeepEdges(edges: seq<ChartEdge>, id: string, gone: set<string>): (r: seq<ChartEdge>)
    ensures forall e :: e in r <==> e in edges && e.from != id && e.from !in gone && e.to !in gone
  {
    if edges == [] then []
    else
      var rest := KeepEdges(edges[..|edges| - 1], id, gone);
      var e := edges[|edges| - 1];
      assert edges == edges[..|edges| - 1] + [e];
      if e.from != id && e.from !in gone && e.to !in gone then rest + [e] else rest
  }

  /** The collapse branch of `toggleNode`. */
  function Collapsed(d: Display, id: string): Display
  {
    var gone := Descendants(d.edges, id);
    if gone == {} then d else Display(KeepNodes(d.nodes, gone), KeepEdges(d.edges, id, gone))
  }

  /** `toggleNode` as a value: expand exactly when no displayed edge leaves the id. */
  function Toggled(lib: Option<LibraryData>, d: Display, id: string): Display
  {
    if HasOutgoing(d.edges, id) then Collapsed(d, id) else Expanded(lib, d, id)
  }

  /** Keeping everything is the identity. */
  lemma {:induction false} KeepNodesNone(nodes: seq<ChartNode>, gone: set<string>)
    requires forall i :: 0 <= i < |nodes| ==> nodes[i].id !in gone
    ensures KeepNodes(nodes, gone) == nodes
  {
    if nodes != [] {
      var init := nodes[..|nodes| - 1];
      KeepNodesNone(init, gone);
      assert nodes == init + [nodes[|nodes| - 1]];
    }
  }

  lemma {:induction false} KeepEdgesNone(edges: seq<ChartEdge>, id: string, gone: set<string>)
    requires forall i :: 0 <= i < |edges| ==> edges[i].from != id && edges[i].from !in gone && edges[i].to !in gone
    ensures KeepEdges(edges, id, gone) == edges
  {
    if edges != [] {
      var init := edges[..|edges| - 1];
      KeepEdgesNone(init, id, gone);
      assert edges == init + [edges[|edges| - 1]];
    }
  }

  /** Dropping a tail that is entirely removed leaves the filter of the head. */
  lemma {:induction false} KeepNodesDropTail(a: seq<ChartNode>, b: seq<ChartNode>, gone: set<string>)
    requires forall n :: n in b ==> n.id in gone
    ensures KeepNodes(a + b, gone) == KeepNodes(a, gone)
    decreases |b|
  {
    if b != [] {
      var init := b[..|b| - 1];
      assert (a + b)[..|a + b| - 1] == a + init;
      assert (a + b)[|a + b| - 1] == b[|b| - 1];
      assert b[|b| - 1] in b;
      assert forall n :: n in init ==> n in b;
      KeepNodesDropTail(a, init, gone);
    } else {
      assert a + b == a;
    }
  }

  lemma {:induction false} KeepEdgesDropTail(a: seq<ChartEdge>, b: seq<ChartEdge>, id: string, gone: set<string>)
    requires forall e :: e in b ==> e.from == id
    ensures KeepEdges(a + b, id, gone) == KeepEdges(a, id, gone)
    decreases |b|
  {
    if b != [] {
      var init := b[..|b| - 1];
      assert (a + b)[..|a + b| - 1] == a + init;
      assert (a + b)[|a + b| - 1] == b[|b| - 1];
      assert b[|b| - 1] in b;
      assert forall e :: e in init ==> e in b;
      KeepEdgesDropTail(a, init, id, gone);
    } else {
      assert a + b == a;
    }
  }

  /** The targets of a list of reveals. */
  function RevealTargets(rs: seq<Reveal>): set<string>
  {
    set k | 0 <= k < |rs| :: rs[k].edge.to
  }

  /** When no revealed node is displayed, all of them are new. */
  lemma {:induction false} NewNodesAll(rs: seq<Reveal>, shown: set<string>)
    requires forall k :: 0 <= k < |rs| ==> rs[k].node.id !in shown
    ensures NewNodes(rs, shown) == RevealNodes(rs)
  {
    if rs != [] {
      var init := rs[..|rs| - 1];
      PrefixIndex(rs, |init|);
      NewNodesAll(init, shown);
      RevealNodesSnoc(rs);
    }
  }

  /** When no revealed edge key is displayed, all revealed edges are new. */
  lemma {:induction false} NewEdgesAll(rs: seq<Reveal>, keys: set<string>)
    requires forall k :: 0 <= k < |rs| ==> EdgeKey(rs[k].edge) !in keys
    ensures NewEdges(rs, keys) == RevealEdges(rs)
  {
    if rs != [] {
      var init := rs[..|rs| - 1];
      PrefixIndex(rs, |init|);
      NewEdgesAll(init, keys);
      RevealEdgesSnoc(rs);
    }
  }

  /** After the expansion the children of `id` are exactly the revealed targets
      and nothing leaves a target, so the removal set is the targets. */
  lemma RemovalIsTargets(d: Display, rs: seq<Reveal>, id: string)
    requires RevealsFrom(rs, id) && rs != []
    requires forall e :: e in d.edges ==> e.from != id && e.from !in RevealTargets(rs)
    requires id !in RevealTargets(rs)
    ensures Descendants(d.edges + RevealEdges(rs), id) == RevealTargets(rs)
  {
    var t := RevealTargets(rs);
    var es := d.edges + RevealEdges(rs);
    forall i | 0 <= i < |es| ensures (es[i].from == id ==> es[i].to in t) && es[i].from !in t {
      if i < |d.edges| {
        assert es[i] == d.edges[i];
        assert d.edges[i] in d.edges;
      } else {
        assert es[i] == rs[i - |d.edges|].edge;
      }
    }
    forall x | x in t ensures x in Succ(es, {id}) {
      var k :| 0 <= k < |rs| && rs[k].edge.to == x;
      assert es[|d.edges| + k] == rs[k].edge;
    }
    forall x | x in Succ(es, {id}) ensures x in t {
      var ed :| ed in es && ed.from in {id} && ed.to == x;
      var i :| 0 <= i < |es| && es[i] == ed;
    }
    assert Succ(es, {id}) == t;
    assert Succ(es, t) == {} by {
      forall ed | ed in es ensures ed.from !in t {
        var i :| 0 <= i < |es| && es[i] == ed;
      }
    }
    ClosureLeast(es, t, t);
  }

  /** Collapsing right after an expansion that added every reveal removes
      exactly what it added. */
  lemma CollapseUndoesExpansion(d: Display, rs: seq<Reveal>, id: string)
    requires RevealsFrom(rs, id) && rs != []
    requires forall e :: e in d.edges ==> e.from != id
    requires forall e :: e in d.edges ==> e.from !in RevealTargets(rs) && e.to !in RevealTargets(rs)
    requires forall i :: 0 <= i < |d.nodes| ==> d.nodes[i].id !in RevealTargets(rs)
    requires id !in RevealTargets(rs)
    ensures Collapsed(Display(d.nodes + RevealNodes(rs), d.edges + RevealEdges(rs)), id) == d
  {
    var t := RevealTargets(rs);
    RemovalIsTargets(d, rs, id);
    assert rs[0].edge.to in t;
    forall i | 0 <= i < |RevealNodes(rs)| ensures RevealNodes(rs)[i].id in t {
      assert rs[i].edge.to == rs[i].node.id;
    }
    KeepNodesDropTail(d.nodes, RevealNodes(rs), t);
    KeepNodesNone(d.nodes, t);
    forall i | 0 <= i < |RevealEdges(rs)| ensures RevealEdges(rs)[i].from == id {
    }
    KeepEdgesDropTail(d.edges, RevealEdges(rs), id, t);
    forall i | 0 <= i < |d.edges| ensures d.edges[i].from != id && d.edges[i].from !in t && d.edges[i].to !in t {
      assert d.edges[i] in d.edges;
    }
    KeepEdgesNone(d.edges, id, t);
  }

  /** Toggling a node with no outgoing edge, then toggling it again, restores the
      display, provided every revealed target was not displayed before, no
      displayed edge leaves or enters a target, and no displayed edge has the key
      of a revealed edge (keys are strings, so distinct edges can share one). */
  lemma ToggleTwiceRestores(lib: Option<LibraryData>, d: Display, id: string)
    requires !HasOutgoing(d.edges, id)
    requires var rs := RevealsAt(lib, d, id);
             && (forall k :: 0 <= k < |rs| ==> rs[k].node.id !in NodeIds(d.nodes))
             && (forall e :: e in d.edges ==> e.from !in RevealTargets(rs) && e.to !in RevealTargets(rs))
             && (forall k :: 0 <= k < |rs| ==> EdgeKey(rs[k].edge) !in EdgeKeys(d.edges))
    ensures Toggled(lib, Toggled(lib, d, id), id) == d
  {
    var rs := RevealsAt(lib, d, id);
    NewNodesAll(rs, NodeIds(d.nodes));
    NewEdgesAll(rs, EdgeKeys(d.edges));
    var e := Display(d.nodes + RevealNodes(rs), d.edges + RevealEdges(rs));
    assert Toggled(lib, d, id) == e;
    if rs == [] {
      assert e.nodes == d.nodes && e.edges == d.edges;
    } else {
      RevealedTargetsFresh(lib, d, id, rs);
      ExpansionReversed(d, rs, id);
    }
  }

  /** Neither the clicked node nor any displayed node is a revealed target
      when every revealed node is new. */
  lemma RevealedTargetsFresh(lib: Option<LibraryData>, d: Display, id: string, rs: seq<Reveal>)
    requires rs == RevealsAt(lib, d, id) && rs != []
    requires forall k :: 0 <= k < |rs| ==> rs[k].node.id !in NodeIds(d.nodes)
    ensures id !in RevealTargets(rs)
    ensures forall i :: 0 <= i < |d.nodes| ==> d.nodes[i].id !in RevealTargets(rs)
  {
    assert id in NodeIds(d.nodes) by {
      assert lib.Some? && FindNode(d.nodes, id).Some?;
    }
    forall k | 0 <= k < |rs| ensures rs[k].edge.to != id {
      assert rs[k].node.id !in NodeIds(d.nodes);
    }
    forall i | 0 <= i < |d.nodes| ensures d.nodes[i].id !in RevealTargets(rs) {
      forall k | 0 <= k < |rs| ensures rs[k].edge.to != d.nodes[i].id {
        assert rs[k].node.id !in NodeIds(d.nodes);
      }
    }
  }

  /** After an expansion that added every reveal, the node has an outgoing
      edge, and collapsing it gives back the display before. */
  lemma ExpansionReversed(d: Display, rs: seq<Reveal>, id: string)
    requires RevealsFrom(rs, id) && rs != []
    requires !HasOutgoing(d.edges, id)
    requires forall e :: e in d.edges ==> e.from !in RevealTargets(rs) && e.to !in RevealTargets(rs)
    requires forall i :: 0 <= i < |d.nodes| ==> d.nodes[i].id !in RevealTargets(rs)
    requires id !in RevealTargets(rs)
    ensures var e := Display(d.nodes + RevealNodes(rs), d.edges + RevealEdges(rs));
            HasOutgoing(e.edges, id) && Collapsed(e, id) == d
  {
    var e := Display(d.nodes + RevealNodes(rs), d.edges + RevealEdges(rs));
    assert e.edges[|d.edges|] == rs[0].edge;
    assert e.edges[|d.edges|] in e.edges;
    CollapseUndoesExpansion(d, rs, id);
  }

  /** Toggling a node that has an outgoing edge keeps exactly the nodes outside
      the removal set and the edges that neither leave the node nor touch it. */
  lemma ToggleCollapses(lib: Option<LibraryData>, d: Display, id: string)
    requires HasOutgoing(d.edges, id)
    ensures var r := Toggled(lib, d, id);
            var gone := Descendants(d.edges, id);
            && gone != {}
            && (forall n :: n in r.nodes <==> n in d.nodes && n.id !in gone)
            && (forall e :: e in r.edges <==> e in d.edges && e.from != id && e.from !in gone && e.to !in gone)
  {
    var e :| e in d.edges && e.from == id;
    assert e.to in Succ(d.edges, {id});
  }

  // ---------------------------------------------------------------------
  // Seeding

  /** `startFromProcess` on the display: the single start node, then expanded;
      nothing when no library is loaded or the id is unknown. */
  function StartedFrom(lib: Option<LibraryData>, d: Display, pid: string): Display
  {
    if lib.None? then d
    else match FindProcess(lib.value.processes, pid)
      case None => d
      case Some(p) => Expanded(lib, Display([ProcessNode(p)], []), pid)
  }

  /** Starting from a known process shows its node first and only edges leaving it. */
  lemma StartFromProcessShape(lib: LibraryData, d: Display, pid: string)
    requires FindProcess(lib.processes, pid).Some?
    ensures var r := StartedFrom(Some(lib), d, pid);
            var p := FindProcess(lib.processes, pid).value;
            && |r.nodes| >= 1 && r.nodes[0] == ProcessNode(p) && p in lib.processes && p.id == pid
            && (forall e :: e in r.edges ==> e.from == pid)
  {
    var p := FindProcess(lib.processes, pid).value;
    var s := Display([ProcessNode(p)], []);
    ExpandAppendOnly(Some(lib), s, pid);
    var r := Expanded(Some(lib), s, pid);
    forall e | e in r.edges ensures e.from == pid {
      var i :| 0 <= i < |r.edges| && r.edges[i] == e;
    }
  }

  /** The id of the problem node. */
  function ProblemId(problem: string): string
  {
    "problem:" + problem
  }

  /** One process node per process, in order. */
  function ProcessNodes(s: seq<Process>): (r: seq<ChartNode>)
    ensures |r| == |s|
    ensures forall i :: 0 <= i < |r| ==> r[i] == ProcessNode(s[i])
  {
    if s == [] then [] else ProcessNodes(s[..|s| - 1]) + [ProcessNode(s[|s| - 1])]
  }

  /** One `solved-by` edge from `from` to each node, in order. */
  function SolvedByEdges(from: string, ns: seq<ChartNode>): (r: seq<ChartEdge>)
    ensures |r| == |ns|
    ensures forall i :: 0 <= i < |r| ==> r[i] == ChartEdge(from, ns[i].id, SolvedBy)
  {
    if ns == [] then [] else SolvedByEdges(from, ns[..|ns| - 1]) + [ChartEdge(from, ns[|ns| - 1].id, SolvedBy)]
  }

  /** `setProblem` on the display: the problem node, then one node per suggestion,
      one `solved-by` edge from the problem to each suggestion. */
  function ProblemDisplay(problem: string, classes: seq<string>, lib: LibraryData): (r: Display)
    ensures |r.nodes| == |r.edges| + 1
    ensures r.nodes[0] == ChartNode(ProblemId(problem), problem, Problem, None, None, None, None)
    ensures forall i :: 0 <= i < |r.edges| ==>
              r.edges[i] == ChartEdge(ProblemId(problem), r.nodes[i + 1].id, SolvedBy)
              && r.nodes[i + 1].nodeType in {MainProcess, PartialProcess}
    ensures |r.edges| <= Assistant.MaxSuggestions
    ensures r.nodes[1..] == ProcessNodes(Assistant.Suggestions(problem, classes, lib))
  {
    var s := Assistant.Suggestions(problem, classes, lib);
    Assistant.SuggestionsAtMost(problem, classes, lib);
    var prob := ChartNode(ProblemId(problem), problem, Problem, None, None, None, None);
    var ns := ProcessNodes(s);
    var r := Display([prob] + ns, SolvedByEdges(prob.id, ns));
    assert forall i :: 0 <= i < |ns| ==> r.nodes[i + 1] == ns[i];
    r
  }

  /** The classes `automate` and the search fallback ask for. */
  const FrequentClasses: seq<string> := ["Applying", "Printing", "Preparing"]

  /** Whether a node is a problem node. */
  predicate IsProblemNode(n: ChartNode)
  {
    n.nodeType == Problem
  }

  /** `automate` on the display: the suggestions for the first problem node that
      are not displayed yet are appended, each with a `solved-by` edge from it. */
  function Automated(lib: Option<LibraryData>, d: Display): Display
  {
    if lib.None? then d
    else match First(d.nodes, IsProblemNode)
      case None => d
      case Some(root) =>
        var s := Assistant.Suggestions(root.name, FrequentClasses, lib.value);
        var added := KeepNodes(ProcessNodes(s), NodeIds(d.nodes));
        Display(d.nodes + added, d.edges + SolvedByEdges(root.id, added))
  }

  /** `automate` is append-only: each added node was not displayed and gets one
      `solved-by` edge from a displayed problem node. */
  lemma AutomateAppendOnly(lib: Option<LibraryData>, d: Display)
    ensures SolvedByExtension(d, Automated(lib, d))
  {
    if lib.Some? {
      var root := First(d.nodes, IsProblemNode);
      if root.Some? {
        var s := Assistant.Suggestions(root.value.name, FrequentClasses, lib.value);
        var added := KeepNodes(ProcessNodes(s), NodeIds(d.nodes));
        assert root.value.id in ProblemIds(d.nodes);
        forall i | 0 <= i < |added| ensures added[i].id !in NodeIds(d.nodes) {
          assert added[i] in added;
        }
        SolvedByAppended(d, root.value.id, added);
        return;
      }
    }
    assert d.nodes[..|d.nodes|] == d.nodes && d.edges[..|d.edges|] == d.edges;
  }

  /** `r` extends `d`: the displayed nodes and edges stay in front, and each
      added node is fresh and paired with one `solved-by` edge from a displayed
      problem node. */
  ghost predicate SolvedByExtension(d: Display, r: Display)
  {
    && |d.nodes| <= |r.nodes| && r.nodes[..|d.nodes|] == d.nodes
    && |d.edges| <= |r.edges| && r.edges[..|d.edges|] == d.edges
    && |r.nodes| - |d.nodes| == |r.edges| - |d.edges|
    && forall i :: |d.nodes| <= i < |r.nodes| ==>
         && r.nodes[i].id !in NodeIds(d.nodes)
         && r.edges[i - |d.nodes| + |d.edges|].to == r.nodes[i].id
         && r.edges[i - |d.nodes| + |d.edges|].edgeType == SolvedBy
         && r.edges[i - |d.nodes| + |d.edges|].from in ProblemIds(d.nodes)
  }

  /** Appending fresh nodes, each with a `solved-by` edge from a displayed
      problem node, is such an extension. */
  lemma SolvedByAppended(d: Display, from: string, added: seq<ChartNode>)
    requires from in ProblemIds(d.nodes)
    requires forall i :: 0 <= i < |added| ==> added[i].id !in NodeIds(d.nodes)
    ensures SolvedByExtension(d, Display(d.nodes + added, d.edges + SolvedByEdges(from, added)))
  {
    var es := SolvedByEdges(from, added);
    assert (d.nodes + added)[..|d.nodes|] == d.nodes;
    assert (d.edges + es)[..|d.edges|] == d.edges;
  }

  /** The ids of the displayed problem nodes. */
  function ProblemIds(nodes: seq<ChartNode>): set<string>
  {
    set n | n in nodes && n.nodeType == Problem :: n.id
  }

  /** What `searchAndStartProcess` decides to do. */
  datatype SearchChoice = Ignore | StartAt(pid: string) | AskProblem(query: string)

  /** The hard-coded first choice of a search. */
  const PreferredMainId: string := "100000"

  /** A process matches a lower-cased query by name, id or one of its classes. */
  predicate MatchesQuery(p: Process, q: string)
  {
    Includes(Lower(p.name), q) || Includes(Lower(p.id), q)
    || (p.merkmalsklassen.Some? && exists m :: m in p.merkmalsklassen.value && Includes(Lower(m), q))
  }

  /** The processes matching a query, in library order. */
  function Matching(procs: seq<Process>, q: string): (r: seq<Process>)
    ensures forall p :: p in r <==> p in procs && MatchesQuery(p, q)
  {
    if procs == [] then []
    else
      var rest := Matching(procs[..|procs| - 1], q);
      var p := procs[|procs| - 1];
      assert procs == procs[..|procs| - 1] + [p];
      if MatchesQuery(p, q) then rest + [p] else rest
  }

  /** Main process 100000. */
  predicate IsPreferredMain(p: Process)
  {
    p.id == PreferredMainId && p.kind == Hauptprozess
  }

  predicate IsMainKind(p: Process)
  {
    p.kind == Hauptprozess
  }

  /** The choice order of `searchAndStartProcess`. */
  function SearchDecision(lib: Option<LibraryData>, query: string): SearchChoice
  {
    if lib.None? || Trim(query) == "" then Ignore
    else
      var procs := lib.value.processes;
      match First(procs, IsPreferredMain)
      case Some(m) => StartAt(m.id)
      case None =>
        var ms := Matching(procs, Lower(query));
        if ms == [] then AskProblem(query)
        else match First(ms, IsMainKind)
          case Some(h) => StartAt(h.id)
          case None => StartAt(ms[0].id)
  }

  /** `i` is the first index of `procs` holding a main process that matches `q`. */
  ghost predicate FirstMatchingMain(procs: seq<Process>, q: string, i: int)
  {
    && 0 <= i < |procs| && MatchesQuery(procs[i], q) && IsMainKind(procs[i])
    && forall j :: 0 <= j < i ==> !(MatchesQuery(procs[j], q) && IsMainKind(procs[j]))
  }

  /** `i` is the first index of `procs` holding a process that matches `q`. */
  ghost predicate FirstMatch(procs: seq<Process>, q: string, i: int)
  {
    && 0 <= i < |procs| && MatchesQuery(procs[i], q)
    && forall j :: 0 <= j < i ==> !MatchesQuery(procs[j], q)
  }

  /** The search never acts on a blank query or without a library; an existing
      main process 100000 always wins; otherwise the first matching main
      process in library order is started, else the first match; with no
      match at all the query becomes a problem description. */
  lemma SearchChoiceOrder(lib: Option<LibraryData>, query: string)
    ensures var c := SearchDecision(lib, query);
            && (lib.None? || Trim(query) == "" <==> c == Ignore)
            && (lib.Some? && Trim(query) != "" ==>
                  var procs, q := lib.value.processes, Lower(query);
                  && ((exists p :: p in procs && IsPreferredMain(p)) ==> c == StartAt(PreferredMainId))
                  && (!(exists p :: p in procs && IsPreferredMain(p)) ==>
                        && ((forall p :: p in procs ==> !MatchesQuery(p, q)) <==> c == AskProblem(query))
                        && ((exists p :: p in procs && MatchesQuery(p, q) && IsMainKind(p)) ==>
                              exists i :: FirstMatchingMain(procs, q, i) && c == StartAt(procs[i].id))
                        && ((exists p :: p in procs && MatchesQuery(p, q))
                            && (forall p :: p in procs && MatchesQuery(p, q) ==> !IsMainKind(p)) ==>
                              exists i :: FirstMatch(procs, q, i) && c == StartAt(procs[i].id))))
  {
    if lib.Some? && Trim(query) != "" {
      var procs, q := lib.value.processes, Lower(query);
      if exists p :: p in procs && IsPreferredMain(p) {
        SearchPrefersMain(lib, query);
      } else {
        NoPreferredMain(procs);
        SearchAsksIff(lib, query);
        if exists p :: p in procs && MatchesQuery(p, q) && IsMainKind(p) {
          var p :| p in procs && MatchesQuery(p, q) && IsMainKind(p);
          var k :| 0 <= k < |procs| && procs[k] == p;
          var i := FirstMatchingMainAt(procs, q, k);
          SearchStartsFirstMain(lib, query, i);
        }
        if && (exists p :: p in procs && MatchesQuery(p, q))
           && (forall p :: p in procs && MatchesQuery(p, q) ==> !IsMainKind(p)) {
          var p :| p in procs && MatchesQuery(p, q);
          var k :| 0 <= k < |procs| && procs[k] == p;
          var i := FirstMatchAt(procs, q, k);
          SearchStartsFirstMatch(lib, query, i);
        }
      }
    }
  }

  /** An existing main process 100000 is started whatever the query. */
  lemma SearchPrefersMain(lib: Option<LibraryData>, query: string)
    requires lib.Some? && Trim(query) != ""
    requires exists p :: p in lib.value.processes && IsPreferredMain(p)
    ensures SearchDecision(lib, query) == StartAt(PreferredMainId)
  {
    var procs := lib.value.processes;
    var p :| p in procs && IsPreferredMain(p);
    var i :| 0 <= i < |procs| && procs[i] == p;
    assert IsPreferredMain(procs[i]);
  }

  lemma NoPreferredMain(procs: seq<Process>)
    requires !exists p :: p in procs && IsPreferredMain(p)
    ensures First(procs, IsPreferredMain).None?
  {
    forall i | 0 <= i < |procs| ensures !IsPreferredMain(procs[i]) {
      assert procs[i] in procs;
    }
  }

  /** The first index at or before `k` holding a matching main process. */
  lemma {:induction false} FirstMatchingMainAt(procs: seq<Process>, q: string, k: nat) returns (i: nat)
    requires k < |procs| && MatchesQuery(procs[k], q) && IsMainKind(procs[k])
    ensures i <= k && FirstMatchingMain(procs, q, i)
    decreases k
  {
    if j :| 0 <= j < k && MatchesQuery(procs[j], q) && IsMainKind(procs[j]) {
      i := FirstMatchingMainAt(procs, q, j);
    } else {
      i := k;
    }
  }

  /** The first index at or before `k` holding a matching process. */
  lemma {:induction false} FirstMatchAt(procs: seq<Process>, q: string, k: nat) returns (i: nat)
    requires k < |procs| && MatchesQuery(procs[k], q)
    ensures i <= k && FirstMatch(procs, q, i)
    decreases k
  {
    if j :| 0 <= j < k && MatchesQuery(procs[j], q) {
      i := FirstMatchAt(procs, q, j);
    } else {
      i := k;
    }
  }

  /** Without main process 100000 the query becomes a problem description
      exactly when no process matches it. */
  lemma SearchAsksIff(lib: Option<LibraryData>, query: string)
    requires lib.Some? && Trim(query) != ""
    requires First(lib.value.processes, IsPreferredMain).None?
    ensures (forall p :: p in lib.value.processes ==> !MatchesQuery(p, Lower(query)))
            <==> SearchDecision(lib, query) == AskProblem(query)
  {
    var procs, q := lib.value.processes, Lower(query);
    var ms := Matching(procs, q);
    if ms == [] {
      forall p | p in procs ensures !MatchesQuery(p, q) {
        assert p !in ms;
      }
    } else {
      assert ms[0] in ms;
      assert SearchDecision(lib, query).StartAt?;
    }
  }

  /** The matches of a concatenation are the matches of each part, in order. */
  lemma {:induction false} MatchingAppend(a: seq<Process>, b: seq<Process>, q: string)
    ensures Matching(a + b, q) == Matching(a, q) + Matching(b, q)
    decreases |b|
  {
    if b == [] {
      assert a + b == a;
    } else {
      var n := |b| - 1;
      assert (a + b)[..|a + b| - 1] == a + b[..n];
      assert (a + b)[|a + b| - 1] == b[n];
      MatchingAppend(a, b[..n], q);
    }
  }

  /** A matching process at index `i` splits the matches around it. */
  lemma MatchingAround(procs: seq<Process>, q: string, i: nat)
    requires i < |procs| && MatchesQuery(procs[i], q)
    ensures Matching(procs, q) == Matching(procs[..i], q) + [procs[i]] + Matching(procs[i + 1..], q)
  {
    assert procs == procs[..i] + [procs[i]] + procs[i + 1..];
    MatchingAppend(procs[..i] + [procs[i]], procs[i + 1..], q);
    MatchingAppend(procs[..i], [procs[i]], q);
    assert Matching([procs[i]], q) == [procs[i]] by {
      assert [procs[i]][..0] == [];
    }
  }

  /** A prefix in which nothing matches contributes no match. */
  lemma {:induction false} MatchingEmpty(a: seq<Process>, q: string)
    requires forall j :: 0 <= j < |a| ==> !MatchesQuery(a[j], q)
    ensures Matching(a, q) == []
    decreases |a|
  {
    if a != [] {
      var n := |a| - 1;
      assert forall j :: 0 <= j < n ==> a[..n][j] == a[j];
      MatchingEmpty(a[..n], q);
    }
  }

  /** `find` skips a prefix that fails the test and stops at an element that passes. */
  lemma FirstAfter<T>(a: seq<T>, x: T, b: seq<T>, f: T -> bool)
    requires forall y :: y in a ==> !f(y)
    requires f(x)
    ensures First(a + [x] + b, f) == Some(x)
  {
    var xs := a + [x] + b;
    assert xs[|a|] == x;
    forall j | 0 <= j < |a| ensures !f(xs[j]) {
      assert xs[j] == a[j] && a[j] in a;
    }
  }

  /** Without main process 100000, the first matching main process is started. */
  lemma SearchStartsFirstMain(lib: Option<LibraryData>, query: string, i: nat)
    requires lib.Some? && Trim(query) != ""
    requires First(lib.value.processes, IsPreferredMain).None?
    requires FirstMatchingMain(lib.value.processes, Lower(query), i)
    ensures SearchDecision(lib, query) == StartAt(lib.value.processes[i].id)
  {
    var procs, q := lib.value.processes, Lower(query);
    MatchingAround(procs, q, i);
    var before := Matching(procs[..i], q);
    forall y | y in before ensures !IsMainKind(y) {
      var j :| 0 <= j < i && procs[..i][j] == y;
      assert procs[j] == y;
    }
    FirstAfter(before, procs[i], Matching(procs[i + 1..], q), IsMainKind);
  }

  /** Without main process 100000 and with no matching main process, the
      first match is started. */
  lemma SearchStartsFirstMatch(lib: Option<LibraryData>, query: string, i: nat)
    requires lib.Some? && Trim(query) != ""
    requires First(lib.value.processes, IsPreferredMain).None?
    requires forall p :: p in lib.value.processes && MatchesQuery(p, Lower(query)) ==> !IsMainKind(p)
    requires FirstMatch(lib.value.processes, Lower(query), i)
    ensures SearchDecision(lib, query) == StartAt(lib.value.processes[i].id)
  {
    var procs, q := lib.value.processes, Lower(query);
    MatchingAround(procs, q, i);
    MatchingEmpty(procs[..i], q);
    var ms := Matching(procs, q);
    assert ms[0] == procs[i];
    forall k | 0 <= k < |ms| ensures !IsMainKind(ms[k]) {
      assert ms[k] in ms;
    }
  }

  /** A started process is a library process, so `startFromProcess` finds it. */
  lemma SearchStartsKnown(lib: Option<LibraryData>, query: string)
    requires SearchDecision(lib, query).StartAt?
    ensures lib.Some? && FindProcess(lib.value.processes, SearchDecision(lib, query).pid).Some?
  {
    var procs := lib.value.processes;
    var pid := SearchDecision(lib, query).pid;
    match First(procs, IsPreferredMain)
    case Some(m) =>
      FirstIn(procs, IsPreferredMain);
      var i :| 0 <= i < |procs| && procs[i] == m;
      assert procs[i].id == pid;
    case None =>
      var ms := Matching(procs, Lower(query));
      var h := First(ms, IsMainKind);
      var x := if h.Some? then h.value else ms[0];
      if h.Some? { FirstIn(ms, IsMainKind); } else { assert ms[0] in ms; }
      assert x in procs && x.id == pid;
      var i :| 0 <= i < |procs| && procs[i] == x;
      assert procs[i].id == pid;
  }

  /** The first match is an element that satisfies the test. */
  lemma FirstIn<T>(xs: seq<T>, f: T -> bool)
    requires First(xs, f).Some?
    ensures First(xs, f).value in xs && f(First(xs, f).value)
  {
  }

  /** An element that satisfies the test means there is a first match. */
  lemma FirstFinds<T>(xs: seq<T>, f: T -> bool, x: T)
    requires x in xs && f(x)
    ensures First(xs, f).Some?
  {
    var i :| 0 <= i < |xs| && xs[i] == x;
    assert f(xs[i]);
  }
}
