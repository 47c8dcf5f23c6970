/** The session store of src/store/useFlowchartStore.ts as a class whose
    fields are the store's state. Every action that `set`s state is a method
    whose postcondition gives the new state as a function of module StoreSpec
    applied to the old one; the loops of `expandNode` and `toggleNode` are
    read-only methods proved against those functions. */
module FlowchartStore {
  import opened Types
  import opened Text
  import opened StoreSpec
  import Assistant
  import DependencyParser
  import Upsert

  datatype ViewMode = Flowchart | MindMap

  // ---------------------------------------------------------------------
  // The loops, against their specifications

  /** The push loops of `expandNode`: a reveal adds its node when the id was not
      displayed and its edge when the key was not displayed. */
  method ComputeExpansion(rs: seq<Reveal>, shown: set<string>, keys: set<string>)
    returns (newNodes: seq<ChartNode>, newEdges: seq<ChartEdge>)
    ensures newNodes == NewNodes(rs, shown) && newEdges == NewEdges(rs, keys)
  {
    newNodes, newEdges := [], [];
    var i := 0;
    while i < |rs|
      invariant 0 <= i <= |rs|
      invariant newNodes == NewNodes(rs[..i], shown) && newEdges == NewEdges(rs[..i], keys)
    {
      assert rs[..i + 1][..i] == rs[..i];
      var cn := rs[i].node;
      if cn.id !in shown {
        newNodes := newNodes + [cn];
      }
      var e := rs[i].edge;
      if EdgeKey(e) !in keys {
        newEdges := newEdges + [e];
      }
      i := i + 1;
    }
    assert rs[..i] == rs;
  }

  /** The targets of the edges leaving `k`, in edge order: `childrenByFrom.get(k) ?? []`. */
  function ChildrenOf(edges: seq<ChartEdge>, k: string): (r: seq<string>)
    ensures forall x :: x in r <==> x in Succ(edges, {k})
  {
    if edges == [] then []
    else
      var init := edges[..|edges| - 1];
      var e := edges[|edges| - 1];
      var rest := ChildrenOf(init, k);
      assert edges == init + [e];
      assert forall x :: x in Succ(edges, {k}) <==> x in Succ(init, {k}) || (e.from == k && e.to == x);
      if e.from == k then rest + [e.to] else rest
  }

  /** The `childrenByFrom` loop. */
  method ChildrenMap(edges: seq<ChartEdge>) returns (m: map<string, seq<string>>)
    ensures forall k :: (if k in m then m[k] else []) == ChildrenOf(edges, k)
  {
    m := map[];
    var i := 0;
    while i < |edges|
      invariant 0 <= i <= |edges|
      invariant forall k :: (if k in m then m[k] else []) == ChildrenOf(edges[..i], k)
    {
      var e := edges[i];
      assert edges[..i + 1][..i] == edges[..i];
      if e.from !in m {
        m := m[e.from := []];
      }
      m := m[e.from := m[e.from] + [e.to]];
      i := i + 1;
    }
    assert edges[..i] == edges;
  }

  /** `Succ` distributes over union. */
  lemma SuccUnion(edges: seq<ChartEdge>, a: set<string>, b: set<string>)
    ensures Succ(edges, a + b) == Succ(edges, a) + Succ(edges, b)
  {
    forall x | x in Succ(edges, a + b) ensures x in Succ(edges, a) + Succ(edges, b) {
      var e :| e in edges && e.from in a + b && e.to == x;
    }
  }

  lemma SuccMono(edges: seq<ChartEdge>, a: set<string>, b: set<string>)
    requires a <= b
    ensures Succ(edges, a) <= Succ(edges, b)
  {
  }

  /** One visit of the removal loop keeps its invariants and shrinks what is
      left to remove. */
  lemma BfsVisit(edges: seq<ChartEdge>, id: string, d: set<string>, before: set<string>,
                 rest: seq<string>, cur: string, nexts: seq<string>)
    requires d == Descendants(edges, id)
    requires before <= d && cur in d && cur !in before
    requires forall x :: x in nexts <==> x in Succ(edges, {cur})
    requires forall j :: 0 <= j < |rest| ==> rest[j] in d
    requires forall x :: x in Succ(edges, {id}) ==> x in before || x == cur || x in rest
    requires forall x :: x in Succ(edges, before) ==> x in before || x == cur || x in rest
    ensures var after, queue := before + {cur}, rest + nexts;
            && after <= d
            && (forall j :: 0 <= j < |queue| ==> queue[j] in d)
            && (forall x :: x in Succ(edges, {id}) ==> x in after || x in queue)
            && (forall x :: x in Succ(edges, after) ==> x in after || x in queue)
            && |d - after| < |d - before|
  {
    var after, queue := before + {cur}, rest + nexts;
    SuccMono(edges, {cur}, d);
    SuccUnion(edges, before, {cur});
    forall j | 0 <= j < |queue| ensures queue[j] in d {
      if j >= |rest| {
        assert queue[j] == nexts[j - |rest|];
        assert queue[j] in Succ(edges, d);
      }
    }
    assert d - after == (d - before) - {cur};
  }

  /** What the removal loop keeps: the removal set and the queue lie inside the
      descendants, and every child of `id` or of a removed node is removed or queued. */
  ghost predicate BfsInv(edges: seq<ChartEdge>, id: string, d: set<string>, toRemove: set<string>, queue: seq<string>)
  {
    && toRemove <= d
    && (forall j :: 0 <= j < |queue| ==> queue[j] in d)
    && (forall x :: x in Succ(edges, {id}) ==> x in toRemove || x in queue)
    && (forall x :: x in Succ(edges, toRemove) ==> x in toRemove || x in queue)
  }

  /** One turn of the removal loop: take the head of the queue and, unless it
      is already removed, remove it and queue its children. */
  method VisitHead(children: map<string, seq<string>>, edges: seq<ChartEdge>, id: string, ghost d: set<string>,
                   toRemove: set<string>, queue: seq<string>)
    returns (toRemove': set<string>, queue': seq<string>)
    requires |queue| > 0 && d == Descendants(edges, id)
    requires forall k :: (if k in children then children[k] else []) == ChildrenOf(edges, k)
    requires BfsInv(edges, id, d, toRemove, queue)
    ensures BfsInv(edges, id, d, toRemove', queue')
    ensures |d - toRemove'| < |d - toRemove| || (toRemove' == toRemove && |queue'| < |queue|)
  {
    var cur := queue[0];
    assert forall x :: x in queue ==> x == cur || x in queue[1..];
    assert forall j :: 0 <= j < |queue| - 1 ==> queue[1..][j] == queue[j + 1];
    var rest := queue[1..];
    if cur in toRemove {
      return toRemove, rest;
    }
    var nexts := if cur in children then children[cur] else [];
    assert nexts == ChildrenOf(edges, cur);
    BfsVisit(edges, id, d, toRemove, rest, cur, nexts);
    toRemove', queue' := toRemove + {cur}, rest + nexts;
  }

  /** The breadth-first removal loop of `toggleNode`: the removal set is
      exactly the descendants of `id`. */
  method CollectDescendants(edges: seq<ChartEdge>, id: string) returns (toRemove: set<string>)
    ensures toRemove == Descendants(edges, id)
  {
    var children := ChildrenMap(edges);
    ghost var d := Descendants(edges, id);
    var queue := if id in children then children[id] else [];
    BfsStart(edges, id, d, queue);
    toRemove := {};
    while |queue| > 0
      invariant BfsInv(edges, id, d, toRemove, queue)
      decreases |d - toRemove|, |queue|
    {
      toRemove, queue := VisitHead(children, edges, id, d, toRemove, queue);
    }
    BfsDone(edges, id, d, toRemove);
  }

  /** The children of `id` start the removal loop with nothing removed. */
  lemma BfsStart(edges: seq<ChartEdge>, id: string, d: set<string>, queue: seq<string>)
    requires d == Descendants(edges, id) && queue == ChildrenOf(edges, id)
    ensures BfsInv(edges, id, d, {}, queue)
  {
    assert Succ(edges, {id}) <= d;
    forall j | 0 <= j < |queue| ensures queue[j] in d {
      assert queue[j] in queue;
    }
  }

  /** With the queue empty, the removal set is all the descendants. */
  lemma BfsDone(edges: seq<ChartEdge>, id: string, d: set<string>, toRemove: set<string>)
    requires d == Descendants(edges, id) && BfsInv(edges, id, d, toRemove, [])
    ensures toRemove == d
  {
    ClosureLeast(edges, Succ(edges, {id}), toRemove);
  }

  /** The first process with a settled id: `processes.find(p => p.id === id)!`. */
  function Lookup(ps: seq<Process>, pid: string): (p: Process)
    requires Upsert.IndexOfId(ps, pid).Some?
    ensures p in ps && p.id == pid
  {
    ps[Upsert.IndexOfId(ps, pid).value]
  }

  /** The main process and every sub-process of an upsertion can be found. */
  ghost predicate Found(u: Upsert.Upsertion)
  {
    && Upsert.IndexOfId(u.lib.processes, u.mainId).Some?
    && forall i :: 0 <= i < |u.subIds| ==> Upsert.IndexOfId(u.lib.processes, u.subIds[i]).Some?
  }

  /** After an upsert the main process and every sub-process can be found. */
  lemma UpsertedFound(lib: LibraryData, table: DependencyPayload)
    ensures Found(Upsert.Upserted(lib, table, Upsert.Nullish))
  {
    var u := Upsert.Upserted(lib, table, Upsert.Nullish);
    Upsert.UpsertedProperties(lib, table, Upsert.Nullish);
    forall i | 0 <= i < |u.subIds| ensures Upsert.IndexOfId(u.lib.processes, u.subIds[i]).Some? {
      assert Upsert.Settled(u.lib.processes, u.subIds[i], table.subs[i].name);
    }
  }

  /** One node per id, each showing the first process with that id. */
  function SubNodes(ps: seq<Process>, sids: seq<string>): (r: seq<ChartNode>)
    requires forall i :: 0 <= i < |sids| ==> Upsert.IndexOfId(ps, sids[i]).Some?
    ensures |r| == |sids|
    ensures forall i :: 0 <= i < |r| ==> r[i] == ProcessNode(Lookup(ps, sids[i]))
  {
    if |sids| == 0 then [] else SubNodes(ps, sids[..|sids| - 1]) + [ProcessNode(Lookup(ps, sids[|sids| - 1]))]
  }

  /** One `contains` edge from `mainId` to each id. */
  function ContainsEdges(mainId: string, sids: seq<string>): (r: seq<ChartEdge>)
    ensures |r| == |sids|
    ensures forall i :: 0 <= i < |r| ==> r[i] == Upsert.ContainsLink(mainId, sids[i])
  {
    if |sids| == 0 then [] else ContainsEdges(mainId, sids[..|sids| - 1]) + [Upsert.ContainsLink(mainId, sids[|sids| - 1])]
  }

  /** The view of an upsertion: the main process, then one node per sub id,
      with one `contains` edge from the main process to each. */
  function ViewOf(u: Upsert.Upsertion): (r: Display)
    requires Found(u)
    ensures |r.nodes| == |u.subIds| + 1 && r.nodes[0].id == u.mainId
  {
    Display([ProcessNode(Lookup(u.lib.processes, u.mainId))] + SubNodes(u.lib.processes, u.subIds),
            ContainsEdges(u.mainId, u.subIds))
  }

  /** Node `i + 1` is sub-process `i` and edge `i` joins the main process to it. */
  lemma ViewOfShape(u: Upsert.Upsertion)
    requires Found(u)
    ensures |ViewOf(u).edges| == |u.subIds|
    ensures forall i :: 0 <= i < |u.subIds| ==> ViewOf(u).nodes[i + 1].id == u.subIds[i]
    ensures forall i :: 0 <= i < |u.subIds| ==> ViewOf(u).edges[i] == Upsert.ContainsLink(u.mainId, u.subIds[i])
  {
    var sub := SubNodes(u.lib.processes, u.subIds);
    assert ViewOf(u).nodes == [ProcessNode(Lookup(u.lib.processes, u.mainId))] + sub;
    forall i | 0 <= i < |u.subIds| ensures ViewOf(u).nodes[i + 1].id == u.subIds[i] {
      assert ViewOf(u).nodes[i + 1] == sub[i];
    }
  }

  /** Every node of the view shows a process of the library. */
  lemma ViewOfShowsLibrary(u: Upsert.Upsertion)
    requires Found(u)
    ensures forall i :: 0 <= i < |ViewOf(u).nodes| ==> exists p :: p in u.lib.processes && ViewOf(u).nodes[i] == ProcessNode(p)
  {
    var r := ViewOf(u);
    forall i | 0 <= i < |r.nodes| ensures exists p :: p in u.lib.processes && r.nodes[i] == ProcessNode(p) {
      var p := if i == 0 then Lookup(u.lib.processes, u.mainId) else Lookup(u.lib.processes, u.subIds[i - 1]);
      assert r.nodes[i] == ProcessNode(p);
    }
  }

  /** The view joins displayed nodes only. */
  lemma ViewOfConsistent(u: Upsert.Upsertion)
    requires Found(u)
    ensures var r := ViewOf(u); EdgesWithinNodes(r.nodes, r.edges)
  {
    var r := ViewOf(u);
    ViewOfShape(u);
    forall e | e in r.edges ensures e.from in NodeIds(r.nodes) && e.to in NodeIds(r.nodes) {
      var i :| 0 <= i < |r.edges| && r.edges[i] == e;
      assert r.nodes[0].id == e.from;
      assert r.nodes[i + 1].id == e.to;
    }
  }

  /** The view shown after importing `table` into `lib`. */
  function ImportView(lib: LibraryData, table: DependencyPayload): (r: Display)
    ensures |r.nodes| == |table.subs| + 1 && r.nodes[0].id == Upsert.Upserted(lib, table, Upsert.Nullish).mainId
  {
    UpsertedFound(lib, table);
    ViewOf(Upsert.Upserted(lib, table, Upsert.Nullish))
  }

  /** The library part and the view part of an import. */
  method ImportTable(lib: LibraryData, table: DependencyPayload) returns (u: Upsert.Upsertion, view: Display)
    ensures u == Upsert.Upserted(lib, table, Upsert.Nullish) && view == ImportView(lib, table)
  {
    u := Upsert.UpsertDependencies(lib, table, Upsert.Nullish);
    view := ImportView(lib, table);
  }

  // ---------------------------------------------------------------------
  // The store

  class Store {
    var library: Option<LibraryData>
    var nodes: seq<ChartNode>
    var edges: seq<ChartEdge>
    var selectedNodeId: Option<string>
    var searchQuery: string
    var viewMode: ViewMode

    /** The displayed graph. */
    function Shown(): Display
      reads this
    {
      Display(nodes, edges)
    }

    /** Replaces the displayed nodes and edges. */
    method Show(d: Display)
      modifies this
      ensures Shown() == d
      ensures library == old(library) && selectedNodeId == old(selectedNodeId)
      ensures searchQuery == old(searchQuery) && viewMode == old(viewMode)
    {
      nodes, edges := d.nodes, d.edges;
    }

    /** Shows the result of an import: the new library, the view and the main process selected, in the flowchart. */
    method Install(newLibrary: LibraryData, view: Display, mainId: string)
      modifies this
      ensures library == Some(newLibrary) && Shown() == view
      ensures viewMode == Flowchart && selectedNodeId == Some(mainId)
      ensures searchQuery == old(searchQuery)
    {
      library, nodes, edges, viewMode, selectedNodeId := Some(newLibrary), view.nodes, view.edges, Flowchart, Some(mainId);
    }

    /** The initial state. */
    constructor()
      ensures library == None && nodes == [] && edges == [] && selectedNodeId == None
      ensures searchQuery == "" && viewMode == Flowchart
    {
      library := None;
      nodes := [];
      edges := [];
      selectedNodeId := None;
      searchQuery := "";
      viewMode := Flowchart;
    }

    /** `loadLibrary`. */
    method LoadLibrary(lib: LibraryData)
      modifies this
      ensures library == Some(lib)
      ensures nodes == old(nodes) && edges == old(edges) && selectedNodeId == old(selectedNodeId)
      ensures searchQuery == old(searchQuery) && viewMode == old(viewMode)
    {
      library := Some(lib);
    }

    /** `reset`: the display is cleared; library, query and view stay. */
    method Reset()
      modifies this
      ensures nodes == [] && edges == [] && selectedNodeId == None
      ensures library == old(library) && searchQuery == old(searchQuery) && viewMode == old(viewMode)
    {
      nodes, edges, selectedNodeId := [], [], None;
    }

    /** `setSearchQuery`. */
    method SetSearchQuery(q: string)
      modifies this
      ensures searchQuery == q
      ensures library == old(library) && nodes == old(nodes) && edges == old(edges)
      ensures selectedNodeId == old(selectedNodeId) && viewMode == old(viewMode)
    {
      searchQuery := q;
    }

    /** `selectNode`. */
    method SelectNode(id: Option<string>)
      modifies this
      ensures selectedNodeId == id
      ensures library == old(library) && nodes == old(nodes) && edges == old(edges)
      ensures searchQuery == old(searchQuery) && viewMode == old(viewMode)
    {
      selectedNodeId := id;
    }

    /** `setViewMode`. */
    method SetViewMode(mode: ViewMode)
      modifies this
      ensures viewMode == mode
      ensures library == old(library) && nodes == old(nodes) && edges == old(edges)
      ensures selectedNodeId == old(selectedNodeId) && searchQuery == old(searchQuery)
    {
      viewMode := mode;
    }

    /** `setProblem`: with a library, the display becomes the problem node and
      its suggestions, and the problem node is selected. */
    method SetProblem(problem: string, classes: seq<string>)
      modifies this
      ensures old(library).None? ==> Shown() == old(Shown()) && selectedNodeId == old(selectedNodeId)
      ensures old(library).Some? ==>
                Shown() == ProblemDisplay(problem, classes, old(library).value) && selectedNodeId == Some(ProblemId(problem))
      ensures library == old(library) && searchQuery == old(searchQuery) && viewMode == old(viewMode)
    {
      if library.None? {
        return;
      }
      var lib := library.value;
      var prob := ChartNode(ProblemId(problem), problem, Problem, None, None, None, None);
      var suggestions := Assistant.SuggestProcesses(problem, classes, lib);
      var ns := ProcessNodes(suggestions);
      nodes, edges := [prob] + ns, SolvedByEdges(prob.id, ns);
      selectedNodeId := Some(prob.id);
    }

    /** `expandNode`. */
    method ExpandNode(id: string)
      modifies this
      ensures Shown() == Expanded(old(library), old(Shown()), id)
      ensures library == old(library) && selectedNodeId == old(selectedNodeId)
      ensures searchQuery == old(searchQuery) && viewMode == old(viewMode)
    {
      if library.None? {
        return;
      }
      var node := FindNode(nodes, id);
      if node.None? {
        return;
      }
      var rs := Reveals(library.value, node.value, id);
      var newNodes, newEdges := ComputeExpansion(rs, NodeIds(nodes), EdgeKeys(edges));
      if |newNodes| > 0 || |newEdges| > 0 {
        Show(Display(nodes + newNodes, edges + newEdges));
      }
    }

    /** `toggleNode`: expand when no displayed edge leaves the id, otherwise remove its descendants. */
    method ToggleNode(id: string)
      modifies this
      ensures Shown() == Toggled(old(library), old(Shown()), id)
      ensures library == old(library) && selectedNodeId == old(selectedNodeId)
      ensures searchQuery == old(searchQuery) && viewMode == old(viewMode)
    {
      if !HasOutgoing(edges, id) {
        ExpandNode(id);
        return;
      }
      var toRemove := CollectDescendants(edges, id);
      if toRemove != {} {
        Show(Display(KeepNodes(nodes, toRemove), KeepEdges(edges, id, toRemove)));
      }
    }

    /** `automate`. */
    method Automate()
      modifies this
      ensures Shown() == Automated(old(library), old(Shown()))
      ensures library == old(library) && selectedNodeId == old(selectedNodeId)
      ensures searchQuery == old(searchQuery) && viewMode == old(viewMode)
    {
      if library.None? {
        return;
      }
      var root := First(nodes, IsProblemNode);
      if root.None? {
        return;
      }
      var s := Assistant.SuggestProcesses(root.value.name, FrequentClasses, library.value);
      var added := KeepNodes(ProcessNodes(s), NodeIds(nodes));
      var newEdges := SolvedByEdges(root.value.id, added);
      if |added| > 0 || |newEdges| > 0 {
        Show(Display(nodes + added, edges + newEdges));
      }
    }

    /** `startFromProcess`: a known process becomes the only node, selected, in
      the flowchart view, and is then expanded. */
    method StartFromProcess(pid: string)
      modifies this
      ensures Shown() == StartedFrom(old(library), old(Shown()), pid)
      ensures old(library).Some? && FindProcess(old(library).value.processes, pid).Some? ==>
                selectedNodeId == Some(pid) && viewMode == Flowchart
      ensures !(old(library).Some? && FindProcess(old(library).value.processes, pid).Some?) ==>
                selectedNodeId == old(selectedNodeId) && viewMode == old(viewMode)
      ensures library == old(library) && searchQuery == old(searchQuery)
    {
      if library.None? {
        return;
      }
      var p := FindProcess(library.value.processes, pid);
      if p.None? {
        return;
      }
      ghost var before := Shown();
      var start := ProcessNode(p.value);
      nodes, edges, selectedNodeId, viewMode := [start], [], Some(start.id), Flowchart;
      assert StartedFrom(library, before, pid) == Expanded(library, Shown(), pid);
      ExpandNode(pid);
    }

    /** `searchAndStartProcess`: carry out the choice of StoreSpec.SearchDecision. */
    method SearchAndStartProcess(query: string)
      modifies this
      ensures match SearchDecision(old(library), query)
              case Ignore => Shown() == old(Shown())
              case StartAt(pid) => Shown() == StartedFrom(old(library), old(Shown()), pid)
              case AskProblem(q) => Shown() == ProblemDisplay(q, FrequentClasses, old(library).value)
      ensures match SearchDecision(old(library), query)
              case Ignore => selectedNodeId == old(selectedNodeId) && viewMode == old(viewMode)
              case StartAt(pid) => selectedNodeId == Some(pid) && viewMode == Flowchart
              case AskProblem(q) => selectedNodeId == Some(ProblemId(q)) && viewMode == old(viewMode)
      ensures library == old(library) && searchQuery == old(searchQuery)
    {
      var choice := SearchDecision(library, query);
      match choice
      case Ignore =>
      case StartAt(pid) =>
        SearchStartsKnown(library, query);
        StartFromProcess(pid);
      case AskProblem(q) =>
        SetProblem(q, FrequentClasses);
    }

    /** A parsed table is written into the library (an absent one reads as
        empty) with the `??` rule, and the flowchart view shows the main
        process and its subs, the main process selected. */
    method ImportParsed(table: DependencyPayload)
      modifies this
      ensures var lib := if old(library).Some? then old(library).value else EmptyLibrary;
              && library == Some(Upsert.Upserted(lib, table, Upsert.Nullish).lib)
              && Shown() == ImportView(lib, table)
              && viewMode == Flowchart && selectedNodeId == Some(Upsert.Upserted(lib, table, Upsert.Nullish).mainId)
      ensures searchQuery == old(searchQuery)
    {
      var lib := if library.Some? then library.value else EmptyLibrary;
      var u := Upsert.UpsertDependencies(lib, table, Upsert.Nullish);
      UpsertedFound(lib, table);
      var view := ViewOf(u);
      Install(u.lib, view, u.mainId);
    }

    /** `importDependencies`, without the request to the backend: a text
        without a kept line changes nothing, any other is imported. */
    method ImportDependencies(text: string)
      modifies this
      ensures DependencyParser.ParseDependencyTable(text).None? ==>
                library == old(library) && Shown() == old(Shown()) && viewMode == old(viewMode)
                && selectedNodeId == old(selectedNodeId)
      ensures DependencyParser.ParseDependencyTable(text).Some? ==>
                var lib := if old(library).Some? then old(library).value else EmptyLibrary;
                var table := DependencyParser.ParseDependencyTable(text).value;
                && library == Some(Upsert.Upserted(lib, table, Upsert.Nullish).lib)
                && Shown() == ImportView(lib, table)
                && viewMode == Flowchart && selectedNodeId == Some(Upsert.Upserted(lib, table, Upsert.Nullish).mainId)
      ensures searchQuery == old(searchQuery)
    {
      var table := DependencyParser.ParseDependencyTable(text);
      if table.Some? {
        ImportParsed(table.value);
      }
    }
  }
}
