/** `buildMindMapFromLibrary` of src/utils/parsers.ts: the mind-map graph of a
    library. Every node the builder pushes is pushed together with the one
    `contains` edge that hangs it under a node pushed before it, so the graph
    is a tree rooted at the catalogue node. */
module LibraryMindMap {
  import opened Types
  import opened Text
  import opened Grouping

  /** The two arrays the builder fills. */
  datatype Chart = Chart(nodes: seq<ChartNode>, edges: seq<ChartEdge>)

  /** A node with no optional fields. */
  function Leaf(id: string, name: string, t: NodeType): ChartNode
  {
    ChartNode(id, name, t, None, None, None, None)
  }

  function Link(from: string, to: string): ChartEdge
  {
    ChartEdge(from, to, Contains)
  }

  /** Push `n` and the `contains` edge from `parent` to it. */
  function Attach(c: Chart, parent: string, n: ChartNode): Chart
  {
    Chart(c.nodes + [n], c.edges + [Link(parent, n.id)])
  }

  // ----- The tree shape -----

  /** Some node before position `k` has id `id`. */
  ghost predicate ParentBefore(nodes: seq<ChartNode>, id: string, k: int)
  {
    exists j :: 0 <= j < k && j < |nodes| && nodes[j].id == id
  }

  ghost predicate HasNode(c: Chart, id: string)
  {
    ParentBefore(c.nodes, id, |c.nodes|)
  }

  /** Edge `i` is a `contains` edge into node `i + 1` from a node before it;
      there is one edge fewer than nodes. */
  ghost predicate Tree(c: Chart)
  {
    && |c.edges| + 1 == |c.nodes|
    && forall i :: 0 <= i < |c.edges| ==>
         && c.edges[i].to == c.nodes[i + 1].id
         && c.edges[i].edgeType == Contains
         && ParentBefore(c.nodes, c.edges[i].from, i + 1)
  }

  /** `r` extends `c`: what was pushed stays where it was. */
  ghost predicate Extends(r: Chart, c: Chart)
  {
    c.nodes <= r.nodes && c.edges <= r.edges
  }

  lemma ParentBeforeGrows(nodes: seq<ChartNode>, more: seq<ChartNode>, id: string, k: int)
    requires ParentBefore(nodes, id, k)
    ensures ParentBefore(nodes + more, id, k)
  {
    var j :| 0 <= j < k && j < |nodes| && nodes[j].id == id;
    assert (nodes + more)[j] == nodes[j];
  }

  lemma HasNodeKept(c: Chart, r: Chart, id: string)
    requires Extends(r, c) && HasNode(c, id)
    ensures HasNode(r, id)
  {
    var j :| 0 <= j < |c.nodes| && c.nodes[j].id == id;
    assert r.nodes[j] == c.nodes[j];
  }

  /** Hanging a node under a present node keeps the tree shape. */
  lemma AttachTree(c: Chart, parent: string, n: ChartNode)
    requires Tree(c) && HasNode(c, parent)
    ensures var r := Attach(c, parent, n);
            Tree(r) && Extends(r, c) && HasNode(r, n.id) && HasNode(r, parent)
  {
    var r := Attach(c, parent, n);
    forall i | 0 <= i < |r.edges|
      ensures && r.edges[i].to == r.nodes[i + 1].id
              && r.edges[i].edgeType == Contains
              && ParentBefore(r.nodes, r.edges[i].from, i + 1)
    {
      if i < |c.edges| {
        assert r.edges[i] == c.edges[i] && r.nodes[i + 1] == c.nodes[i + 1];
        ParentBeforeGrows(c.nodes, [n], c.edges[i].from, i + 1);
      } else {
        ParentBeforeGrows(c.nodes, [n], parent, |c.nodes|);
      }
    }
    assert r.nodes[|c.nodes|] == n;
    ParentBeforeGrows(c.nodes, [n], parent, |c.nodes|);
  }

  /** In a tree whose ids are distinct, nothing enters the root and exactly
      one edge enters every other node. */
  lemma TreeIncoming(c: Chart, k: nat)
    requires Tree(c) && k < |c.nodes|
    requires forall i, j :: 0 <= i < j < |c.nodes| ==> c.nodes[i].id != c.nodes[j].id
    ensures k == 0 ==> forall i :: 0 <= i < |c.edges| ==> c.edges[i].to != c.nodes[k].id
    ensures k > 0 ==> c.edges[k - 1].to == c.nodes[k].id
                      && forall i :: 0 <= i < |c.edges| && c.edges[i].to == c.nodes[k].id ==> i == k - 1
  {
    forall i | 0 <= i < |c.edges| && c.edges[i].to == c.nodes[k].id ensures i + 1 == k {
      assert c.nodes[i + 1].id == c.nodes[k].id;
    }
  }

  // ----- The fixed skeleton -----

  /** The root and the five categories under it, then Main and Sub under Processes. */
  function Skeleton(): Chart
  {
    var c0 := Chart([Leaf("root", "Process and Component Catalogue for Automation", Category)], []);
    var c1 := Attach(c0, "root", Leaf("cat:processes", "Processes", Category));
    var c2 := Attach(c1, "root", Leaf("cat:modular", "Baukasten (Modular System)", Category));
    var c3 := Attach(c2, "root", Leaf("cat:types", "Process Types", Category));
    var c4 := Attach(c3, "root", Leaf("cat:storage", "Storage Locations", Category));
    var c5 := Attach(c4, "root", Leaf("cat:notes", "Notes/Hints", Category));
    var c6 := Attach(c5, "cat:processes", Leaf("cat:main", "Main Processes", Category));
    Attach(c6, "cat:processes", Leaf("cat:sub", "Sub-Processes", Category))
  }

  /** The skeleton is a tree. */
  lemma SkeletonTree()
    ensures Tree(Skeleton())
  {
    var c0 := Chart([Leaf("root", "Process and Component Catalogue for Automation", Category)], []);
    assert c0.nodes[0].id == "root";
    assert HasNode(c0, "root");
    var c1 := Attach(c0, "root", Leaf("cat:processes", "Processes", Category));
    AttachTree(c0, "root", Leaf("cat:processes", "Processes", Category));
    var c2 := Attach(c1, "root", Leaf("cat:modular", "Baukasten (Modular System)", Category));
    AttachTree(c1, "root", Leaf("cat:modular", "Baukasten (Modular System)", Category));
    var c3 := Attach(c2, "root", Leaf("cat:types", "Process Types", Category));
    AttachTree(c2, "root", Leaf("cat:types", "Process Types", Category));
    var c4 := Attach(c3, "root", Leaf("cat:storage", "Storage Locations", Category));
    AttachTree(c3, "root", Leaf("cat:storage", "Storage Locations", Category));
    var c5 := Attach(c4, "root", Leaf("cat:notes", "Notes/Hints", Category));
    AttachTree(c4, "root", Leaf("cat:notes", "Notes/Hints", Category));
    HasNodeKept(c1, c5, "cat:processes");
    var c6 := Attach(c5, "cat:processes", Leaf("cat:main", "Main Processes", Category));
    AttachTree(c5, "cat:processes", Leaf("cat:main", "Main Processes", Category));
    var c7 := Attach(c6, "cat:processes", Leaf("cat:sub", "Sub-Processes", Category));
    AttachTree(c6, "cat:processes", Leaf("cat:sub", "Sub-Processes", Category));
    assert c7 == Skeleton();
  }

  // ----- Processes -----

  /** `proc:<id>`, typed by the process kind. */
  function ProcessNode(p: Process): ChartNode
  {
    Leaf("proc:" + p.id, p.name, if p.kind == Hauptprozess then MainProcess else PartialProcess)
  }

  /** The green `tail:<id>` child showing the process id. */
  function TailNode(p: Process): ChartNode
  {
    Leaf("tail:" + p.id, "Process ID: " + p.id, Category)
  }

  /** Main processes hang under Main, all others under Sub. */
  function ProcessParent(p: Process): string
  {
    if p.kind == Hauptprozess then "cat:main" else "cat:sub"
  }

  /** Each process in turn: its node under Main or Sub, and its tail under it. */
  function ProcessesPart(c: Chart, ps: seq<Process>): (r: Chart)
    ensures |r.nodes| == |c.nodes| + 2 * |ps| && |r.edges| == |c.edges| + 2 * |ps|
    ensures c.nodes <= r.nodes && c.edges <= r.edges
  {
    if ps == [] then c
    else
      var p := ps[|ps| - 1];
      var prev := ProcessesPart(c, ps[..|ps| - 1]);
      Attach(Attach(prev, ProcessParent(p), ProcessNode(p)), "proc:" + p.id, TailNode(p))
  }

  lemma {:induction false} ProcessesTree(c: Chart, ps: seq<Process>)
    requires Tree(c) && HasNode(c, "cat:main") && HasNode(c, "cat:sub")
    ensures Tree(ProcessesPart(c, ps))
  {
    if ps != [] {
      var p := ps[|ps| - 1];
      var prev := ProcessesPart(c, ps[..|ps| - 1]);
      ProcessesTree(c, ps[..|ps| - 1]);
      HasNodeKept(c, prev, ProcessParent(p));
      AttachTree(prev, ProcessParent(p), ProcessNode(p));
      AttachTree(Attach(prev, ProcessParent(p), ProcessNode(p)), "proc:" + p.id, TailNode(p));
    }
  }

  /** Process `i` sits at nodes `|c| + 2i` and `|c| + 2i + 1`, with its two edges. */
  lemma {:induction false} ProcessesAt(c: Chart, ps: seq<Process>, i: nat)
    requires i < |ps|
    ensures var r := ProcessesPart(c, ps);
            && r.nodes[|c.nodes| + 2 * i] == ProcessNode(ps[i])
            && r.nodes[|c.nodes| + 2 * i + 1] == TailNode(ps[i])
            && r.edges[|c.edges| + 2 * i] == Link(ProcessParent(ps[i]), "proc:" + ps[i].id)
            && r.edges[|c.edges| + 2 * i + 1] == Link("proc:" + ps[i].id, "tail:" + ps[i].id)
  {
    var n := |ps| - 1;
    var p := ps[n];
    var prev := ProcessesPart(c, ps[..n]);
    var r := ProcessesPart(c, ps);
    assert r.nodes == prev.nodes + [ProcessNode(p)] + [TailNode(p)];
    assert r.edges == prev.edges + [Link(ProcessParent(p), "proc:" + p.id)] + [Link("proc:" + p.id, "tail:" + p.id)];
    if i < n {
      ProcessesAt(c, ps[..n], i);
      assert ps[..n][i] == ps[i];
    }
  }

  // ----- Building blocks -----

  /** The category of every block, in block order. */
  function CategoryKeys(bs: seq<BuildingBlock>): (r: seq<string>)
    ensures |r| == |bs| && forall i :: 0 <= i < |bs| ==> r[i] == bs[i].category
  {
    seq(|bs|, i requires 0 <= i < |bs| => bs[i].category)
  }

  /** `byCat`: the blocks grouped by category, categories in first-appearance order. */
  function BlockGroups(bs: seq<BuildingBlock>): (g: Groups<string, BuildingBlock>)
    ensures Valid(g)
  {
    Grouped(bs, CategoryKeys(bs))
  }

  function CategoryNode(cat: string): ChartNode
  {
    Leaf("bbcat:" + cat, cat, Category)
  }

  function BlockNode(b: BuildingBlock): ChartNode
  {
    Leaf("bb:" + b.id, b.name, BuildingBlockNode)
  }

  /** Each block in turn under `parent`. */
  function BlockLeaves(c: Chart, parent: string, bs: seq<BuildingBlock>): (r: Chart)
    ensures c.nodes <= r.nodes && c.edges <= r.edges
  {
    if bs == [] then c
    else Attach(BlockLeaves(c, parent, bs[..|bs| - 1]), parent, BlockNode(bs[|bs| - 1]))
  }

  /** Each category in turn: its node under the modular system, then its blocks under it. */
  function BlocksPart(c: Chart, order: seq<string>, members: map<string, seq<BuildingBlock>>): (r: Chart)
    requires forall i :: 0 <= i < |order| ==> order[i] in members
    ensures c.nodes <= r.nodes && c.edges <= r.edges
  {
    if order == [] then c
    else
      var cat := order[|order| - 1];
      var prev := BlocksPart(c, order[..|order| - 1], members);
      BlockLeaves(Attach(prev, "cat:modular", CategoryNode(cat)), "bbcat:" + cat, members[cat])
  }

  lemma {:induction false} BlockLeavesTree(c: Chart, parent: string, bs: seq<BuildingBlock>)
    requires Tree(c) && HasNode(c, parent)
    ensures Tree(BlockLeaves(c, parent, bs))
  {
    if bs != [] {
      var prev := BlockLeaves(c, parent, bs[..|bs| - 1]);
      BlockLeavesTree(c, parent, bs[..|bs| - 1]);
      HasNodeKept(c, prev, parent);
      AttachTree(prev, parent, BlockNode(bs[|bs| - 1]));
    }
  }

  lemma {:induction false} BlocksTree(c: Chart, order: seq<string>, members: map<string, seq<BuildingBlock>>)
    requires forall i :: 0 <= i < |order| ==> order[i] in members
    requires Tree(c) && HasNode(c, "cat:modular")
    ensures Tree(BlocksPart(c, order, members))
  {
    if order != [] {
      var cat := order[|order| - 1];
      var prev := BlocksPart(c, order[..|order| - 1], members);
      BlocksTree(c, order[..|order| - 1], members);
      HasNodeKept(c, prev, "cat:modular");
      AttachTree(prev, "cat:modular", CategoryNode(cat));
      BlockLeavesTree(Attach(prev, "cat:modular", CategoryNode(cat)), "bbcat:" + cat, members[cat]);
    }
  }

  lemma {:induction false} BlockLeavesHave(c: Chart, parent: string, bs: seq<BuildingBlock>, k: nat)
    requires k < |bs|
    ensures var r := BlockLeaves(c, parent, bs);
            BlockNode(bs[k]) in r.nodes && Link(parent, "bb:" + bs[k].id) in r.edges
  {
    var n := |bs| - 1;
    if k < n {
      BlockLeavesHave(c, parent, bs[..n], k);
    }
  }

  /** Every category gets a node under the modular system, and every block
      of it a node under that category's node. */
  lemma {:induction false} BlocksPartHave(c: Chart, order: seq<string>, members: map<string, seq<BuildingBlock>>, k: nat)
    requires forall i :: 0 <= i < |order| ==> order[i] in members
    requires k < |order|
    ensures var r := BlocksPart(c, order, members);
            && CategoryNode(order[k]) in r.nodes && Link("cat:modular", "bbcat:" + order[k]) in r.edges
            && forall b :: b in members[order[k]] ==>
                 BlockNode(b) in r.nodes && Link("bbcat:" + order[k], "bb:" + b.id) in r.edges
  {
    var n := |order| - 1;
    if k < n {
      assert order[..n][k] == order[k];
      BlocksPartHave(c, order[..n], members, k);
      BlocksPartGrows(c, order, members);
    } else {
      BlocksPartLast(c, order, members);
    }
  }

  /** Adding a category keeps what the earlier categories added. */
  lemma BlocksPartGrows(c: Chart, order: seq<string>, members: map<string, seq<BuildingBlock>>)
    requires forall i :: 0 <= i < |order| ==> order[i] in members
    requires |order| > 0
    ensures var prev := BlocksPart(c, order[..|order| - 1], members);
            var r := BlocksPart(c, order, members);
            prev.nodes <= r.nodes && prev.edges <= r.edges
  {
    var n := |order| - 1;
    var prev := BlocksPart(c, order[..n], members);
    var mid := Attach(prev, "cat:modular", CategoryNode(order[n]));
    assert mid.nodes <= BlocksPart(c, order, members).nodes;
  }

  /** The last category's node and its blocks' nodes are in the part. */
  lemma BlocksPartLast(c: Chart, order: seq<string>, members: map<string, seq<BuildingBlock>>)
    requires forall i :: 0 <= i < |order| ==> order[i] in members
    requires |order| > 0
    ensures var cat := order[|order| - 1];
            var r := BlocksPart(c, order, members);
            && CategoryNode(cat) in r.nodes && Link("cat:modular", "bbcat:" + cat) in r.edges
            && forall b :: b in members[cat] ==>
                 BlockNode(b) in r.nodes && Link("bbcat:" + cat, "bb:" + b.id) in r.edges
  {
    var n := |order| - 1;
    var cat := order[n];
    var prev := BlocksPart(c, order[..n], members);
    var mid := Attach(prev, "cat:modular", CategoryNode(cat));
    var r := BlocksPart(c, order, members);
    assert r == BlockLeaves(mid, "bbcat:" + cat, members[cat]);
    assert CategoryNode(cat) == mid.nodes[|mid.nodes| - 1];
    assert Link("cat:modular", "bbcat:" + cat) == mid.edges[|mid.edges| - 1];
    forall b | b in members[cat]
      ensures BlockNode(b) in r.nodes && Link("bbcat:" + cat, "bb:" + b.id) in r.edges
    {
      var j :| 0 <= j < |members[cat]| && members[cat][j] == b;
      BlockLeavesHave(mid, "bbcat:" + cat, members[cat], j);
    }
  }

  // ----- Catalogue leaves: process types and storage locations -----

  /** Each name in turn under `parent`, as a node `prefix + name`. */
  function LeavesPart(c: Chart, parent: string, prefix: string, names: seq<string>): (r: Chart)
    ensures c.nodes <= r.nodes && c.edges <= r.edges
    ensures |r.nodes| == |c.nodes| + |names|
  {
    if names == [] then c
    else
      var name := names[|names| - 1];
      Attach(LeavesPart(c, parent, prefix, names[..|names| - 1]), parent, Leaf(prefix + name, name, Category))
  }

  lemma {:induction false} LeavesTree(c: Chart, parent: string, prefix: string, names: seq<string>)
    requires Tree(c) && HasNode(c, parent)
    ensures Tree(LeavesPart(c, parent, prefix, names))
  {
    if names != [] {
      var name := names[|names| - 1];
      var prev := LeavesPart(c, parent, prefix, names[..|names| - 1]);
      LeavesTree(c, parent, prefix, names[..|names| - 1]);
      HasNodeKept(c, prev, parent);
      AttachTree(prev, parent, Leaf(prefix + name, name, Category));
    }
  }

  /** Name `k` sits at node `|c| + k`, under `parent`. */
  lemma {:induction false} LeavesAt(c: Chart, parent: string, prefix: string, names: seq<string>, k: nat)
    requires k < |names|
    ensures var r := LeavesPart(c, parent, prefix, names);
            && r.nodes[|c.nodes| + k] == Leaf(prefix + names[k], names[k], Category)
            && Link(parent, prefix + names[k]) in r.edges
  {
    var n := |names| - 1;
    var prev := LeavesPart(c, parent, prefix, names[..n]);
    var r := LeavesPart(c, parent, prefix, names);
    if k < n {
      LeavesAt(c, parent, prefix, names[..n], k);
      assert r.nodes[|c.nodes| + k] == prev.nodes[|c.nodes| + k];
    } else {
      assert r.edges[|r.edges| - 1] == Link(parent, prefix + names[k]);
    }
  }

  /** Every class of every process (`merkmalsklassen ?? []`), in order. */
  function AllClasses(ps: seq<Process>): seq<string>
  {
    if ps == [] then [] else AllClasses(ps[..|ps| - 1]) + OrEmpty(ps[|ps| - 1].merkmalsklassen)
  }

  /** The `Set` of classes, in insertion order. */
  function ClassNames(ps: seq<Process>): seq<string>
  {
    Distinct(AllClasses(ps))
  }

  /** The keys of a record-valued storage location, in key order; a plain
      string has none. */
  function LocationKeys(loc: Option<Location>): (r: seq<string>)
    ensures loc.Some? && loc.value.Named? ==>
              |r| == |loc.value.entries| && forall i :: 0 <= i < |r| ==> r[i] == loc.value.entries[i].0
    ensures !(loc.Some? && loc.value.Named?) ==> r == []
  {
    if loc.Some? && loc.value.Named? then
      seq(|loc.value.entries|, i requires 0 <= i < |loc.value.entries| => loc.value.entries[i].0)
    else []
  }

  function AllStorageKeys(ps: seq<Process>): seq<string>
  {
    if ps == [] then [] else AllStorageKeys(ps[..|ps| - 1]) + LocationKeys(ps[|ps| - 1].ablageort)
  }

  const DefaultStorage: seq<string> := ["Constructive", "Control Technology", "Test Technology", "Robot Technology"]

  /** The storage leaves: the `Set` of location keys in insertion order, or
      the four defaults when there is none. */
  function StorageChildren(ps: seq<Process>): seq<string>
  {
    var keys := Distinct(AllStorageKeys(ps));
    if |keys| > 0 then keys else DefaultStorage
  }

  /** With no record-valued location the leaves are the four defaults;
      otherwise they are the location keys, each once. */
  lemma StorageChildrenChoice(ps: seq<Process>)
    ensures AllStorageKeys(ps) == [] ==> StorageChildren(ps) == DefaultStorage
    ensures AllStorageKeys(ps) != [] ==>
              && (forall k :: k in StorageChildren(ps) <==> k in AllStorageKeys(ps))
              && (forall i, j :: 0 <= i < j < |StorageChildren(ps)| ==> StorageChildren(ps)[i] != StorageChildren(ps)[j])
  {
    var all := AllStorageKeys(ps);
    if all != [] {
      assert all[0] in Distinct(all);
    }
  }

  // ----- Notes -----

  /** `t.slice(0, 80) + (t.length > 80 ? '…' : '')`. */
  function NoteName(t: string): (r: string)
    ensures |t| <= 80 ==> r == t
    ensures |t| > 80 ==> |r| == 81 && r[..80] == t[..80] && r[80] == '…'
  {
    if |t| > 80 then t[..80] + "…" else t
  }

  function NoteNode(i: nat, t: string): ChartNode
  {
    Leaf("note:" + NatToString(i), NoteName(t), Category)
  }

  /** Each note in turn, numbered from 0, under Notes. */
  function NotesPart(c: Chart, notes: seq<string>): (r: Chart)
    ensures c.nodes <= r.nodes && c.edges <= r.edges
    ensures |r.nodes| == |c.nodes| + |notes|
  {
    if notes == [] then c
    else
      var n := |notes| - 1;
      Attach(NotesPart(c, notes[..n]), "cat:notes", NoteNode(n, notes[n]))
  }

  lemma {:induction false} NotesTree(c: Chart, notes: seq<string>)
    requires Tree(c) && HasNode(c, "cat:notes")
    ensures Tree(NotesPart(c, notes))
  {
    if notes != [] {
      var n := |notes| - 1;
      var prev := NotesPart(c, notes[..n]);
      NotesTree(c, notes[..n]);
      HasNodeKept(c, prev, "cat:notes");
      AttachTree(prev, "cat:notes", NoteNode(n, notes[n]));
    }
  }

  /** Note `i` sits at node `|c| + i`. */
  lemma {:induction false} NotesAt(c: Chart, notes: seq<string>, i: nat)
    requires i < |notes|
    ensures NotesPart(c, notes).nodes[|c.nodes| + i] == NoteNode(i, notes[i])
  {
    var n := |notes| - 1;
    var prev := NotesPart(c, notes[..n]);
    assert NotesPart(c, notes).nodes == prev.nodes + [NoteNode(n, notes[n])];
    if i < n {
      NotesAt(c, notes[..n], i);
      assert notes[..n][i] == notes[i];
    }
  }

  // ----- The whole graph -----

  /** The parts in the order the builder pushes them: the skeleton, the
      processes, the building blocks, the process types, the storage
      locations and the notes. */
  function ProcessesStage(lib: LibraryData): Chart
  {
    ProcessesPart(Skeleton(), lib.processes)
  }

  function BlocksStage(lib: LibraryData): Chart
  {
    var g := BlockGroups(lib.buildingBlocks);
    BlocksPart(ProcessesStage(lib), g.order, g.members)
  }

  function TypesStage(lib: LibraryData): Chart
  {
    LeavesPart(BlocksStage(lib), "cat:types", "type:", ClassNames(lib.processes))
  }

  function StorageStage(lib: LibraryData): Chart
  {
    LeavesPart(TypesStage(lib), "cat:storage", "stor:", StorageChildren(lib.processes))
  }

  /** `buildMindMapFromLibrary`. */
  function LibraryMindMap(lib: LibraryData): Chart
  {
    NotesPart(StorageStage(lib), OrEmpty(lib.notes))
  }

  /** Each stage extends the one before. */
  lemma StagesExtend(lib: LibraryData)
    ensures && Extends(ProcessesStage(lib), Skeleton()) && Extends(BlocksStage(lib), ProcessesStage(lib))
            && Extends(TypesStage(lib), BlocksStage(lib)) && Extends(StorageStage(lib), TypesStage(lib))
            && Extends(LibraryMindMap(lib), StorageStage(lib))
  {
  }

  /** The skeleton is a tree holding the categories the later stages hang under. */
  lemma SkeletonParents()
    ensures Tree(Skeleton())
    ensures HasNode(Skeleton(), "cat:main") && HasNode(Skeleton(), "cat:sub") && HasNode(Skeleton(), "cat:modular")
    ensures HasNode(Skeleton(), "cat:types") && HasNode(Skeleton(), "cat:storage") && HasNode(Skeleton(), "cat:notes")
  {
    SkeletonTree();
    var c := Skeleton();
    assert c.nodes[2].id == "cat:modular" && c.nodes[3].id == "cat:types";
    assert c.nodes[4].id == "cat:storage" && c.nodes[5].id == "cat:notes";
    assert c.nodes[6].id == "cat:main" && c.nodes[7].id == "cat:sub";
  }

  lemma ProcessesStageTree(lib: LibraryData)
    ensures Tree(ProcessesStage(lib))
    ensures HasNode(ProcessesStage(lib), "cat:modular") && HasNode(ProcessesStage(lib), "cat:types")
    ensures HasNode(ProcessesStage(lib), "cat:storage") && HasNode(ProcessesStage(lib), "cat:notes")
  {
    var c := ProcessesStage(lib);
    SkeletonParents();
    ProcessesTree(Skeleton(), lib.processes);
    HasNodeKept(Skeleton(), c, "cat:modular");
    HasNodeKept(Skeleton(), c, "cat:types");
    HasNodeKept(Skeleton(), c, "cat:storage");
    HasNodeKept(Skeleton(), c, "cat:notes");
  }

  lemma BlocksStageTree(lib: LibraryData)
    ensures Tree(BlocksStage(lib))
    ensures HasNode(BlocksStage(lib), "cat:types") && HasNode(BlocksStage(lib), "cat:storage") && HasNode(BlocksStage(lib), "cat:notes")
  {
    var g := BlockGroups(lib.buildingBlocks);
    var c := ProcessesStage(lib);
    ProcessesStageTree(lib);
    BlocksTree(c, g.order, g.members);
    HasNodeKept(c, BlocksStage(lib), "cat:types");
    HasNodeKept(c, BlocksStage(lib), "cat:storage");
    HasNodeKept(c, BlocksStage(lib), "cat:notes");
  }

  lemma StorageStageTree(lib: LibraryData)
    ensures Tree(StorageStage(lib)) && HasNode(StorageStage(lib), "cat:notes")
  {
    var c := BlocksStage(lib);
    BlocksStageTree(lib);
    LeavesTree(c, "cat:types", "type:", ClassNames(lib.processes));
    HasNodeKept(c, TypesStage(lib), "cat:storage");
    HasNodeKept(c, TypesStage(lib), "cat:notes");
    LeavesTree(TypesStage(lib), "cat:storage", "stor:", StorageChildren(lib.processes));
    HasNodeKept(TypesStage(lib), StorageStage(lib), "cat:notes");
  }

  /** The mind map is a tree: one `contains` edge per node after the root,
      each from a node pushed before it. */
  lemma LibraryMindMapTree(lib: LibraryData)
    ensures Tree(LibraryMindMap(lib))
    ensures |LibraryMindMap(lib).edges| == |LibraryMindMap(lib).nodes| - 1
    ensures forall e :: e in LibraryMindMap(lib).edges ==> e.edgeType == Contains
  {
    StorageStageTree(lib);
    NotesTree(StorageStage(lib), OrEmpty(lib.notes));
    var r := LibraryMindMap(lib);
    forall e | e in r.edges ensures e.edgeType == Contains {
      var i :| 0 <= i < |r.edges| && r.edges[i] == e;
    }
  }

  lemma SkeletonKept(lib: LibraryData)
    ensures Extends(LibraryMindMap(lib), Skeleton())
  {
    StagesExtend(lib);
  }

  lemma BlocksKept(lib: LibraryData)
    ensures Extends(LibraryMindMap(lib), BlocksStage(lib))
  {
    StagesExtend(lib);
  }

  lemma TypesKept(lib: LibraryData)
    ensures Extends(LibraryMindMap(lib), TypesStage(lib))
  {
    StagesExtend(lib);
  }

  /** The first eight nodes are the root and the seven categories, whatever the library. */
  lemma SkeletonFirst(lib: LibraryData)
    ensures LibraryMindMap(lib).nodes[..8] == Skeleton().nodes
  {
    SkeletonKept(lib);
    SkeletonSize();
  }

  /** Process `i` gives nodes `8 + 2i` (`proc:<id>`, under Main for a main
      process and under Sub otherwise) and `9 + 2i` (its `tail:<id>`). */
  lemma ProcessPlacement(lib: LibraryData, i: nat)
    requires i < |lib.processes|
    ensures var m := LibraryMindMap(lib);
            var p := lib.processes[i];
            && m.nodes[8 + 2 * i] == ProcessNode(p) && m.nodes[9 + 2 * i] == TailNode(p)
            && m.edges[7 + 2 * i] == Link(if p.kind == Hauptprozess then "cat:main" else "cat:sub", "proc:" + p.id)
            && m.edges[8 + 2 * i] == Link("proc:" + p.id, "tail:" + p.id)
  {
    SkeletonSize();
    ProcessesKept(lib);
    ProcessesAt(Skeleton(), lib.processes, i);
  }

  lemma SkeletonSize()
    ensures |Skeleton().nodes| == 8 && |Skeleton().edges| == 7
  {
  }

  lemma ProcessesKept(lib: LibraryData)
    ensures Extends(LibraryMindMap(lib), ProcessesStage(lib))
  {
    StagesExtend(lib);
  }

  /** A block lands in the group of its category. */
  lemma BlockGrouped(bs: seq<BuildingBlock>, b: BuildingBlock)
    requires b in bs
    ensures var g := BlockGroups(bs);
            b.category in g.order && b.category in g.members && b in g.members[b.category]
    ensures BlockGroups(bs).order == Distinct(CategoryKeys(bs))
  {
    var ks := CategoryKeys(bs);
    GroupedContents(bs, ks);
    var i :| 0 <= i < |bs| && bs[i] == b;
    SelectHas(bs, ks, i);
    assert ks[i] == b.category;
  }

  /** Every block category gets a node under the modular system, once, in
      first-appearance order, and every block a node under its category. */
  lemma BlockPlacement(lib: LibraryData, b: BuildingBlock)
    requires b in lib.buildingBlocks
    ensures var m := LibraryMindMap(lib);
            && CategoryNode(b.category) in m.nodes && Link("cat:modular", "bbcat:" + b.category) in m.edges
            && BlockNode(b) in m.nodes && Link("bbcat:" + b.category, "bb:" + b.id) in m.edges
    ensures BlockGroups(lib.buildingBlocks).order == Distinct(CategoryKeys(lib.buildingBlocks))
  {
    var g := BlockGroups(lib.buildingBlocks);
    BlockGrouped(lib.buildingBlocks, b);
    var k :| 0 <= k < |g.order| && g.order[k] == b.category;
    BlocksPartHave(ProcessesStage(lib), g.order, g.members, k);
    BlocksKept(lib);
    InPrefix(BlocksStage(lib), LibraryMindMap(lib), CategoryNode(b.category), Link("cat:modular", "bbcat:" + b.category));
    InPrefix(BlocksStage(lib), LibraryMindMap(lib), BlockNode(b), Link("bbcat:" + b.category, "bb:" + b.id));
  }

  /** A node and an edge of a chart stay in every extension of it. */
  lemma InPrefix(c: Chart, r: Chart, n: ChartNode, e: ChartEdge)
    requires Extends(r, c) && n in c.nodes && e in c.edges
    ensures n in r.nodes && e in r.edges
  {
    var i :| 0 <= i < |c.nodes| && c.nodes[i] == n;
    var j :| 0 <= j < |c.edges| && c.edges[j] == e;
    assert r.nodes[i] == n && r.edges[j] == e;
  }

  /** Every class of every process has a `type:` leaf under Process Types,
      and the leaves are distinct. */
  lemma ClassPlacement(lib: LibraryData, c: string)
    requires c in AllClasses(lib.processes)
    ensures var m := LibraryMindMap(lib);
            Leaf("type:" + c, c, Category) in m.nodes && Link("cat:types", "type:" + c) in m.edges
  {
    var names := ClassNames(lib.processes);
    var k :| 0 <= k < |names| && names[k] == c;
    LeavesAt(BlocksStage(lib), "cat:types", "type:", names, k);
    assert TypesStage(lib).nodes[|BlocksStage(lib).nodes| + k] in TypesStage(lib).nodes;
    TypesKept(lib);
    InPrefix(TypesStage(lib), LibraryMindMap(lib), Leaf("type:" + c, c, Category), Link("cat:types", "type:" + c));
  }

  /** Every storage leaf has a `stor:` node under Storage Locations. */
  lemma StoragePlacement(lib: LibraryData, key: string)
    requires key in StorageChildren(lib.processes)
    ensures var m := LibraryMindMap(lib);
            Leaf("stor:" + key, key, Category) in m.nodes && Link("cat:storage", "stor:" + key) in m.edges
  {
    var names := StorageChildren(lib.processes);
    var k :| 0 <= k < |names| && names[k] == key;
    LeavesAt(TypesStage(lib), "cat:storage", "stor:", names, k);
    assert StorageStage(lib).nodes[|TypesStage(lib).nodes| + k] in StorageStage(lib).nodes;
    InPrefix(StorageStage(lib), LibraryMindMap(lib), Leaf("stor:" + key, key, Category), Link("cat:storage", "stor:" + key));
  }

  /** The notes are the last nodes, numbered in order, each shortened to 80
      characters and an ellipsis only when longer. */
  lemma NotePlacement(lib: LibraryData, i: nat)
    requires i < |OrEmpty(lib.notes)|
    ensures var m := LibraryMindMap(lib);
            m.nodes[|m.nodes| - |OrEmpty(lib.notes)| + i] == NoteNode(i, OrEmpty(lib.notes)[i])
  {
    NotesAt(StorageStage(lib), OrEmpty(lib.notes), i);
  }

  // ----- The builder -----

  /** The root and categories, pushed as the builder pushes them. */
  method PushSkeleton() returns (nodes: seq<ChartNode>, edges: seq<ChartEdge>)
    ensures Chart(nodes, edges) == Skeleton()
  {
    var root := Leaf("root", "Process and Component Catalogue for Automation", Category);
    nodes := [root];
    var cats := [Leaf("cat:processes", "Processes", Category), Leaf("cat:modular", "Baukasten (Modular System)", Category),
                 Leaf("cat:types", "Process Types", Category), Leaf("cat:storage", "Storage Locations", Category),
                 Leaf("cat:notes", "Notes/Hints", Category)];
    nodes := nodes + cats;
    edges := [];
    for i := 0 to |cats|
      invariant edges == seq(i, k requires 0 <= k < i => Link("root", cats[k].id))
    {
      edges := edges + [Link(root.id, cats[i].id)];
    }
    nodes := nodes + [Leaf("cat:main", "Main Processes", Category), Leaf("cat:sub", "Sub-Processes", Category)];
    edges := edges + [Link("cat:processes", "cat:main")];
    edges := edges + [Link("cat:processes", "cat:sub")];
  }

  method PushProcesses(nodes0: seq<ChartNode>, edges0: seq<ChartEdge>, ps: seq<Process>)
    returns (nodes: seq<ChartNode>, edges: seq<ChartEdge>)
    ensures Chart(nodes, edges) == ProcessesPart(Chart(nodes0, edges0), ps)
  {
    nodes, edges := nodes0, edges0;
    for i := 0 to |ps|
      invariant Chart(nodes, edges) == ProcessesPart(Chart(nodes0, edges0), ps[..i])
    {
      assert ps[..i + 1][..i] == ps[..i];
      var p := ps[i];
      var node := ProcessNode(p);
      nodes := nodes + [node];
      edges := edges + [Link(if p.kind == Hauptprozess then "cat:main" else "cat:sub", node.id)];
      var tail := TailNode(p);
      nodes := nodes + [tail];
      edges := edges + [Link(node.id, tail.id)];
    }
    assert ps[..|ps|] == ps;
  }

  /** `byCat`: `if (!byCat.has(c)) byCat.set(c, []); byCat.get(c)!.push(b)`. */
  method GroupBlocks(bs: seq<BuildingBlock>) returns (byCat: Groups<string, BuildingBlock>)
    ensures byCat == BlockGroups(bs)
  {
    ghost var ks := CategoryKeys(bs);
    byCat := Groups([], map[]);
    for i := 0 to |bs|
      invariant byCat == Grouped(bs[..i], ks[..i])
    {
      assert bs[..i + 1][..i] == bs[..i] && ks[..i + 1][..i] == ks[..i];
      byCat := Push(byCat, bs[i].category, bs[i]);
    }
    assert bs[..|bs|] == bs && ks[..|ks|] == ks;
  }

  method PushBlockLeaves(nodes0: seq<ChartNode>, edges0: seq<ChartEdge>, parent: string, bs: seq<BuildingBlock>)
    returns (nodes: seq<ChartNode>, edges: seq<ChartEdge>)
    ensures Chart(nodes, edges) == BlockLeaves(Chart(nodes0, edges0), parent, bs)
  {
    nodes, edges := nodes0, edges0;
    for i := 0 to |bs|
      invariant Chart(nodes, edges) == BlockLeaves(Chart(nodes0, edges0), parent, bs[..i])
    {
      assert bs[..i + 1][..i] == bs[..i];
      var n := BlockNode(bs[i]);
      nodes := nodes + [n];
      edges := edges + [Link(parent, n.id)];
    }
    assert bs[..|bs|] == bs;
  }

  method PushBlocks(nodes0: seq<ChartNode>, edges0: seq<ChartEdge>, byCat: Groups<string, BuildingBlock>)
    returns (nodes: seq<ChartNode>, edges: seq<ChartEdge>)
    requires Valid(byCat)
    ensures Chart(nodes, edges) == BlocksPart(Chart(nodes0, edges0), byCat.order, byCat.members)
  {
    nodes, edges := nodes0, edges0;
    for k := 0 to |byCat.order|
      invariant Chart(nodes, edges) == BlocksPart(Chart(nodes0, edges0), byCat.order[..k], byCat.members)
    {
      assert byCat.order[..k + 1][..k] == byCat.order[..k];
      var cat := byCat.order[k];
      var catNode := CategoryNode(cat);
      nodes := nodes + [catNode];
      edges := edges + [Link("cat:modular", catNode.id)];
      nodes, edges := PushBlockLeaves(nodes, edges, catNode.id, byCat.members[cat]);
    }
    assert byCat.order[..|byCat.order|] == byCat.order;
  }

  /** Adding `x` to an insertion-ordered set. */
  lemma DistinctSnoc(xs: seq<string>, x: string)
    ensures Distinct(xs + [x]) == if x in Distinct(xs) then Distinct(xs) else Distinct(xs) + [x]
  {
    assert (xs + [x])[..|xs|] == xs;
  }

  /** `set.add(x)` for each `x` of `xs` in turn. */
  method AddAll(acc: seq<string>, ghost base: seq<string>, xs: seq<string>) returns (r: seq<string>)
    requires acc == Distinct(base)
    ensures r == Distinct(base + xs)
  {
    r := acc;
    assert base + xs[..0] == base;
    for j := 0 to |xs|
      invariant r == Distinct(base + xs[..j])
    {
      assert base + xs[..j + 1] == (base + xs[..j]) + [xs[j]];
      DistinctSnoc(base + xs[..j], xs[j]);
      if xs[j] !in r {
        r := r + [xs[j]];
      }
    }
    assert xs[..|xs|] == xs;
  }

  /** `classes.add(m)` for every class of every process. */
  method CollectClasses(ps: seq<Process>) returns (classes: seq<string>)
    ensures classes == ClassNames(ps)
  {
    classes := [];
    for i := 0 to |ps|
      invariant classes == Distinct(AllClasses(ps[..i]))
    {
      assert ps[..i + 1][..i] == ps[..i];
      assert AllClasses(ps[..i + 1]) == AllClasses(ps[..i]) + OrEmpty(ps[i].merkmalsklassen);
      classes := AddAll(classes, AllClasses(ps[..i]), OrEmpty(ps[i].merkmalsklassen));
    }
    assert ps[..|ps|] == ps;
  }

  /** `keys.add(k)` for every key of every record-valued location. */
  method CollectStorageKeys(ps: seq<Process>) returns (keys: seq<string>)
    ensures keys == Distinct(AllStorageKeys(ps))
  {
    keys := [];
    for i := 0 to |ps|
      invariant keys == Distinct(AllStorageKeys(ps[..i]))
    {
      assert ps[..i + 1][..i] == ps[..i];
      assert AllStorageKeys(ps[..i + 1]) == AllStorageKeys(ps[..i]) + LocationKeys(ps[i].ablageort);
      keys := AddAll(keys, AllStorageKeys(ps[..i]), LocationKeys(ps[i].ablageort));
    }
    assert ps[..|ps|] == ps;
  }

  method PushLeaves(nodes0: seq<ChartNode>, edges0: seq<ChartEdge>, parent: string, prefix: string, names: seq<string>)
    returns (nodes: seq<ChartNode>, edges: seq<ChartEdge>)
    ensures Chart(nodes, edges) == LeavesPart(Chart(nodes0, edges0), parent, prefix, names)
  {
    nodes, edges := nodes0, edges0;
    for i := 0 to |names|
      invariant Chart(nodes, edges) == LeavesPart(Chart(nodes0, edges0), parent, prefix, names[..i])
    {
      assert names[..i + 1][..i] == names[..i];
      var n := Leaf(prefix + names[i], names[i], Category);
      nodes := nodes + [n];
      edges := edges + [Link(parent, n.id)];
    }
    assert names[..|names|] == names;
  }

  method PushNotes(nodes0: seq<ChartNode>, edges0: seq<ChartEdge>, notes: seq<string>)
    returns (nodes: seq<ChartNode>, edges: seq<ChartEdge>)
    ensures Chart(nodes, edges) == NotesPart(Chart(nodes0, edges0), notes)
  {
    nodes, edges := nodes0, edges0;
    for i := 0 to |notes|
      invariant Chart(nodes, edges) == NotesPart(Chart(nodes0, edges0), notes[..i])
    {
      assert notes[..i + 1][..i] == notes[..i];
      var n := NoteNode(i, notes[i]);
      nodes := nodes + [n];
      edges := edges + [Link("cat:notes", n.id)];
    }
    assert notes[..|notes|] == notes;
  }

  method BuildMindMapFromLibrary(lib: LibraryData) returns (nodes: seq<ChartNode>, edges: seq<ChartEdge>)
    ensures Chart(nodes, edges) == LibraryMindMap(lib)
  {
    nodes, edges := PushSkeleton();
    nodes, edges := PushProcesses(nodes, edges, lib.processes);
    var byCat := GroupBlocks(lib.buildingBlocks);
    nodes, edges := PushBlocks(nodes, edges, byCat);
    var classes := CollectClasses(lib.processes);
    nodes, edges := PushLeaves(nodes, edges, "cat:types", "type:", classes);
    var keys := CollectStorageKeys(lib.processes);
    var storageChildren := if |keys| > 0 then keys else DefaultStorage;
    nodes, edges := PushLeaves(nodes, edges, "cat:storage", "stor:", storageChildren);
    nodes, edges := PushNotes(nodes, edges, OrEmpty(lib.notes));
  }
}
