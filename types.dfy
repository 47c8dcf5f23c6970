/** The library records and the display graph, as declared in src/utils/types.ts.
    Optional TypeScript fields (`x?: T`) become `Option<T>`. */
module Types {

  datatype Option<T> = None | Some(value: T)

  /** The six tags a display node can carry. */
  datatype NodeType = Problem | MainProcess | PartialProcess | BuildingBlockNode | Output | Category

  /** A process is either a main process or a sub-process. */
  datatype ProcessKind = Hauptprozess | Teilprozess

  /** The three kinds of typed link. */
  datatype EdgeType = Contains | Uses | SolvedBy

  /** One value of a named storage location: a string or a list of strings. */
  datatype LocationValue = Single(text: string) | TextList(items: seq<string>)

  /** A storage location: a flat string, or a record of named locations kept in key order. */
  datatype Location = Flat(path: string) | Named(entries: seq<(string, LocationValue)>)

  /** One property value of a building block. */
  datatype PropertyValue = PText(text: string) | PNumber(number: int)

  datatype Process = Process(
    id: string,
    name: string,
    kind: ProcessKind,
    merkmalsklassen: Option<seq<string>>,
    randbedingungen: Option<seq<string>>,
    partialProcesses: Option<seq<string>>,
    buildingBlocks: Option<seq<string>>,
    ablageort: Option<Location>)

  datatype BuildingBlock = BuildingBlock(
    id: string,
    name: string,
    category: string,
    hersteller: Option<string>,
    eigenschaften: Option<seq<(string, PropertyValue)>>,
    ablageort: Option<string>)

  datatype ChartEdge = ChartEdge(from: string, to: string, edgeType: EdgeType)

  datatype LibraryData = LibraryData(
    processes: seq<Process>,
    buildingBlocks: seq<BuildingBlock>,
    links: seq<ChartEdge>,
    notes: Option<seq<string>>)

  datatype ChartNode = ChartNode(
    id: string,
    name: string,
    nodeType: NodeType,
    merkmalsklassen: Option<seq<string>>,
    randbedingungen: Option<seq<string>>,
    ablageort: Option<Location>,
    eigenschaften: Option<seq<(string, PropertyValue)>>)

  /** One row of a dependency payload: an optional id and a name. */
  datatype PayloadRow = PayloadRow(id: Option<string>, name: string)

  datatype DependencyPayload = DependencyPayload(main: PayloadRow, subs: seq<PayloadRow>)

  /** The library with its four collections empty. */
  const EmptyLibrary: LibraryData := LibraryData([], [], [], Some([]))

  /** An absent optional list reads as the empty list. */
  function OrEmpty<T>(o: Option<seq<T>>): seq<T>
  {
    if o.Some? then o.value else []
  }

  /** The literal spelling of each edge type. */
  function EdgeTypeName(t: EdgeType): (r: string)
    ensures r in {"contains", "uses", "solved-by"}
  {
    match t
    case Contains => "contains"
    case Uses => "uses"
    case SolvedBy => "solved-by"
  }

  /** Reads an edge type back from its spelling; anything else is not an edge type. */
  function ParseEdgeType(s: string): (r: Option<EdgeType>)
    ensures r.Some? <==> s in {"contains", "uses", "solved-by"}
  {
    if s == "contains" then Some(Contains)
    else if s == "uses" then Some(Uses)
    else if s == "solved-by" then Some(SolvedBy)
    else None
  }

  lemma EdgeTypeNameRoundTrip(t: EdgeType)
    ensures ParseEdgeType(EdgeTypeName(t)) == Some(t)
  {
    match t
    case Contains =>
    case Uses =>
    case SolvedBy =>
      assert EdgeTypeName(t) != "contains" && EdgeTypeName(t) != "uses";
  }

  /** The literal spelling of each process kind. */
  function ProcessKindName(k: ProcessKind): (r: string)
    ensures r in {"Hauptprozess", "Teilprozess"}
  {
    match k
    case Hauptprozess => "Hauptprozess"
    case Teilprozess => "Teilprozess"
  }

  /** The literal spelling of each node type. */
  function NodeTypeName(t: NodeType): (r: string)
    ensures r in {"problem", "main-process", "partial-process", "building-block", "output", "category"}
  {
    match t
    case Problem => "problem"
    case MainProcess => "main-process"
    case PartialProcess => "partial-process"
    case BuildingBlockNode => "building-block"
    case Output => "output"
    case Category => "category"
  }

  /** The identity key of an edge, built exactly as the source builds it: `from->to:type`. */
  function EdgeKey(e: ChartEdge): string
  {
    e.from + "->" + e.to + ":" + EdgeTypeName(e.edgeType)
  }

  /** The set of ids of a list of display nodes. */
  function NodeIds(nodes: seq<ChartNode>): (r: set<string>)
    ensures forall i :: 0 <= i < |nodes| ==> nodes[i].id in r
    ensures forall x :: x in r ==> exists i :: 0 <= i < |nodes| && nodes[i].id == x
  {
    set n | n in nodes :: n.id
  }

  /** The set of keys of a list of edges. */
  function EdgeKeys(edges: seq<ChartEdge>): (r: set<string>)
    ensures forall i :: 0 <= i < |edges| ==> EdgeKey(edges[i]) in r
    ensures forall x :: x in r ==> exists i :: 0 <= i < |edges| && EdgeKey(edges[i]) == x
  {
    set e | e in edges :: EdgeKey(e)
  }

  /** The display graph is consistent when every edge joins two displayed nodes. */
  ghost predicate EdgesWithinNodes(nodes: seq<ChartNode>, edges: seq<ChartEdge>)
  {
    forall e :: e in edges ==> e.from in NodeIds(nodes) && e.to in NodeIds(nodes)
  }

  /** A non-empty sequence is its prefix followed by its last element. */
  lemma Snoc<T>(xs: seq<T>)
    requires xs != []
    ensures xs[..|xs| - 1] + [xs[|xs| - 1]] == xs
  {
  }

  /** Indexing a prefix is indexing the sequence. */
  lemma PrefixIndex<T>(xs: seq<T>, n: nat)
    requires n <= |xs|
    ensures forall i :: 0 <= i < n ==> xs[..n][i] == xs[i]
  {
  }

  /** The head and the tail of `[x] + t`. */
  lemma Parts<T>(x: T, t: seq<T>)
    ensures ([x] + t)[0] == x && ([x] + t)[1..] == t
  {
  }

  /** Splitting off the head of `a` in `a + b`. */
  lemma ConsAppend<T>(a: seq<T>, b: seq<T>)
    requires a != []
    ensures a == [a[0]] + a[1..] && a + b == [a[0]] + (a[1..] + b)
  {
  }

  /** Concatenation is associative. */
  lemma Assoc<T>(a: seq<T>, b: seq<T>, c: seq<T>)
    ensures (a + b) + c == a + (b + c)
  {
  }

  /** A non-empty sequence is its head followed by its tail. */
  lemma Cons<T>(s: seq<T>)
    requires s != []
    ensures [s[0]] + s[1..] == s
  {
  }

  /** A sequence is its first `k` elements followed by the rest. */
  lemma Rejoin<T>(s: seq<T>, k: nat)
    requires k <= |s|
    ensures s == s[..k] + s[k..]
  {
  }

  /** A slice of a sequence free of `bad` elements is free of them too. */
  lemma SliceFree<T>(p: seq<T>, i: nat, j: nat, bad: T -> bool)
    requires i <= j <= |p|
    requires forall k :: 0 <= k < |p| ==> !bad(p[k])
    ensures forall k :: 0 <= k < |p[i..j]| ==> !bad(p[i..j][k])
  {
    assert forall k :: 0 <= k < |p[i..j]| ==> p[i..j][k] == p[i + k];
  }

  lemma AppendIndex<T>(xs: seq<T>, x: T)
    ensures forall i :: 0 <= i < |xs| ==> (xs + [x])[i] == xs[i]
    ensures (xs + [x])[|xs|] == x
  {
  }

  /** `[f(lo), f(lo + 1), ..., f(hi)]`. */
  function RangeMap<T>(lo: nat, hi: nat, f: nat -> T): seq<T>
    requires lo <= hi
    decreases hi - lo
  {
    (if lo == hi then [] else RangeMap(lo, hi - 1, f)) + [f(hi)]
  }

  lemma RangeMapStep<T>(lo: nat, hi: nat, f: nat -> T)
    requires lo <= hi
    ensures RangeMap(lo, hi, f) == (if lo == hi then [] else RangeMap(lo, hi - 1, f)) + [f(hi)]
  {
  }

  lemma {:induction false} RangeMapLength<T>(lo: nat, hi: nat, f: nat -> T)
    requires lo <= hi
    ensures |RangeMap(lo, hi, f)| == hi - lo + 1
    decreases hi - lo
  {
    if lo < hi {
      RangeMapLength(lo, hi - 1, f);
    }
  }

  lemma {:induction false} RangeMapAt<T>(lo: nat, hi: nat, f: nat -> T, k: nat)
    requires lo <= hi && k <= hi - lo
    ensures |RangeMap(lo, hi, f)| == hi - lo + 1
    ensures RangeMap(lo, hi, f)[k] == f(lo + k)
    decreases hi - lo
  {
    RangeMapLength(lo, hi, f);
    if k < hi - lo {
      RangeMapLength(lo, hi - 1, f);
      RangeMapAt(lo, hi - 1, f, k);
      AppendIndex(RangeMap(lo, hi - 1, f), f(hi));
    }
  }
}
