/** The radial layout of src/components/MindMapCanvas.tsx: the `adj` map, the
    breadth-first `levels` from the first displayed node, the grouping of the
    nodes into rings, and the ring radius. A position is kept in polar form (a
    radius and the fraction of a full turn from the top); the conversion to
    screen coordinates is trigonometry and is not part of this model. */
module MindMapLayout {
  import opened Types
  import opened Grouping

  /** The targets of the edges leaving `u`, in edge order. */
  function Targets(edges: seq<ChartEdge>, u: string): seq<string>
  {
    if edges == [] then []
    else
      var e := edges[|edges| - 1];
      Targets(edges[..|edges| - 1], u) + (if e.from == u then [e.to] else [])
  }

  /** The targets of `u` are exactly the ends of the edges leaving `u`: the
      search follows edges from `from` to `to` only. */
  lemma {:induction false} TargetsSpec(edges: seq<ChartEdge>, u: string)
    ensures forall v :: v in Targets(edges, u) <==> exists e :: e in edges && e.from == u && e.to == v
  {
    if edges != [] {
      var e := edges[|edges| - 1];
      assert edges == edges[..|edges| - 1] + [e];
      TargetsSpec(edges[..|edges| - 1], u);
    }
  }

  /** `adj.get(u) ?? []`. */
  function Next(adj: map<string, seq<string>>, u: string): seq<string>
  {
    if u in adj then adj[u] else []
  }

  /** The `adj` map: every source id with its targets, in edge order. */
  function Adjacency(edges: seq<ChartEdge>): (adj: map<string, seq<string>>)
    ensures forall u :: Next(adj, u) == Targets(edges, u)
  {
    if edges == [] then map[]
    else
      var prev := Adjacency(edges[..|edges| - 1]);
      var e := edges[|edges| - 1];
      prev[e.from := Next(prev, e.from) + [e.to]]
  }

  /** The loop that builds `adj`. */
  method BuildAdjacency(edges: seq<ChartEdge>) returns (adj: map<string, seq<string>>)
    ensures adj == Adjacency(edges)
  {
    adj := map[];
    for i := 0 to |edges|
      invariant adj == Adjacency(edges[..i])
    {
      assert edges[..i + 1][..i] == edges[..i];
      var e := edges[i];
      if e.from !in adj {
        adj := adj[e.from := []];
      }
      adj := adj[e.from := adj[e.from] + [e.to]];
    }
    assert edges[..|edges|] == edges;
  }

  /** A directed path: each id is a target of the one before it. */
  ghost predicate IsPath(adj: map<string, seq<string>>, p: seq<string>)
  {
    |p| >= 1 && (|p| == 1 || (IsPath(adj, p[..|p| - 1]) && p[|p| - 1] in Next(adj, p[|p| - 2])))
  }

  /** `p` leads from `s` to `v` in `k` hops. */
  ghost predicate Walk(adj: map<string, seq<string>>, p: seq<string>, s: string, v: string, k: int)
  {
    IsPath(adj, p) && p[0] == s && p[|p| - 1] == v && |p| == k + 1
  }

  /** Every level is the length of a path from `start`, and no path from
      `start` is shorter than the level of where it ends: the levels are the
      shortest directed hop counts, and every node a path reaches has one. */
  ghost predicate ShortestLevels(adj: map<string, seq<string>>, start: string, levels: map<string, int>)
  {
    && start in levels && levels[start] == 0
    && Reached(adj, start, levels)
    && (forall p :: IsPath(adj, p) && p[0] == start ==> p[|p| - 1] in levels && levels[p[|p| - 1]] <= |p| - 1)
  }

  /** Every level is the length of a path from `start` to its id. */
  ghost predicate Reached(adj: map<string, seq<string>>, start: string, levels: map<string, int>)
  {
    forall v :: v in levels ==> exists p :: Walk(adj, p, start, v, levels[v])
  }

  /** No edge leaves the levelled ids, and an edge adds at most one level. */
  ghost predicate Closed(adj: map<string, seq<string>>, levels: map<string, int>)
  {
    forall u, v :: u in levels && v in Next(adj, u) ==> v in levels && levels[v] <= levels[u] + 1
  }

  /** Along a closed level map, a path from `start` ends no deeper than its length. */
  lemma {:induction false} ClosedBounds(adj: map<string, seq<string>>, start: string, levels: map<string, int>, p: seq<string>)
    requires Closed(adj, levels) && start in levels && levels[start] == 0
    requires IsPath(adj, p) && p[0] == start
    ensures p[|p| - 1] in levels && levels[p[|p| - 1]] <= |p| - 1
  {
    if |p| > 1 {
      var q := p[..|p| - 1];
      ClosedBounds(adj, start, levels, q);
      var u, v := p[|p| - 2], p[|p| - 1];
      assert q[|q| - 1] == u && u in levels && levels[u] <= |q| - 1;
      assert p[|p| - 2] == u && p[|p| - 1] == v;
      assert v in Next(adj, u);
      assert v in levels && levels[v] <= levels[u] + 1;
    }
  }

  /** The ids the search can reach at most: the start and every edge target. */
  function Universe(adj: map<string, seq<string>>, start: string): set<string>
  {
    {start} + set u, v | u in adj && v in adj[u] :: v
  }

  /** What the search loop keeps: every queued id is levelled, the queue is
      sorted by level and spans at most one level, no dequeued id lies deeper
      than the head, every dequeued id has all its targets levelled at most
      one deeper, and every level is the length of a path from `start`. */
  ghost predicate BfsInv(adj: map<string, seq<string>>, start: string, levels: map<string, int>, queue: seq<string>)
  {
    && start in levels && levels[start] == 0
    && QueueOrdered(levels, queue)
    && BehindQueue(levels, queue)
    && ClosedBehind(adj, levels, queue)
    && Witnessed(adj, start, levels)
  }

  /** The queued ids are levelled, in non-decreasing order, within one level of the head. */
  ghost predicate QueueOrdered(levels: map<string, int>, queue: seq<string>)
  {
    && (forall i :: 0 <= i < |queue| ==> queue[i] in levels)
    && (forall i, j :: 0 <= i <= j < |queue| ==> levels[queue[i]] <= levels[queue[j]])
    && (queue != [] ==> levels[queue[|queue| - 1]] <= levels[queue[0]] + 1)
  }

  /** No levelled id outside the queue lies deeper than the head. */
  ghost predicate BehindQueue(levels: map<string, int>, queue: seq<string>)
    requires queue != [] ==> queue[0] in levels
  {
    forall v :: v in levels && v !in queue && queue != [] ==> levels[v] <= levels[queue[0]]
  }

  /** Every dequeued id has its targets levelled at most one deeper. */
  ghost predicate ClosedBehind(adj: map<string, seq<string>>, levels: map<string, int>, queue: seq<string>)
  {
    forall u, v :: u in levels && u !in queue && v in Next(adj, u) ==> v in levels && levels[v] <= levels[u] + 1
  }

  /** Every level is the length of a path from `start` to its id, and only ids
      the search can reach are levelled. */
  ghost predicate Witnessed(adj: map<string, seq<string>>, start: string, levels: map<string, int>)
  {
    Reached(adj, start, levels) && levels.Keys <= Universe(adj, start)
  }

  /** A target of a levelled `cur` is reachable, one step further than `cur`. */
  lemma WitnessedStep(adj: map<string, seq<string>>, start: string, levels: map<string, int>, cur: string, n: string, k: int)
    requires Witnessed(adj, start, levels) && cur in levels && n in Next(adj, cur) && k == levels[cur] + 1
    ensures exists p :: Walk(adj, p, start, n, k)
    ensures n in Universe(adj, start)
  {
    var pc :| Walk(adj, pc, start, cur, levels[cur]);
    Extend(adj, pc, n);
    assert Walk(adj, pc + [n], start, n, levels[cur] + 1);
    assert cur in adj && n in adj[cur];
    assert n in Universe(adj, start);
  }

  /** A path extended by one of its last id's targets is a path. */
  lemma Extend(adj: map<string, seq<string>>, p: seq<string>, v: string)
    requires IsPath(adj, p) && v in Next(adj, p[|p| - 1])
    ensures IsPath(adj, p + [v])
  {
    var q := p + [v];
    assert q[..|q| - 1] == p;
  }

  /** The inner loop of one search step: `for (const n of nexts)`, levelling
      one deeper than `cur` and queueing every id not levelled yet. */
  method EnqueueTargets(nexts: seq<string>, cur: string, levels0: map<string, int>, queue0: seq<string>)
    returns (levels: map<string, int>, queue: seq<string>, ghost added: seq<string>)
    requires cur in levels0
    ensures queue == queue0 + added
    ensures forall i :: 0 <= i < |added| ==> added[i] in nexts && added[i] !in levels0
    ensures forall i :: 0 <= i < |added| ==> added[i] in levels && levels[added[i]] == levels0[cur] + 1
    ensures forall v :: v in levels <==> v in levels0 || v in added
    ensures forall v :: v in levels0 ==> levels[v] == levels0[v]
    ensures forall v :: v in nexts ==> v in levels
  {
    levels, queue, added := levels0, queue0, [];
    for k := 0 to |nexts|
      invariant queue == queue0 + added
      invariant forall i :: 0 <= i < |added| ==> added[i] in nexts[..k] && added[i] !in levels0
      invariant forall i :: 0 <= i < |added| ==> added[i] in levels && levels[added[i]] == levels0[cur] + 1
      invariant forall v :: v in levels <==> v in levels0 || v in added
      invariant forall v :: v in levels0 ==> levels[v] == levels0[v]
      invariant forall j :: 0 <= j < k ==> nexts[j] in levels
    {
      var n := nexts[k];
      assert nexts[..k + 1] == nexts[..k] + [n];
      if n !in levels {
        levels := levels[n := (if cur in levels then levels[cur] else 0) + 1];
        queue := queue + [n];
        added := added + [n];
      }
    }
    assert nexts[..|nexts|] == nexts;
    forall v | v in nexts ensures v in levels {
      var j :| 0 <= j < |nexts| && nexts[j] == v;
    }
  }

  /** One search step: `queue.shift()`, then the targets of the dequeued id. */
  method Visit(adj: map<string, seq<string>>, levels0: map<string, int>, queue0: seq<string>)
    returns (levels: map<string, int>, queue: seq<string>, ghost added: seq<string>)
    requires queue0 != [] && queue0[0] in levels0
    ensures Stepped(Next(adj, queue0[0]), levels0, queue0, levels, queue, added)
  {
    var cur := queue0[0];
    queue := queue0[1..];
    var nexts := Next(adj, cur);
    levels, queue, added := EnqueueTargets(nexts, cur, levels0, queue);
  }

  /** The ids levelled by one search step are targets of `cur`, one deeper than
      `cur`, so every level stays witnessed. */
  lemma {:induction false} WitnessedAdded(adj: map<string, seq<string>>, start: string, levels0: map<string, int>,
                                          levels: map<string, int>, cur: string, added: seq<string>)
    requires Witnessed(adj, start, levels0) && cur in levels0
    requires forall i :: 0 <= i < |added| ==> added[i] in Next(adj, cur) && added[i] in levels && levels[added[i]] == levels0[cur] + 1
    requires forall v :: v in levels <==> v in levels0 || v in added
    requires forall v :: v in levels0 ==> levels[v] == levels0[v]
    ensures Witnessed(adj, start, levels)
  {
    forall v | v in levels ensures exists p :: Walk(adj, p, start, v, levels[v]) {
      if v !in levels0 {
        var i :| 0 <= i < |added| && added[i] == v;
        WitnessedStep(adj, start, levels0, cur, v, levels[v]);
      } else {
        var p :| Walk(adj, p, start, v, levels0[v]);
        assert Walk(adj, p, start, v, levels[v]);
      }
    }
    forall v | v in levels ensures v in Universe(adj, start) {
      if v !in levels0 {
        var i :| 0 <= i < |added| && added[i] == v;
        WitnessedStep(adj, start, levels0, cur, v, levels[v]);
      }
    }
  }

  /** What one search step did: `cur`, the head of `queue0`, was dequeued, and
      the ids of `added`, targets of `cur` not levelled before, were levelled
      one deeper than `cur` and queued. */
  ghost predicate Stepped(nexts: seq<string>, levels0: map<string, int>, queue0: seq<string>,
                          levels: map<string, int>, queue: seq<string>, added: seq<string>)
  {
    && queue0 != [] && queue0[0] in levels0
    && queue == queue0[1..] + added
    && (forall i :: 0 <= i < |added| ==> added[i] in nexts && added[i] !in levels0)
    && (forall i :: 0 <= i < |added| ==> added[i] in levels && levels[added[i]] == levels0[queue0[0]] + 1)
    && (forall v :: v in levels <==> v in levels0 || v in added)
    && (forall v :: v in levels0 ==> levels[v] == levels0[v])
    && (forall v :: v in nexts ==> v in levels)
  }

  /** After a step every queued id lies between the old head's level and one deeper. */
  lemma QueueBand(levels0: map<string, int>, queue0: seq<string>, levels: map<string, int>, queue: seq<string>, added: seq<string>)
    requires QueueOrdered(levels0, queue0) && queue0 != [] && queue == queue0[1..] + added
    requires forall v :: v in levels0 ==> v in levels && levels[v] == levels0[v]
    requires forall i :: 0 <= i < |added| ==> added[i] in levels && levels[added[i]] == levels0[queue0[0]] + 1
    ensures forall i :: 0 <= i < |queue| ==> queue[i] in levels
    ensures forall i :: 0 <= i < |queue| ==> levels0[queue0[0]] <= levels[queue[i]] <= levels0[queue0[0]] + 1
  {
    var rest := queue0[1..];
    forall i | 0 <= i < |queue|
      ensures queue[i] in levels && levels0[queue0[0]] <= levels[queue[i]] <= levels0[queue0[0]] + 1
    {
      if i < |rest| {
        assert queue[i] == queue0[i + 1];
        assert levels0[queue0[0]] <= levels0[queue0[i + 1]] <= levels0[queue0[|queue0| - 1]];
      } else {
        assert queue[i] == added[i - |rest|];
      }
    }
  }

  /** After a step the queue is still in non-decreasing level order. */
  lemma QueueSorted(levels0: map<string, int>, queue0: seq<string>, levels: map<string, int>, queue: seq<string>, added: seq<string>)
    requires QueueOrdered(levels0, queue0) && queue0 != [] && queue == queue0[1..] + added
    requires forall v :: v in levels0 ==> v in levels && levels[v] == levels0[v]
    requires forall i :: 0 <= i < |added| ==> added[i] in levels && levels[added[i]] == levels0[queue0[0]] + 1
    ensures QueueOrdered(levels, queue)
  {
    QueueBand(levels0, queue0, levels, queue, added);
    var rest := queue0[1..];
    forall i, j | 0 <= i <= j < |queue| ensures levels[queue[i]] <= levels[queue[j]] {
      if j < |rest| {
        assert queue[i] == queue0[i + 1] && queue[j] == queue0[j + 1];
      } else {
        assert queue[j] == added[j - |rest|];
      }
    }
  }

  /** After a step no levelled id outside the queue lies deeper than the new head. */
  lemma QueueBehind(levels0: map<string, int>, queue0: seq<string>, levels: map<string, int>, queue: seq<string>, added: seq<string>)
    requires QueueOrdered(levels0, queue0) && BehindQueue(levels0, queue0)
    requires queue0 != [] && queue == queue0[1..] + added
    requires forall v :: v in levels <==> v in levels0 || v in added
    requires forall v :: v in levels0 ==> levels[v] == levels0[v]
    requires forall i :: 0 <= i < |added| ==> added[i] in levels && levels[added[i]] == levels0[queue0[0]] + 1
    requires QueueOrdered(levels, queue)
    ensures BehindQueue(levels, queue)
  {
    QueueBand(levels0, queue0, levels, queue, added);
    forall v | v in levels && v !in queue && queue != [] ensures levels[v] <= levels[queue[0]] {
      assert v !in added;
      if v != queue0[0] {
        assert queue0 == [queue0[0]] + queue0[1..];
        assert v !in queue0;
      }
    }
  }

  /** A step keeps the queue sorted, within one level, and no shallower than the dequeued ids. */
  lemma StepKeepsQueue(adj: map<string, seq<string>>, start: string, nexts: seq<string>, levels0: map<string, int>, queue0: seq<string>,
                       levels: map<string, int>, queue: seq<string>, added: seq<string>)
    requires BfsInv(adj, start, levels0, queue0) && Stepped(nexts, levels0, queue0, levels, queue, added)
    ensures forall i :: 0 <= i < |queue| ==> queue[i] in levels
    ensures forall i, j :: 0 <= i <= j < |queue| ==> levels[queue[i]] <= levels[queue[j]]
    ensures queue != [] ==> levels[queue[|queue| - 1]] <= levels[queue[0]] + 1
    ensures forall v :: v in levels && v !in queue && queue != [] ==> levels[v] <= levels[queue[0]]
  {
    QueueSorted(levels0, queue0, levels, queue, added);
    QueueBehind(levels0, queue0, levels, queue, added);
  }

  /** A step keeps every dequeued id's targets levelled at most one deeper. */
  lemma StepKeepsClosed(adj: map<string, seq<string>>, start: string, levels0: map<string, int>, queue0: seq<string>,
                        levels: map<string, int>, queue: seq<string>, added: seq<string>)
    requires BfsInv(adj, start, levels0, queue0) && queue0 != []
    requires Stepped(Next(adj, queue0[0]), levels0, queue0, levels, queue, added)
    ensures forall u, v :: u in levels && u !in queue && v in Next(adj, u) ==> v in levels && levels[v] <= levels[u] + 1
  {
    forall u, v | u in levels && u !in queue && v in Next(adj, u) ensures v in levels && levels[v] <= levels[u] + 1 {
      if u == queue0[0] {
        HeadTargetBound(adj, start, levels0, queue0, levels, queue, added, v);
      } else {
        OldTargetBound(adj, levels0, queue0, levels, queue, added, u, v);
      }
    }
  }

  /** An id dequeued before the step keeps its targets' bound. */
  lemma OldTargetBound(adj: map<string, seq<string>>, levels0: map<string, int>, queue0: seq<string>,
                       levels: map<string, int>, queue: seq<string>, added: seq<string>, u: string, v: string)
    requires ClosedBehind(adj, levels0, queue0) && queue0 != [] && queue == queue0[1..] + added
    requires forall v :: v in levels <==> v in levels0 || v in added
    requires forall v :: v in levels0 ==> levels[v] == levels0[v]
    requires u in levels && u !in queue && u != queue0[0] && v in Next(adj, u)
    ensures v in levels && levels[v] <= levels[u] + 1
  {
    assert u !in added && u in levels0;
    assert queue0 == [queue0[0]] + queue0[1..];
    assert u !in queue0;
  }

  /** A target of the dequeued id ends up at most one level deeper than it. */
  lemma HeadTargetBound(adj: map<string, seq<string>>, start: string, levels0: map<string, int>, queue0: seq<string>,
                        levels: map<string, int>, queue: seq<string>, added: seq<string>, v: string)
    requires BfsInv(adj, start, levels0, queue0) && queue0 != []
    requires Stepped(Next(adj, queue0[0]), levels0, queue0, levels, queue, added)
    requires v in Next(adj, queue0[0])
    ensures v in levels && levels[v] <= levels[queue0[0]] + 1
  {
    if v in levels0 {
      if v in queue0 {
        var i :| 0 <= i < |queue0| && queue0[i] == v;
        assert levels0[queue0[i]] <= levels0[queue0[|queue0| - 1]];
      }
    } else {
      var i :| 0 <= i < |added| && added[i] == v;
    }
  }

  /** One search step keeps the loop invariant. */
  lemma StepKeepsInv(adj: map<string, seq<string>>, start: string, levels0: map<string, int>, queue0: seq<string>,
                     levels: map<string, int>, queue: seq<string>, added: seq<string>)
    requires BfsInv(adj, start, levels0, queue0) && queue0 != []
    requires Stepped(Next(adj, queue0[0]), levels0, queue0, levels, queue, added)
    ensures BfsInv(adj, start, levels, queue)
  {
    StepKeepsQueue(adj, start, Next(adj, queue0[0]), levels0, queue0, levels, queue, added);
    StepKeepsClosed(adj, start, levels0, queue0, levels, queue, added);
    WitnessedAdded(adj, start, levels0, levels, queue0[0], added);
  }

  /** Each step levels a new id of the universe or shortens the queue. */
  lemma StepProgress(adj: map<string, seq<string>>, start: string, levels0: map<string, int>, queue0: seq<string>,
                     levels: map<string, int>, queue: seq<string>, added: seq<string>)
    requires queue0 != [] && Stepped(Next(adj, queue0[0]), levels0, queue0, levels, queue, added)
    requires Witnessed(adj, start, levels)
    ensures || |Universe(adj, start) - levels.Keys| < |Universe(adj, start) - levels0.Keys|
            || (levels.Keys == levels0.Keys && |queue| < |queue0|)
  {
    var u := Universe(adj, start);
    if added == [] {
      assert levels.Keys == levels0.Keys;
    } else {
      var x := added[0];
      assert levels0.Keys <= levels.Keys && x in levels.Keys && x !in levels0.Keys;
      DifferenceShrinks(u, levels0.Keys, levels.Keys, x);
    }
  }

  /** Taking a larger set away from `u` leaves fewer elements, when the extra
      element `x` was in `u`. */
  lemma DifferenceShrinks(u: set<string>, a: set<string>, b: set<string>, x: string)
    requires a <= b && x in b && x !in a && x in u
    ensures |u - b| < |u - a|
  {
    assert u - b <= (u - a) - {x};
    SubsetSize(u - b, (u - a) - {x});
  }

  lemma {:induction false} SubsetSize(s: set<string>, t: set<string>)
    requires s <= t
    ensures |s| <= |t|
  {
    if s != {} {
      var y :| y in s;
      SubsetSize(s - {y}, t - {y});
    }
  }

  /** With nothing left to dequeue the levels are closed under the adj. */
  lemma DoneClosed(adj: map<string, seq<string>>, start: string, levels: map<string, int>)
    requires BfsInv(adj, start, levels, [])
    ensures ShortestLevels(adj, start, levels)
  {
    assert Closed(adj, levels);
    ClosedShortest(adj, start, levels);
  }

  /** Closed levels whose every level is witnessed by a path are the shortest ones. */
  lemma ClosedShortest(adj: map<string, seq<string>>, start: string, levels: map<string, int>)
    requires start in levels && levels[start] == 0
    requires Closed(adj, levels) && Reached(adj, start, levels)
    ensures ShortestLevels(adj, start, levels)
  {
    forall p | IsPath(adj, p) && p[0] == start ensures p[|p| - 1] in levels && levels[p[|p| - 1]] <= |p| - 1 {
      ClosedBounds(adj, start, levels, p);
    }
  }

  /** `nodes[0]?.id`: the first displayed id, when there is one and it is not empty. */
  function StartOf(nodes: seq<ChartNode>): Option<string>
  {
    if |nodes| > 0 && nodes[0].id != "" then Some(nodes[0].id) else None
  }

  /** The search starts with `start` levelled 0 and queued. */
  lemma InitInv(adj: map<string, seq<string>>, start: string)
    ensures BfsInv(adj, start, map[start := 0], [start])
  {
    assert Walk(adj, [start], start, start, 0);
  }

  /** The `while (queue.length)` loop from `start`: it ends with the shortest
      directed hop counts from `start`. */
  method Search(adj: map<string, seq<string>>, start: string) returns (levels: map<string, int>)
    ensures ShortestLevels(adj, start, levels)
  {
    var queue := [start];
    levels := map[start := 0];
    InitInv(adj, start);
    while queue != []
      invariant BfsInv(adj, start, levels, queue)
      decreases |Universe(adj, start) - levels.Keys|, |queue|
    {
      ghost var levels0, queue0 := levels, queue;
      ghost var added;
      levels, queue, added := Visit(adj, levels, queue);
      StepKeepsInv(adj, start, levels0, queue0, levels, queue, added);
      StepProgress(adj, start, levels0, queue0, levels, queue, added);
    }
    DoneClosed(adj, start, levels);
  }

  /** The levels of the `layout` memo: a search from `nodes[0]?.id` when that
      is a non-empty id, and no levels otherwise. */
  method Levels(nodes: seq<ChartNode>, adj: map<string, seq<string>>) returns (levels: map<string, int>)
    ensures StartOf(nodes).None? ==> levels == map[]
    ensures StartOf(nodes).Some? ==> ShortestLevels(adj, StartOf(nodes).value, levels)
  {
    levels := map[];
    var start := if |nodes| > 0 then nodes[0].id else "";
    if start != "" {
      levels := Search(adj, start);
    }
  }

  /** There is only one map of shortest levels: the search result does not
      depend on the order in which it visits ids. */
  lemma ShortestUnique(adj: map<string, seq<string>>, start: string, a: map<string, int>, b: map<string, int>)
    requires ShortestLevels(adj, start, a) && ShortestLevels(adj, start, b)
    ensures a == b
  {
    forall v | v in a ensures v in b && b[v] <= a[v] {
      var p :| Walk(adj, p, start, v, a[v]);
    }
    forall v | v in b ensures v in a && a[v] <= b[v] {
      var p :| Walk(adj, p, start, v, b[v]);
    }
    assert a.Keys == b.Keys;
  }

  /** An id has a level exactly when some directed path leads to it from `start`. */
  lemma LevelledIffReachable(adj: map<string, seq<string>>, start: string, levels: map<string, int>, v: string)
    requires ShortestLevels(adj, start, levels)
    ensures v in levels <==> exists p :: IsPath(adj, p) && p[0] == start && p[|p| - 1] == v
  {
    if v in levels {
      var p :| Walk(adj, p, start, v, levels[v]);
    }
  }

  /** Levels are never negative, and only `start` is at level 0. */
  lemma LevelsFromStart(adj: map<string, seq<string>>, start: string, levels: map<string, int>, v: string)
    requires ShortestLevels(adj, start, levels) && v in levels
    ensures levels[v] >= 0
    ensures levels[v] == 0 <==> v == start
  {
    var p :| Walk(adj, p, start, v, levels[v]);
  }

  /** The adjacency built from the edges follows them from `from` to `to` only. */
  lemma AdjacencyFollowsEdges(edges: seq<ChartEdge>, u: string, v: string)
    ensures v in Next(Adjacency(edges), u) <==> exists e :: e in edges && e.from == u && e.to == v
  {
    TargetsSpec(edges, u);
  }

  /** `levels.get(n.id) ?? 1`: the ring of an id, ring 1 for an id the search
      did not reach. */
  function Ring(levels: map<string, int>, id: string): int
  {
    if id in levels then levels[id] else 1
  }

  /** The displayed ids, in node order. */
  function IdList(nodes: seq<ChartNode>): (r: seq<string>)
    ensures |r| == |nodes| && forall i :: 0 <= i < |r| ==> r[i] == nodes[i].id
  {
    if nodes == [] then [] else IdList(nodes[..|nodes| - 1]) + [nodes[|nodes| - 1].id]
  }

  /** The ring of each id of `ids`. */
  function RingKeys(ids: seq<string>, levels: map<string, int>): (r: seq<int>)
    ensures |r| == |ids| && forall i :: 0 <= i < |r| ==> r[i] == Ring(levels, ids[i])
  {
    if ids == [] then [] else RingKeys(ids[..|ids| - 1], levels) + [Ring(levels, ids[|ids| - 1])]
  }

  /** `depthToNodes`: the displayed ids grouped by ring, in node order. */
  function Rings(nodes: seq<ChartNode>, levels: map<string, int>): Groups<int, string>
  {
    Grouped(IdList(nodes), RingKeys(IdList(nodes), levels))
  }

  /** The grouping loop of the `layout` memo. */
  method GroupByRing(nodes: seq<ChartNode>, levels: map<string, int>) returns (rings: Groups<int, string>)
    ensures rings == Rings(nodes, levels)
  {
    ghost var ids := IdList(nodes);
    ghost var ks := RingKeys(ids, levels);
    rings := Groups([], map[]);
    for i := 0 to |nodes|
      invariant rings == Grouped(ids[..i], ks[..i])
    {
      assert ids[..i + 1][..i] == ids[..i] && ks[..i + 1][..i] == ks[..i];
      var d := if nodes[i].id in levels then levels[nodes[i].id] else 1;
      assert d == ks[i] && nodes[i].id == ids[i];
      rings := Push(rings, d, nodes[i].id);
    }
    assert ids[..|nodes|] == ids && ks[..|nodes|] == ks;
  }

  /** Every displayed id is in the group of its ring. */
  lemma IdInItsRing(nodes: seq<ChartNode>, levels: map<string, int>, i: nat)
    requires i < |nodes|
    ensures var rings := Rings(nodes, levels);
            Ring(levels, nodes[i].id) in rings.members && nodes[i].id in rings.members[Ring(levels, nodes[i].id)]
  {
    var ids := IdList(nodes);
    var ks := RingKeys(ids, levels);
    GroupedContents(ids, ks);
    assert ks[i] in ks;
    SelectHas(ids, ks, i);
  }

  /** Each ring holds only displayed ids of that ring, in node order. */
  lemma RingHoldsItsIds(nodes: seq<ChartNode>, levels: map<string, int>, d: int)
    ensures var rings := Rings(nodes, levels);
            d in rings.members ==> forall id :: id in rings.members[d] ==> id in IdList(nodes) && Ring(levels, id) == d
  {
    var ids := IdList(nodes);
    var ks := RingKeys(ids, levels);
    var rings := Rings(nodes, levels);
    if d in rings.members {
      GroupedContents(ids, ks);
      SelectKeys(ids, ks, d);
      forall id | id in rings.members[d] ensures id in ids && Ring(levels, id) == d {
        var i :| 0 <= i < |ids| && ids[i] == id && ks[i] == d;
      }
    }
  }

  /** Together the rings hold every displayed node once. */
  lemma RingsSize(nodes: seq<ChartNode>, levels: map<string, int>)
    ensures var rings := Rings(nodes, levels); Size(rings.order, rings.members) == |nodes|
  {
    GroupedSize(IdList(nodes), RingKeys(IdList(nodes), levels));
  }

  /** Where an id is drawn, in polar form around the container centre: the
      centre itself, or a ring radius and the fraction of a full turn
      clockwise from the top (`angle = turn * 2 * PI - PI / 2`). */
  datatype Placement = Centre | OnRing(radius: real, turn: real)

  function RMin(a: real, b: real): real { if a <= b then a else b }

  /** `radiusStep = Math.min(cx, cy) / (maxDepth + 2)` with `cx`, `cy` half
      the container size. */
  function RadiusStep(width: real, height: real, maxDepth: int): real
    requires maxDepth >= 0
  {
    RMin(width / 2.0, height / 2.0) / (maxDepth + 2) as real
  }

  /** `r = (d + 0.5) * radiusStep`. */
  function RingRadius(d: int, step: real): real
  {
    (d as real + 0.5) * step
  }

  /** `ids.forEach((id, i) => positioned.set(id, ...))` for the first `k` ids of one ring. */
  function PlaceRing(pos: map<string, Placement>, ids: seq<string>, k: nat, radius: real): map<string, Placement>
    requires k <= |ids|
  {
    if k == 0 then pos
    else PlaceRing(pos, ids, k - 1, radius)[ids[k - 1] := OnRing(radius, (k - 1) as real / |ids| as real)]
  }

  /** The rings of the first `k` keys in key order, skipping ring 0. */
  function PlaceRings(pos: map<string, Placement>, rings: Groups<int, string>, k: nat, step: real): map<string, Placement>
    requires k <= |rings.order| && forall i :: 0 <= i < |rings.order| ==> rings.order[i] in rings.members
  {
    if k == 0 then pos
    else
      var prev := PlaceRings(pos, rings, k - 1, step);
      var d := rings.order[k - 1];
      if d == 0 then prev else PlaceRing(prev, rings.members[d], |rings.members[d]|, RingRadius(d, step))
  }

  /** The start at the centre, when there is one. */
  function CentreOf(start: Option<string>): map<string, Placement>
  {
    if start.Some? then map[start.value := Centre] else map[]
  }

  /** The positions for the given ring groups and container size. */
  function Arrange(rings: Groups<int, string>, start: Option<string>, width: real, height: real): map<string, Placement>
    requires forall i :: 0 <= i < |rings.order| ==> rings.order[i] in rings.members
  {
    PlaceRings(CentreOf(start), rings, |rings.order|, RadiusStep(width, height, MaxKey(rings.order)))
  }

  /** The positions of the `layout` memo, for the given levels. */
  function MindMapOf(nodes: seq<ChartNode>, levels: map<string, int>, clientWidth: Option<nat>, clientHeight: Option<nat>)
    : map<string, Placement>
  {
    Arrange(Rings(nodes, levels), StartOf(nodes), Measured(clientWidth, 1200), Measured(clientHeight, 800))
  }

  /** `ids.forEach(...)` over one ring. */
  method PlaceRingIds(before: map<string, Placement>, ids: seq<string>, radius: real)
    returns (positioned: map<string, Placement>)
    ensures positioned == PlaceRing(before, ids, |ids|, radius)
  {
    positioned := before;
    for i := 0 to |ids|
      invariant positioned == PlaceRing(before, ids, i, radius)
    {
      positioned := positioned[ids[i] := OnRing(radius, i as real / |ids| as real)];
    }
  }

  /** `for (const [d, ids] of depthToNodes.entries()) { if (d === 0) continue; ... }`. */
  method PlaceAllRings(centre: map<string, Placement>, rings: Groups<int, string>, step: real)
    returns (positioned: map<string, Placement>)
    requires forall i :: 0 <= i < |rings.order| ==> rings.order[i] in rings.members
    ensures positioned == PlaceRings(centre, rings, |rings.order|, step)
  {
    positioned := centre;
    for k := 0 to |rings.order|
      invariant positioned == PlaceRings(centre, rings, k, step)
    {
      var d := rings.order[k];
      if d == 0 {
        continue;
      }
      positioned := PlaceRingIds(positioned, rings.members[d], RingRadius(d, step));
    }
  }

  /** The `layout` memo: the levels of the search over the edges, and where
      every displayed id is drawn. */
  method ComputeMindMap(nodes: seq<ChartNode>, edges: seq<ChartEdge>, clientWidth: Option<nat>, clientHeight: Option<nat>)
    returns (levels: map<string, int>, positioned: map<string, Placement>)
    ensures StartOf(nodes).None? ==> levels == map[]
    ensures StartOf(nodes).Some? ==> ShortestLevels(Adjacency(edges), StartOf(nodes).value, levels)
    ensures positioned == MindMapOf(nodes, levels, clientWidth, clientHeight)
  {
    var width := if clientWidth.Some? then clientWidth.value as real else 1200.0;
    var height := if clientHeight.Some? then clientHeight.value as real else 800.0;
    var adj := BuildAdjacency(edges);
    levels := Levels(nodes, adj);
    var rings := GroupByRing(nodes, levels);
    var start := if |nodes| > 0 && nodes[0].id != "" then Some(nodes[0].id) else None;
    positioned := ArrangeRings(rings, start, width, height);
  }

  /** The placement part of the `layout` memo. */
  method ArrangeRings(rings: Groups<int, string>, start: Option<string>, width: real, height: real)
    returns (positioned: map<string, Placement>)
    requires forall i :: 0 <= i < |rings.order| ==> rings.order[i] in rings.members
    ensures positioned == Arrange(rings, start, width, height)
  {
    var maxDepth := MaxKey(rings.order);
    var step := RMin(width / 2.0, height / 2.0) / (maxDepth + 2) as real;
    var centre: map<string, Placement> := map[];
    if start.Some? {
      centre := centre[start.value := Centre];
    }
    positioned := PlaceAllRings(centre, rings, step);
  }

  /** Every placed id is drawn where its ring says: `start` at the centre, any
      other id on the circle of its ring's radius, at a fraction of a turn. */
  ghost predicate WellPlaced(pos: map<string, Placement>, levels: map<string, int>, start: Option<string>, step: real)
  {
    forall id :: id in pos ==>
      if start == Some(id) then pos[id] == Centre
      else pos[id].OnRing? && pos[id].radius == RingRadius(Ring(levels, id), step) && 0.0 <= pos[id].turn < 1.0
  }

  lemma {:induction false} PlaceRingSound(pos: map<string, Placement>, levels: map<string, int>, start: Option<string>,
                                          ids: seq<string>, k: nat, d: int, step: real)
    requires k <= |ids| && d != 0
    requires forall id :: id in ids ==> Ring(levels, id) == d
    requires start.Some? ==> Ring(levels, start.value) == 0
    requires WellPlaced(pos, levels, start, step)
    ensures var r := PlaceRing(pos, ids, k, RingRadius(d, step));
            && WellPlaced(r, levels, start, step)
            && pos.Keys <= r.Keys
            && forall j :: 0 <= j < k ==> ids[j] in r
  {
    if k > 0 {
      PlaceRingSound(pos, levels, start, ids, k - 1, d, step);
      var id := ids[k - 1];
      assert id in ids && Ring(levels, id) == d;
      var turn := (k - 1) as real / |ids| as real;
      assert 0.0 <= turn < 1.0 by {
        assert (k - 1) as real < |ids| as real;
      }
    }
  }

  lemma {:induction false} PlaceRingsSound(rings: Groups<int, string>, levels: map<string, int>, start: Option<string>,
                                           pos: map<string, Placement>, k: nat, step: real)
    requires Valid(rings) && k <= |rings.order|
    requires forall d, id :: d in rings.members && id in rings.members[d] ==> Ring(levels, id) == d
    requires start.Some? ==> Ring(levels, start.value) == 0
    requires WellPlaced(pos, levels, start, step)
    ensures var r := PlaceRings(pos, rings, k, step);
            && WellPlaced(r, levels, start, step)
            && pos.Keys <= r.Keys
            && forall j, id :: 0 <= j < k && rings.order[j] != 0 && id in rings.members[rings.order[j]] ==> id in r
  {
    if k > 0 {
      PlaceRingsSound(rings, levels, start, pos, k - 1, step);
      var d := rings.order[k - 1];
      var prev := PlaceRings(pos, rings, k - 1, step);
      if d == 0 {
        assert PlaceRings(pos, rings, k, step) == prev;
      } else {
        var ids := rings.members[d];
        PlaceRingSound(prev, levels, start, ids, |ids|, d, step);
        var r := PlaceRings(pos, rings, k, step);
        assert r == PlaceRing(prev, ids, |ids|, RingRadius(d, step));
        forall j, id | 0 <= j < k && rings.order[j] != 0 && id in rings.members[rings.order[j]] ensures id in r {
          if j == k - 1 {
            var i :| 0 <= i < |ids| && ids[i] == id;
          }
        }
      }
    }
  }

  /** Every ring group holds only ids of that ring. */
  lemma RingsKeyed(nodes: seq<ChartNode>, levels: map<string, int>)
    ensures var rings := Rings(nodes, levels);
            forall d, id :: d in rings.members && id in rings.members[d] ==> Ring(levels, id) == d
  {
    var rings := Rings(nodes, levels);
    forall d, id | d in rings.members && id in rings.members[d] ensures Ring(levels, id) == d {
      RingHoldsItsIds(nodes, levels, d);
    }
  }

  /** Every displayed id is drawn: the first displayed id at the centre, and
      every other id on the circle of its ring, at a fraction of a turn. Rings
      of ids the search did not reach are ring 1. */
  lemma MindMapPositions(nodes: seq<ChartNode>, adj: map<string, seq<string>>, levels: map<string, int>,
                         clientWidth: Option<nat>, clientHeight: Option<nat>)
    requires StartOf(nodes).None? ==> levels == map[]
    requires StartOf(nodes).Some? ==> ShortestLevels(adj, StartOf(nodes).value, levels)
    ensures var rings := Rings(nodes, levels);
            var step := RadiusStep(Measured(clientWidth, 1200), Measured(clientHeight, 800), MaxKey(rings.order));
            var r := MindMapOf(nodes, levels, clientWidth, clientHeight);
            forall i :: 0 <= i < |nodes| ==>
              && nodes[i].id in r
              && (StartOf(nodes) == Some(nodes[i].id) ==> r[nodes[i].id] == Centre)
              && (StartOf(nodes) != Some(nodes[i].id) ==>
                    && r[nodes[i].id].OnRing?
                    && r[nodes[i].id].radius == RingRadius(Ring(levels, nodes[i].id), step)
                    && 0.0 <= r[nodes[i].id].turn < 1.0)
  {
    var rings := Rings(nodes, levels);
    var start := StartOf(nodes);
    var step := RadiusStep(Measured(clientWidth, 1200), Measured(clientHeight, 800), MaxKey(rings.order));
    var r := MindMapOf(nodes, levels, clientWidth, clientHeight);
    if start.Some? {
      LevelsFromStart(adj, start.value, levels, start.value);
    }
    RingsKeyed(nodes, levels);
    PlaceRingsSound(rings, levels, start, CentreOf(start), |rings.order|, step);
    forall i | 0 <= i < |nodes| ensures nodes[i].id in r {
      var id := nodes[i].id;
      IdInItsRing(nodes, levels, i);
      var d := Ring(levels, id);
      if d == 0 {
        LevelsFromStart(adj, start.value, levels, id);
      } else {
        var j :| 0 <= j < |rings.order| && rings.order[j] == d;
      }
    }
  }

  /** Outer rings are further out: the radius grows strictly with the ring. */
  lemma RadiusGrows(d: int, e: int, step: real)
    requires d < e && step > 0.0
    ensures RingRadius(d, step) < RingRadius(e, step)
  {
    assert RingRadius(e, step) - RingRadius(d, step) == (e - d) as real * step;
  }

  /** Every ring up to the deepest fits inside the container: its radius is
      positive and below half the smaller side. */
  lemma RingsInside(width: real, height: real, maxDepth: int, d: int)
    requires width > 0.0 && height > 0.0 && 0 <= d <= maxDepth
    ensures 0.0 < RingRadius(d, RadiusStep(width, height, maxDepth)) < RMin(width / 2.0, height / 2.0)
  {
    var m := RMin(width / 2.0, height / 2.0);
    var n := (maxDepth + 2) as real;
    var step := m / n;
    assert m > 0.0 && n >= 2.0;
    assert step * n == m;
    assert step > 0.0;
    assert RadiusStep(width, height, maxDepth) == step;
    assert d as real + 0.5 < n;
    ScaleBelow(d as real + 0.5, n, step);
  }

  lemma ScaleBelow(a: real, b: real, c: real)
    requires 0.0 < a < b && c > 0.0
    ensures 0.0 < a * c < b * c
  {
  }

  /** Distinct ids on a ring are spread evenly: the `i`-th is `i / |ids|` of a turn round. */
  lemma {:induction false} RingTurns(pos: map<string, Placement>, ids: seq<string>, k: nat, radius: real, i: nat)
    requires k <= |ids| && i < k
    requires forall a, b :: 0 <= a < b < |ids| ==> ids[a] != ids[b]
    ensures var r := PlaceRing(pos, ids, k, radius);
            ids[i] in r && r[ids[i]] == OnRing(radius, i as real / |ids| as real)
  {
    if i < k - 1 {
      RingTurns(pos, ids, k - 1, radius, i);
      assert ids[i] != ids[k - 1];
    }
  }

  /** A displayed id no directed path reaches from the start lands in ring 1. */
  lemma UnreachedInRingOne(adj: map<string, seq<string>>, start: string, levels: map<string, int>, id: string)
    requires ShortestLevels(adj, start, levels)
    requires forall p :: IsPath(adj, p) && p[0] == start ==> p[|p| - 1] != id
    ensures Ring(levels, id) == 1
  {
    LevelledIffReachable(adj, start, levels, id);
  }
}
