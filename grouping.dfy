/** What both canvases (src/components/FlowchartCanvas.tsx and
    src/components/MindMapCanvas.tsx) share: the `Map<number, T[]>` they fill
    while walking the displayed nodes, `if (!m.has(d)) m.set(d, []);
    m.get(d)!.push(x)`, the largest and smallest of its keys, and the measured
    container size. A JavaScript `Map` keeps its keys in first-insertion order,
    so the groups are visited in the order their keys first occur. */
module Grouping {
  import opened Types

  /** The keys in insertion order, and the list under each key. */
  datatype Groups<K, T> = Groups(order: seq<K>, members: map<K, seq<T>>)

  /** Keys are listed once each, and exactly the keys that have a list. */
  ghost predicate Valid<K(!new), T>(g: Groups<K, T>)
  {
    && (forall i, j :: 0 <= i < j < |g.order| ==> g.order[i] != g.order[j])
    && (forall k :: k in g.members <==> k in g.order)
    && (forall i :: 0 <= i < |g.order| ==> g.order[i] in g.members)
  }

  /** Append `x` to the list under `k`, opening the list when `k` is new. */
  function Push<K(==, !new), T>(g: Groups<K, T>, k: K, x: T): Groups<K, T>
  {
    if k in g.members then Groups(g.order, g.members[k := g.members[k] + [x]])
    else Groups(g.order + [k], g.members[k := [x]])
  }

  /** The groups after pushing every `xs[i]` under `ks[i]`, in order. */
  function Grouped<K(==, !new), T>(xs: seq<T>, ks: seq<K>): (g: Groups<K, T>)
    requires |xs| == |ks|
    ensures Valid(g)
  {
    if xs == [] then Groups([], map[])
    else
      var prev := Grouped(xs[..|xs| - 1], ks[..|ks| - 1]);
      var g := Push(prev, ks[|ks| - 1], xs[|xs| - 1]);
      assert forall k :: k in g.members <==> k in g.order;
      g
  }

  /** The elements whose key is `k`, in their original order. */
  function Select<K(==, !new), T>(xs: seq<T>, ks: seq<K>, k: K): (r: seq<T>)
    requires |xs| == |ks|
    ensures |r| <= |xs|
  {
    if xs == [] then []
    else Select(xs[..|xs| - 1], ks[..|ks| - 1], k) + (if ks[|ks| - 1] == k then [xs[|xs| - 1]] else [])
  }

  /** The keys of `ks` in order of first appearance, each once. */
  function Distinct<K(==, !new)>(ks: seq<K>): (r: seq<K>)
    ensures forall i, j :: 0 <= i < j < |r| ==> r[i] != r[j]
    ensures forall k :: k in r <==> k in ks
  {
    if ks == [] then []
    else
      var prev := Distinct(ks[..|ks| - 1]);
      var k := ks[|ks| - 1];
      assert ks == ks[..|ks| - 1] + [k];
      if k in prev then prev else prev + [k]
  }

  /** The total length of the lists under the keys of `order`. */
  function Size<K(==, !new), T>(order: seq<K>, members: map<K, seq<T>>): nat
    requires forall i :: 0 <= i < |order| ==> order[i] in members
  {
    if order == [] then 0
    else
      Size(order[..|order| - 1], members) + |members[order[|order| - 1]]|
  }

  /** The groups are visited in order of first appearance, and the group of a
      key holds exactly the elements with that key, in their original order. */
  lemma {:induction false} GroupedContents<K(!new), T>(xs: seq<T>, ks: seq<K>)
    requires |xs| == |ks|
    ensures var g := Grouped(xs, ks);
            && g.order == Distinct(ks)
            && forall k :: k in g.members ==> g.members[k] == Select(xs, ks, k)
  {
    if xs != [] {
      var n := |xs| - 1;
      GroupedContents(xs[..n], ks[..n]);
      var prev := Grouped(xs[..n], ks[..n]);
      var g := Grouped(xs, ks);
      assert prev.order == Distinct(ks[..n]);
      forall k | k in g.members ensures g.members[k] == Select(xs, ks, k) {
        if k != ks[n] {
          assert g.members[k] == prev.members[k];
        } else if k !in prev.members {
          assert k !in ks[..n];
          SelectAbsent(xs[..n], ks[..n], k);
        }
      }
    }
  }

  /** A key that does not occur selects nothing. */
  lemma {:induction false} SelectAbsent<K(!new), T>(xs: seq<T>, ks: seq<K>, k: K)
    requires |xs| == |ks| && k !in ks
    ensures Select(xs, ks, k) == []
  {
    if xs != [] {
      assert ks == ks[..|ks| - 1] + [ks[|ks| - 1]];
      SelectAbsent(xs[..|xs| - 1], ks[..|ks| - 1], k);
    }
  }

  /** Every element lands in the group of its own key. */
  lemma {:induction false} SelectHas<K(!new), T>(xs: seq<T>, ks: seq<K>, i: nat)
    requires |xs| == |ks| && i < |xs|
    ensures xs[i] in Select(xs, ks, ks[i])
  {
    var n := |xs| - 1;
    if i < n {
      SelectHas(xs[..n], ks[..n], i);
    }
  }

  /** Only elements with key `k` are selected. */
  lemma {:induction false} SelectKeys<K(!new), T>(xs: seq<T>, ks: seq<K>, k: K)
    requires |xs| == |ks|
    ensures forall x :: x in Select(xs, ks, k) ==> exists i :: 0 <= i < |xs| && xs[i] == x && ks[i] == k
  {
    if xs != [] {
      var n := |xs| - 1;
      SelectKeys(xs[..n], ks[..n], k);
      forall x | x in Select(xs, ks, k) ensures exists i :: 0 <= i < |xs| && xs[i] == x && ks[i] == k {
        if x in Select(xs[..n], ks[..n], k) {
          var i :| 0 <= i < n && xs[..n][i] == x && ks[..n][i] == k;
          assert xs[i] == x && ks[i] == k;
        } else {
          assert xs[n] == x && ks[n] == k;
        }
      }
    }
  }

  /** Lists that agree on the keys of `order` have the same total size. */
  lemma {:induction false} SizeFrame<K(!new), T>(order: seq<K>, m: map<K, seq<T>>, m': map<K, seq<T>>)
    requires forall i :: 0 <= i < |order| ==> order[i] in m && order[i] in m' && m[order[i]] == m'[order[i]]
    ensures Size(order, m) == Size(order, m')
  {
    if order != [] {
      SizeFrame(order[..|order| - 1], m, m');
    }
  }

  /** Appending to one listed key adds one to the total. */
  lemma {:induction false} SizeBump<K(!new), T>(order: seq<K>, m: map<K, seq<T>>, k: K, x: T)
    requires forall i, j :: 0 <= i < j < |order| ==> order[i] != order[j]
    requires forall i :: 0 <= i < |order| ==> order[i] in m
    requires k in order
    ensures Size(order, m[k := m[k] + [x]]) == Size(order, m) + 1
  {
    var n := |order| - 1;
    var m' := m[k := m[k] + [x]];
    if order[n] == k {
      assert k !in order[..n];
      SizeFrame(order[..n], m, m');
    } else {
      assert k in order[..n];
      SizeBump(order[..n], m, k, x);
    }
  }

  /** The groups partition the elements: their sizes add up to the number of elements. */
  lemma {:induction false} GroupedSize<K(!new), T>(xs: seq<T>, ks: seq<K>)
    requires |xs| == |ks|
    ensures var g := Grouped(xs, ks); Size(g.order, g.members) == |xs|
  {
    if xs != [] {
      var n := |xs| - 1;
      GroupedSize(xs[..n], ks[..n]);
      var prev := Grouped(xs[..n], ks[..n]);
      var k := ks[n];
      if k in prev.members {
        SizeBump(prev.order, prev.members, k, xs[n]);
      } else {
        var m' := prev.members[k := [xs[n]]];
        assert (prev.order + [k])[..|prev.order|] == prev.order;
        SizeFrame(prev.order, prev.members, m');
      }
    }
  }

  /** `Math.max(...keys, 0)`. */
  function MaxKey(keys: seq<int>): (r: int)
    ensures r >= 0 && forall i :: 0 <= i < |keys| ==> keys[i] <= r
    ensures r == 0 || r in keys
  {
    if keys == [] then 0
    else
      var m := MaxKey(keys[..|keys| - 1]);
      if keys[|keys| - 1] > m then keys[|keys| - 1] else m
  }

  /** `Math.min(...keys, 0)`. */
  function MinKey(keys: seq<int>): (r: int)
    ensures r <= 0 && forall i :: 0 <= i < |keys| ==> r <= keys[i]
    ensures r == 0 || r in keys
  {
    if keys == [] then 0
    else
      var m := MinKey(keys[..|keys| - 1]);
      if keys[|keys| - 1] < m then keys[|keys| - 1] else m
  }

  /** `containerRef.current?.clientWidth ?? fallback`: the container size, or
      the default (1200 by 800) when it is not measured yet. */
  function Measured(client: Option<nat>, fallback: nat): real
  {
    if client.Some? then client.value as real else fallback as real
  }
}
