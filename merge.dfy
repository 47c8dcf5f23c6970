/** `mergeById` and `mergeEdges` of src/store/useFlowchartStore.ts: a
    last-write-wins merge through a JavaScript `Map`, whose keys keep their
    first-insertion order while `set` on an existing key replaces its value in place. */
module Merge {
  import opened Types

  /** A `Map` from string keys: the keys in insertion order, and the values. */
  datatype KeyedMap<T> = KeyedMap(keys: seq<string>, vals: map<string, T>)

  /** Keys are listed once each, and exactly the keys that have a value. */
  ghost predicate Valid<T>(m: KeyedMap<T>)
  {
    && (forall i, j :: 0 <= i < j < |m.keys| ==> m.keys[i] != m.keys[j])
    && (forall k :: k in m.vals <==> k in m.keys)
  }

  /** Every value sits under its own key. */
  ghost predicate Coherent<T>(m: KeyedMap<T>, getId: T -> string)
  {
    forall k :: k in m.vals ==> getId(m.vals[k]) == k
  }

  /** `Map.prototype.set`. */
  function Put<T>(m: KeyedMap<T>, k: string, v: T): KeyedMap<T>
  {
    KeyedMap(if k in m.vals then m.keys else m.keys + [k], m.vals[k := v])
  }

  /** Setting every element of `xs` under its key, in order. */
  function PutAll<T>(m: KeyedMap<T>, xs: seq<T>, getId: T -> string): (r: KeyedMap<T>)
    requires Valid(m)
    ensures Valid(r)
    ensures Coherent(m, getId) ==> Coherent(r, getId)
  {
    if xs == [] then m
    else
      var prev := PutAll(m, xs[..|xs| - 1], getId);
      var x := xs[|xs| - 1];
      var r := Put(prev, getId(x), x);
      assert forall k :: k in r.vals <==> k in r.keys;
      r
  }

  /** The Map built from a list, as `new Map(a.map(...))` builds it. */
  function Inserted<T>(xs: seq<T>, getId: T -> string): KeyedMap<T>
  {
    PutAll(KeyedMap([], map[]), xs, getId)
  }

  /** `Array.from(map.values())`. */
  function Values<T>(m: KeyedMap<T>): seq<T>
    requires Valid(m)
  {
    seq(|m.keys|, i requires 0 <= i < |m.keys| => m.vals[m.keys[i]])
  }

  /** `mergeById(a, b, getId)` as a value. */
  function Merged<T>(a: seq<T>, b: seq<T>, getId: T -> string): seq<T>
  {
    Values(Inserted(a + b, getId))
  }

  /** The last element of `xs` with key `k`. */
  function LastWithKey<T>(xs: seq<T>, k: string, getId: T -> string): (r: Option<T>)
    ensures r.None? <==> forall i :: 0 <= i < |xs| ==> getId(xs[i]) != k
    ensures r.Some? ==> exists i :: 0 <= i < |xs| && xs[i] == r.value && getId(xs[i]) == k
                                    && forall j :: i < j < |xs| ==> getId(xs[j]) != k
  {
    if xs == [] then None
    else if getId(xs[|xs| - 1]) == k then Some(xs[|xs| - 1])
    else LastWithKey(xs[..|xs| - 1], k, getId)
  }

  /** The later list wins: a key's last record in `a + b` is its last record in
      `b` when `b` has one, and in `a` otherwise. */
  lemma {:induction false} LastWithKeyAppend<T>(a: seq<T>, b: seq<T>, k: string, getId: T -> string)
    ensures LastWithKey(a + b, k, getId)
         == if LastWithKey(b, k, getId).Some? then LastWithKey(b, k, getId) else LastWithKey(a, k, getId)
    decreases |b|
  {
    if b == [] {
      assert a + b == a;
    } else {
      assert (a + b)[..|a + b| - 1] == a + b[..|b| - 1];
      assert (a + b)[|a + b| - 1] == b[|b| - 1];
      LastWithKeyAppend(a, b[..|b| - 1], k, getId);
    }
  }

  /** The contents of the Map built from `xs`: a key has a value exactly when
      some element has that key, and the value is the last such element. */
  lemma {:induction false} InsertedContents<T>(xs: seq<T>, getId: T -> string)
    ensures var m := Inserted(xs, getId);
            && Valid(m) && Coherent(m, getId)
            && forall k :: (k in m.vals <==> LastWithKey(xs, k, getId).Some?)
                           && (k in m.vals ==> LastWithKey(xs, k, getId) == Some(m.vals[k]))
  {
    if xs != [] {
      InsertedContents(xs[..|xs| - 1], getId);
    }
  }

  /** Key `k` occurs in `xs` before the first occurrence of key `l`. */
  predicate OccursBefore<T>(xs: seq<T>, k: string, l: string, getId: T -> string)
  {
    exists p :: 0 <= p < |xs| && getId(xs[p]) == k && forall q :: 0 <= q <= p ==> getId(xs[q]) != l
  }

  /** The Map's keys are in first-appearance order. */
  lemma {:induction false} InsertedOrder<T>(xs: seq<T>, getId: T -> string)
    ensures var m := Inserted(xs, getId);
            forall i, j :: 0 <= i < j < |m.keys| ==> OccursBefore(xs, m.keys[i], m.keys[j], getId)
  {
    if xs != [] {
      var init := xs[..|xs| - 1];
      var x := xs[|xs| - 1];
      InsertedOrder(init, getId);
      InsertedContents(init, getId);
      var prev := Inserted(init, getId);
      var m := Inserted(xs, getId);
      PrefixIndex(xs, |init|);
      forall i, j | 0 <= i < j < |m.keys| ensures OccursBefore(xs, m.keys[i], m.keys[j], getId) {
        assert m.keys == prev.keys || m.keys == prev.keys + [getId(x)];
        if j < |prev.keys| {
          assert m.keys[i] == prev.keys[i] && m.keys[j] == prev.keys[j];
          OccursBeforeExtend(init, xs, prev.keys[i], prev.keys[j], getId);
        } else {
          assert m.keys[j] == getId(x) && getId(x) !in prev.vals;
          assert m.keys[i] == prev.keys[i] && prev.keys[i] in prev.vals;
          OccursBeforeNew(init, xs, prev.keys[i], getId(x), getId);
        }
      }
    }
  }

  /** An order between two keys survives appending to the list. */
  lemma OccursBeforeExtend<T>(init: seq<T>, xs: seq<T>, k: string, l: string, getId: T -> string)
    requires |init| <= |xs| && forall q :: 0 <= q < |init| ==> xs[..|init|][q] == xs[q]
    requires init == xs[..|init|]
    requires OccursBefore(init, k, l, getId)
    ensures OccursBefore(xs, k, l, getId)
  {
    var p :| 0 <= p < |init| && getId(init[p]) == k && forall q :: 0 <= q <= p ==> getId(init[q]) != l;
    assert forall q :: 0 <= q <= p ==> xs[q] == init[q];
  }

  /** A key present in the list occurs before a key that is not. */
  lemma OccursBeforeNew<T>(init: seq<T>, xs: seq<T>, k: string, l: string, getId: T -> string)
    requires |init| <= |xs| && forall q :: 0 <= q < |init| ==> xs[..|init|][q] == xs[q]
    requires init == xs[..|init|]
    requires LastWithKey(init, k, getId).Some?
    requires LastWithKey(init, l, getId).None?
    ensures OccursBefore(xs, k, l, getId)
  {
    var p :| 0 <= p < |init| && init[p] == LastWithKey(init, k, getId).value && getId(init[p]) == k;
    assert forall q :: 0 <= q <= p ==> xs[q] == init[q];
  }

  /** The merged list reads the Map's values in key order. */
  lemma MergedEntries<T>(a: seq<T>, b: seq<T>, getId: T -> string)
    ensures var m := Inserted(a + b, getId);
            var r := Merged(a, b, getId);
            && Valid(m) && |r| == |m.keys|
            && forall i :: 0 <= i < |r| ==> m.keys[i] in m.vals && r[i] == m.vals[m.keys[i]] && getId(r[i]) == m.keys[i]
  {
    InsertedContents(a + b, getId);
  }

  /** Keys are unique, and every key of either input is present. */
  lemma MergedKeys<T>(a: seq<T>, b: seq<T>, getId: T -> string)
    ensures var r := Merged(a, b, getId);
            && (forall i, j :: 0 <= i < j < |r| ==> getId(r[i]) != getId(r[j]))
            && (forall x :: x in a + b ==> exists i :: 0 <= i < |r| && getId(r[i]) == getId(x))
  {
    var xs := a + b;
    var m := Inserted(xs, getId);
    var r := Merged(a, b, getId);
    InsertedContents(xs, getId);
    MergedEntries(a, b, getId);
    forall x | x in xs ensures exists i :: 0 <= i < |r| && getId(r[i]) == getId(x) {
      var p :| 0 <= p < |xs| && xs[p] == x;
      assert LastWithKey(xs, getId(x), getId).Some?;
      var i :| 0 <= i < |m.keys| && m.keys[i] == getId(x);
      assert getId(r[i]) == getId(x);
    }
  }

  /** Nothing but input records is present, and each is its key's last record,
      taken from `b` when `b` has one and from `a` otherwise. */
  lemma MergedValues<T>(a: seq<T>, b: seq<T>, getId: T -> string)
    ensures var r := Merged(a, b, getId);
            && (forall i :: 0 <= i < |r| ==> r[i] in a + b)
            && (forall i :: 0 <= i < |r| ==>
                  r[i] == (if LastWithKey(b, getId(r[i]), getId).Some? then LastWithKey(b, getId(r[i]), getId).value
                           else LastWithKey(a, getId(r[i]), getId).value))
  {
    var xs := a + b;
    var m := Inserted(xs, getId);
    var r := Merged(a, b, getId);
    InsertedContents(xs, getId);
    MergedEntries(a, b, getId);
    forall i | 0 <= i < |r|
      ensures r[i] in xs
      ensures r[i] == (if LastWithKey(b, getId(r[i]), getId).Some? then LastWithKey(b, getId(r[i]), getId).value
                       else LastWithKey(a, getId(r[i]), getId).value)
    {
      assert LastWithKey(xs, m.keys[i], getId) == Some(r[i]);
      LastRecordValue(a, b, r[i], getId);
    }
  }

  /** A record that is its key's last in `a + b` is an input record, taken from
      `b` when `b` has that key and from `a` otherwise. */
  lemma LastRecordValue<T>(a: seq<T>, b: seq<T>, v: T, getId: T -> string)
    requires LastWithKey(a + b, getId(v), getId) == Some(v)
    ensures v in a + b
    ensures v == (if LastWithKey(b, getId(v), getId).Some? then LastWithKey(b, getId(v), getId).value
                  else LastWithKey(a, getId(v), getId).value)
  {
    var xs := a + b;
    var w :| 0 <= w < |xs| && xs[w] == LastWithKey(xs, getId(v), getId).value && getId(xs[w]) == getId(v);
    LastWithKeyAppend(a, b, getId(v), getId);
  }

  /** Keys keep the order of their first appearance in `a + b`. */
  lemma MergedOrder<T>(a: seq<T>, b: seq<T>, getId: T -> string)
    ensures var r := Merged(a, b, getId);
            forall i, j :: 0 <= i < j < |r| ==> OccursBefore(a + b, getId(r[i]), getId(r[j]), getId)
  {
    InsertedOrder(a + b, getId);
    MergedEntries(a, b, getId);
  }

  /** A key-unique list merged with itself comes back unchanged. */
  lemma MergeSelf<T>(a: seq<T>, getId: T -> string)
    requires forall i, j :: 0 <= i < j < |a| ==> getId(a[i]) != getId(a[j])
    ensures Merged(a, a, getId) == a
  {
    UniqueInserted(a, getId);
    var m := Inserted(a, getId);
    PutAllAppend(KeyedMap([], map[]), a, a, getId);
    PutAllPresent(m, a, getId);
  }

  /** Inserting a key-unique list keeps its keys in order, each value under its key. */
  lemma {:induction false} UniqueInserted<T>(a: seq<T>, getId: T -> string)
    requires forall i, j :: 0 <= i < j < |a| ==> getId(a[i]) != getId(a[j])
    ensures var m := Inserted(a, getId);
            && |m.keys| == |a|
            && forall i :: 0 <= i < |a| ==> m.keys[i] == getId(a[i]) && m.keys[i] in m.vals && m.vals[m.keys[i]] == a[i]
  {
    if a != [] {
      var init := a[..|a| - 1];
      UniqueInserted(init, getId);
      var prev := Inserted(init, getId);
      assert getId(a[|a| - 1]) !in prev.keys by {
        forall i | 0 <= i < |prev.keys| ensures prev.keys[i] != getId(a[|a| - 1]) {
          assert prev.keys[i] == getId(a[i]);
        }
      }
    }
  }

  lemma {:induction false} PutAllAppend<T>(m: KeyedMap<T>, a: seq<T>, b: seq<T>, getId: T -> string)
    requires Valid(m)
    ensures PutAll(m, a + b, getId) == PutAll(PutAll(m, a, getId), b, getId)
    decreases |b|
  {
    if b == [] {
      assert a + b == a;
    } else {
      assert (a + b)[..|a + b| - 1] == a + b[..|b| - 1];
      assert (a + b)[|a + b| - 1] == b[|b| - 1];
      PutAllAppend(m, a, b[..|b| - 1], getId);
    }
  }

  /** Setting records that are already present under their keys changes nothing. */
  lemma {:induction false} PutAllPresent<T>(m: KeyedMap<T>, xs: seq<T>, getId: T -> string)
    requires Valid(m)
    requires forall i :: 0 <= i < |xs| ==> getId(xs[i]) in m.vals && m.vals[getId(xs[i])] == xs[i]
    ensures PutAll(m, xs, getId) == m
  {
    if xs != [] {
      PutAllPresent(m, xs[..|xs| - 1], getId);
      var x := xs[|xs| - 1];
      assert m.vals[getId(x) := x] == m.vals;
    }
  }

  /** `mergeById`: fill a Map from `a`, then set every element of `b`. */
  method MergeById<T>(a: seq<T>, b: seq<T>, getId: T -> string) returns (r: seq<T>)
    ensures r == Merged(a, b, getId)
  {
    var m := SetEach(KeyedMap([], map[]), a, getId);
    m := SetEach(m, b, getId);
    PutAllAppend(KeyedMap([], map[]), a, b, getId);
    r := Values(m);
  }

  /** `for (const x of xs) m.set(getId(x), x)`. */
  method SetEach<T>(m0: KeyedMap<T>, xs: seq<T>, getId: T -> string) returns (m: KeyedMap<T>)
    requires Valid(m0)
    ensures m == PutAll(m0, xs, getId)
  {
    m := m0;
    for i := 0 to |xs|
      invariant m == PutAll(m0, xs[..i], getId)
    {
      PutAllSnoc(m0, xs, i, getId);
      m := Put(m, getId(xs[i]), xs[i]);
    }
    assert xs[..|xs|] == xs;
  }

  /** Setting one more element of `xs` is one more `Put`. */
  lemma PutAllSnoc<T>(m0: KeyedMap<T>, xs: seq<T>, i: nat, getId: T -> string)
    requires Valid(m0) && i < |xs|
    ensures PutAll(m0, xs[..i + 1], getId) == Put(PutAll(m0, xs[..i], getId), getId(xs[i]), xs[i])
  {
    assert xs[..i + 1][..i] == xs[..i];
    assert xs[..i + 1][i] == xs[i];
  }

  /** `mergeEdges`: the same merge keyed by `from->to:type`. */
  method MergeEdges(a: seq<ChartEdge>, b: seq<ChartEdge>) returns (r: seq<ChartEdge>)
    ensures r == Merged(a, b, EdgeKey)
  {
    r := MergeById(a, b, EdgeKey);
  }
}
