/** The suggestion engine of src/utils/assistant.ts: score every process of the
    library against a free-text problem and a list of requested feature classes,
    keep the positive scores, rank them and return at most six processes. */
module Assistant {
  import opened Types
  import opened Text
  import opened I18n

  /** The number of processes a suggestion list holds at most. */
  const MaxSuggestions: nat := 6

  /** `normalize`: lower-casing (the Unicode decomposition step is not modelled). */
  function Normalize(text: string): string
  {
    Lower(text)
  }

  /** A process together with the score it received. */
  datatype Scored = Scored(proc: Process, score: nat)

  /** How many of a process's classes have a canonical key in the requested set;
      a class listed twice counts twice. */
  function ClassMatches(classes: seq<string>, requested: set<string>): (n: nat)
    ensures n <= |classes|
  {
    if classes == [] then 0
    else
      var last := if ToCanonicalKeyword(classes[|classes| - 1]) in requested then 1 else 0;
      ClassMatches(classes[..|classes| - 1], requested) + last
  }

  /** The match count is the number of positions whose canonical key is requested. */
  lemma {:induction false} ClassMatchesCount(classes: seq<string>, requested: set<string>)
    ensures ClassMatches(classes, requested) == |RequestedPositions(CanonicalKeys(classes), requested)|
  {
    if classes != [] {
      var front := classes[..|classes| - 1];
      var key := ToCanonicalKeyword(classes[|classes| - 1]);
      ClassMatchesCount(front, requested);
      RequestedPositionsSnoc(CanonicalKeys(front), key, requested);
      KeysSnoc(classes);
    }
  }

  /** The canonical key of each class, in order. */
  function CanonicalKeys(classes: seq<string>): seq<string>
  {
    seq(|classes|, i requires 0 <= i < |classes| => ToCanonicalKeyword(classes[i]))
  }

  /** The positions of the keys that are requested. */
  function RequestedPositions(keys: seq<string>, requested: set<string>): set<nat>
  {
    set i: nat | i < |keys| && keys[i] in requested
  }

  /** The keys of a non-empty list are the keys of its front, then the last class's key. */
  lemma KeysSnoc(classes: seq<string>)
    requires classes != []
    ensures CanonicalKeys(classes)
            == CanonicalKeys(classes[..|classes| - 1]) + [ToCanonicalKeyword(classes[|classes| - 1])]
  {
    PrefixIndex(classes, |classes| - 1);
  }

  /** Appending a key adds its position exactly when it is requested. */
  lemma RequestedPositionsSnoc(keys: seq<string>, key: string, requested: set<string>)
    ensures |keys| !in RequestedPositions(keys, requested)
    ensures RequestedPositions(keys + [key], requested)
            == RequestedPositions(keys, requested) + (if key in requested then {|keys|} else {})
  {
    var all := keys + [key];
    forall i: nat | i < |keys| ensures all[i] == keys[i] { }
  }

  /** The score of one process: +3 when the normalised query is non-empty and
      occurs in the normalised "translated name, space, id"; +4 per matching
      class; +1 for a main process. */
  function Score(proc: Process, query: string, requested: set<string>): nat
  {
    (if query != "" && Includes(Normalize(TranslateLabel(proc.name) + " " + proc.id), query) then 3 else 0)
    + 4 * ClassMatches(OrEmpty(proc.merkmalsklassen), requested)
    + (if proc.kind == Hauptprozess then 1 else 0)
  }

  /** The canonical keys of the requested classes. */
  function RequestedKeys(classes: seq<string>): set<string>
  {
    set m | m in classes :: ToCanonicalKeyword(m)
  }

  /** The processes with a positive score, in library order. */
  function ScoredPositive(procs: seq<Process>, query: string, requested: set<string>): (r: seq<Scored>)
    ensures |r| <= |procs|
    ensures forall x :: x in r ==> x.score > 0 && x.proc in procs && x.score == Score(x.proc, query, requested)
    ensures forall p :: p in procs && Score(p, query, requested) > 0 ==> Scored(p, Score(p, query, requested)) in r
  {
    if procs == [] then []
    else
      var rest := ScoredPositive(procs[..|procs| - 1], query, requested);
      var p := procs[|procs| - 1];
      var s := Score(p, query, requested);
      assert procs == procs[..|procs| - 1] + [p];
      if s > 0 then rest + [Scored(p, s)] else rest
  }

  /** The library's processes whose score is `v` and positive, in library
      order, each paired with `v`. */
  function ScoredAt(procs: seq<Process>, query: string, requested: set<string>, v: nat): seq<Scored>
  {
    if procs == [] then []
    else
      var p := procs[|procs| - 1];
      var s := Score(p, query, requested);
      ScoredAt(procs[..|procs| - 1], query, requested, v) + (if s == v && s > 0 then [Scored(p, v)] else [])
  }

  /** The kept entries of each score are the library's processes of that
      score, in library order. */
  lemma {:induction false} ScoredPositiveInOrder(procs: seq<Process>, query: string, requested: set<string>, v: nat)
    ensures WithScore(ScoredPositive(procs, query, requested), v) == ScoredAt(procs, query, requested, v)
  {
    if procs != [] {
      var init, p := procs[..|procs| - 1], procs[|procs| - 1];
      var s := Score(p, query, requested);
      ScoredPositiveInOrder(init, query, requested, v);
      if s > 0 {
        WithScoreAppend(ScoredPositive(init, query, requested), [Scored(p, s)], v);
        WithScoreCons(Scored(p, s), [], v);
      }
    }
  }

  /** Scores never increase along the list. */
  ghost predicate NonIncreasing(s: seq<Scored>)
  {
    forall i, j :: 0 <= i < j < |s| ==> s[i].score >= s[j].score
  }

  /** Stable insertion: `x` goes after every element scoring at least as much. */
  function Insert(x: Scored, s: seq<Scored>): seq<Scored>
  {
    if s == [] then [x]
    else if s[0].score >= x.score then [s[0]] + Insert(x, s[1..])
    else [x] + s
  }

  /** The library's stable sort by descending score (`Array.prototype.sort`
      with comparator `b.score - a.score`), as an insertion sort. */
  function SortByScore(s: seq<Scored>): seq<Scored>
  {
    if s == [] then [] else Insert(s[|s| - 1], SortByScore(s[..|s| - 1]))
  }

  lemma {:induction false} InsertPermutes(x: Scored, s: seq<Scored>)
    ensures multiset(Insert(x, s)) == multiset(s) + multiset{x}
  {
    if s != [] && s[0].score >= x.score {
      InsertPermutes(x, s[1..]);
      assert s == [s[0]] + s[1..];
    }
  }

  lemma TailNonIncreasing(s: seq<Scored>)
    requires s != [] && NonIncreasing(s)
    ensures NonIncreasing(s[1..])
  {
    forall i, j | 0 <= i < j < |s| - 1 ensures s[1..][i].score >= s[1..][j].score {
      assert s[1..][i] == s[i + 1] && s[1..][j] == s[j + 1];
    }
  }

  lemma {:induction false} InsertSorted(x: Scored, s: seq<Scored>)
    requires NonIncreasing(s)
    ensures NonIncreasing(Insert(x, s))
  {
    if s != [] && s[0].score >= x.score {
      var t := Insert(x, s[1..]);
      TailNonIncreasing(s);
      InsertSorted(x, s[1..]);
      InsertPermutes(x, s[1..]);
      var r := [s[0]] + t;
      assert Insert(x, s) == r;
      forall i, j | 0 <= i < j < |r| ensures r[i].score >= r[j].score {
        assert r[j] == t[j - 1];
        if i == 0 {
          assert t[j - 1] in multiset(t);
          assert t[j - 1] in multiset(s[1..]) + multiset{x};
          if t[j - 1] != x {
            var k :| 0 <= k < |s[1..]| && s[1..][k] == t[j - 1];
            assert s[k + 1] == t[j - 1];
          }
        } else {
          assert r[i] == t[i - 1];
        }
      }
    }
  }

  /** The sort is a permutation. */
  lemma {:induction false} SortPermutes(s: seq<Scored>)
    ensures multiset(SortByScore(s)) == multiset(s)
  {
    if s != [] {
      SortPermutes(s[..|s| - 1]);
      InsertPermutes(s[|s| - 1], SortByScore(s[..|s| - 1]));
      assert s == s[..|s| - 1] + [s[|s| - 1]];
    }
  }

  /** Every sorted entry comes from the input. */
  lemma SortedFromInput(s: seq<Scored>)
    ensures forall x :: x in SortByScore(s) ==> x in s
  {
    SortPermutes(s);
    forall x | x in SortByScore(s) ensures x in s {
      assert x in multiset(SortByScore(s));
    }
  }

  /** The sort leaves the scores in non-increasing order. */
  lemma {:induction false} SortSorted(s: seq<Scored>)
    ensures NonIncreasing(SortByScore(s))
  {
    if s != [] {
      SortSorted(s[..|s| - 1]);
      InsertSorted(s[|s| - 1], SortByScore(s[..|s| - 1]));
    }
  }

  /** The elements of `s` with score `v`, in order. */
  function WithScore(s: seq<Scored>, v: nat): seq<Scored>
  {
    if s == [] then [] else (if s[0].score == v then [s[0]] else []) + WithScore(s[1..], v)
  }

  lemma {:induction false} WithScoreAppend(a: seq<Scored>, b: seq<Scored>, v: nat)
    ensures WithScore(a + b, v) == WithScore(a, v) + WithScore(b, v)
  {
    if a == [] {
      assert a + b == b;
    } else {
      ConsAppend(a, b);
      WithScoreCons(a[0], a[1..] + b, v);
      WithScoreCons(a[0], a[1..], v);
      WithScoreAppend(a[1..], b, v);
    }
  }

  lemma {:induction false} WithScoreNone(s: seq<Scored>, v: nat)
    requires forall i :: 0 <= i < |s| ==> s[i].score < v
    ensures WithScore(s, v) == []
  {
    if s != [] {
      assert forall i :: 0 <= i < |s[1..]| ==> s[1..][i] == s[i + 1];
      WithScoreNone(s[1..], v);
    }
  }

  lemma {:induction false} InsertWithScore(x: Scored, s: seq<Scored>, v: nat)
    requires NonIncreasing(s)
    ensures WithScore(Insert(x, s), v) == WithScore(s, v) + (if x.score == v then [x] else [])
  {
    if s == [] {
      assert Insert(x, s) == [x] + [];
      WithScoreCons(x, [], v);
    } else if s[0].score >= x.score {
      var t := Insert(x, s[1..]);
      TailNonIncreasing(s);
      InsertWithScore(x, s[1..], v);
      assert Insert(x, s) == [s[0]] + t;
      WithScoreCons(s[0], t, v);
      WithScoreCons(s[0], s[1..], v);
      Cons(s);
      Assoc(if s[0].score == v then [s[0]] else [], WithScore(s[1..], v), if x.score == v then [x] else []);
    } else {
      assert Insert(x, s) == [x] + s;
      WithScoreCons(x, s, v);
      if x.score == v {
        forall i | 0 <= i < |s| ensures s[i].score < v {
          if i > 0 {
            assert s[0].score >= s[i].score;
          }
        }
        WithScoreNone(s, v);
      }
    }
  }

  /** The entries of score `v` in `[x] + t`. */
  lemma WithScoreCons(x: Scored, t: seq<Scored>, v: nat)
    ensures WithScore([x] + t, v) == (if x.score == v then [x] else []) + WithScore(t, v)
  {
    Parts(x, t);
  }

  /** The sort is stable: the elements of each score keep their relative order. */
  lemma {:induction false} SortIsStable(s: seq<Scored>, v: nat)
    ensures WithScore(SortByScore(s), v) == WithScore(s, v)
  {
    if s != [] {
      var init, last := s[..|s| - 1], s[|s| - 1];
      SortIsStable(init, v);
      SortSorted(init);
      InsertWithScore(last, SortByScore(init), v);
      assert s == init + [last];
      WithScoreAppend(init, [last], v);
    }
  }

  /** All positive-scored processes, ranked. */
  function Ranked(problem: string, classes: seq<string>, lib: LibraryData): seq<Scored>
  {
    SortByScore(ScoredPositive(lib.processes, Normalize(problem), RequestedKeys(classes)))
  }

  /** `suggestProcesses` as a value: the first six ranked processes. */
  function Suggestions(problem: string, classes: seq<string>, lib: LibraryData): seq<Process>
  {
    var ranked := Ranked(problem, classes, lib);
    var n := if |ranked| < MaxSuggestions then |ranked| else MaxSuggestions;
    seq(n, i requires 0 <= i < n => ranked[i].proc)
  }

  /** What the suggestion list promises: at most six library processes, each the
      process of a positive-scored ranked entry, in rank order with scores never
      increasing; every positive-scored process left out scores no higher than
      any returned one. */
  lemma SuggestionsAtMost(problem: string, classes: seq<string>, lib: LibraryData)
    ensures |Suggestions(problem, classes, lib)| <= MaxSuggestions
  {
    SuggestionsShape(problem, classes, lib);
  }

  lemma SuggestionsShape(problem: string, classes: seq<string>, lib: LibraryData)
    ensures var r := Suggestions(problem, classes, lib);
            var ranked := Ranked(problem, classes, lib);
            && |r| <= MaxSuggestions
            && |r| == (if |ranked| < MaxSuggestions then |ranked| else MaxSuggestions)
            && (forall i :: 0 <= i < |r| ==> r[i] == ranked[i].proc && r[i] in lib.processes && ranked[i].score > 0)
            && NonIncreasing(ranked)
            && (forall i, j :: 0 <= i < |r| <= j < |ranked| ==> ranked[j].score <= ranked[i].score)
  {
    var q, mk := Normalize(problem), RequestedKeys(classes);
    var pos := ScoredPositive(lib.processes, q, mk);
    var ranked := Ranked(problem, classes, lib);
    SortedFromInput(pos);
    SortSorted(pos);
  }

  /** Ties keep library order: for every score, the ranked entries with that
      score are exactly the library's processes with that score, in library order. */
  lemma RankedIsStable(problem: string, classes: seq<string>, lib: LibraryData, v: nat)
    ensures WithScore(Ranked(problem, classes, lib), v)
         == WithScore(ScoredPositive(lib.processes, Normalize(problem), RequestedKeys(classes)), v)
  {
    SortIsStable(ScoredPositive(lib.processes, Normalize(problem), RequestedKeys(classes)), v);
  }

  /** Ties keep library order, stated over the library itself. */
  lemma RankedInLibraryOrder(problem: string, classes: seq<string>, lib: LibraryData, v: nat)
    ensures WithScore(Ranked(problem, classes, lib), v) == ScoredAt(lib.processes, Normalize(problem), RequestedKeys(classes), v)
  {
    RankedIsStable(problem, classes, lib, v);
    ScoredPositiveInOrder(lib.processes, Normalize(problem), RequestedKeys(classes), v);
  }

  /** A library process with a positive score that is not suggested was cut
      off: six processes are suggested, and each scores at least as much. */
  lemma LeftOutScoresNoHigher(problem: string, classes: seq<string>, lib: LibraryData, p: Process)
    requires p in lib.processes && Score(p, Normalize(problem), RequestedKeys(classes)) > 0
    requires p !in Suggestions(problem, classes, lib)
    ensures var r := Suggestions(problem, classes, lib);
            var ranked := Ranked(problem, classes, lib);
            && |r| == MaxSuggestions
            && forall i :: 0 <= i < |r| ==> Score(p, Normalize(problem), RequestedKeys(classes)) <= ranked[i].score
  {
    var q, mk := Normalize(problem), RequestedKeys(classes);
    var pos := ScoredPositive(lib.processes, q, mk);
    var ranked := Ranked(problem, classes, lib);
    var r := Suggestions(problem, classes, lib);
    var x := Scored(p, Score(p, q, mk));
    assert x in pos;
    SortPermutes(pos);
    assert x in multiset(ranked);
    var j :| 0 <= j < |ranked| && ranked[j] == x;
    SuggestionsShape(problem, classes, lib);
  }

  /** A main process always scores at least 1, so it is only ever left out by the cut at six. */
  lemma MainProcessScoresPositive(proc: Process, query: string, requested: set<string>)
    requires proc.kind == Hauptprozess
    ensures Score(proc, query, requested) >= 1
  {
  }

  /** A sub-process with no query match and no matching class scores 0 and is never suggested. */
  lemma NoSignalNoSuggestion(problem: string, classes: seq<string>, lib: LibraryData, proc: Process)
    requires proc.kind == Teilprozess
    requires !(Normalize(problem) != "" && Includes(Normalize(TranslateLabel(proc.name) + " " + proc.id), Normalize(problem)))
    requires ClassMatches(OrEmpty(proc.merkmalsklassen), RequestedKeys(classes)) == 0
    ensures proc !in Suggestions(problem, classes, lib)
  {
    var q, mk := Normalize(problem), RequestedKeys(classes);
    var pos := ScoredPositive(lib.processes, q, mk);
    var ranked := Ranked(problem, classes, lib);
    var r := Suggestions(problem, classes, lib);
    SortedFromInput(pos);
    forall i | 0 <= i < |r| ensures r[i] != proc {
      assert ranked[i] in ranked;
    }
  }

  /** Class matches add up over concatenation, so a duplicated tag counts twice. */
  lemma {:induction false} ClassMatchesAppend(a: seq<string>, b: seq<string>, requested: set<string>)
    ensures ClassMatches(a + b, requested) == ClassMatches(a, requested) + ClassMatches(b, requested)
    decreases |b|
  {
    if b == [] {
      assert a + b == a;
    } else {
      assert (a + b)[..|a + b| - 1] == a + b[..|b| - 1];
      assert (a + b)[|a + b| - 1] == b[|b| - 1];
      ClassMatchesAppend(a, b[..|b| - 1], requested);
    }
  }

  /** The inner loop of the scoring: four points per matching class, counted one class at a time. */
  method CountClassMatches(ms: seq<string>, mk: set<string>) returns (points: nat)
    ensures points == 4 * ClassMatches(ms, mk)
  {
    points := 0;
    for j := 0 to |ms|
      invariant points == 4 * ClassMatches(ms[..j], mk)
    {
      assert ms[..j + 1][..j] == ms[..j];
      if ToCanonicalKeyword(ms[j]) in mk {
        points := points + 4;
      }
    }
    assert ms[..|ms|] == ms;
  }

  /** The body of the scoring loop: the score of one process, computed step by step. */
  method ScoreProcess(proc: Process, p: string, mk: set<string>) returns (score: nat)
    ensures score == Score(proc, p, mk)
  {
    score := 0;
    var title := Normalize(TranslateLabel(proc.name) + " " + proc.id);
    if p != "" && Includes(title, p) {
      score := score + 3;
    }
    var points := CountClassMatches(OrEmpty(proc.merkmalsklassen), mk);
    score := score + points;
    if proc.kind == Hauptprozess {
      score := score + 1;
    }
  }

  /** `suggestProcesses`: the scoring loop over the library, the sort and the cut at six. */
  method SuggestProcesses(problem: string, classes: seq<string>, lib: LibraryData) returns (r: seq<Process>)
    ensures r == Suggestions(problem, classes, lib)
  {
    var p := Normalize(problem);
    var mk := RequestedKeys(classes);
    var scored: seq<Scored> := [];
    for i := 0 to |lib.processes|
      invariant scored == ScoredPositive(lib.processes[..i], p, mk)
    {
      var proc := lib.processes[i];
      var score := ScoreProcess(proc, p, mk);
      assert lib.processes[..i + 1][..i] == lib.processes[..i];
      if score > 0 {
        scored := scored + [Scored(proc, score)];
      }
    }
    assert lib.processes[..|lib.processes|] == lib.processes;
    scored := SortByScore(scored);
    var n := if |scored| < MaxSuggestions then |scored| else MaxSuggestions;
    r := seq(n, k requires 0 <= k < n => scored[k].proc);
  }
}
