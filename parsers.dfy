/** The text parsers of src/utils/parsers.ts: `parseArrayField`,
    `parseRangeOrList`, and the conversion of a solution-library JSON file
    (one row per process) into a library. */
module Parsers {
  import opened Types
  import opened Text
  import opened I18n


  // ----- parseArrayField -----

  /** A spreadsheet cell as `parseArrayField` receives it: missing, a string,
      or an array of strings. */
  datatype Cell = Missing | Scalar(text: string) | Items(items: seq<string>)

  /** `.map((x) => x.trim()).filter(Boolean)`: trimmed, blanks dropped, in order. */
  function TrimmedItems(xs: seq<string>): (r: seq<string>)
    ensures |r| <= |xs|
    ensures forall i :: 0 <= i < |r| ==> r[i] != "" && IsTrimmed(r[i])
  {
    if xs == [] then []
    else
      var rest := TrimmedItems(xs[..|xs| - 1]);
      var t := Trim(xs[|xs| - 1]);
      if t == "" then rest else rest + [t]
  }

  /** The separators of `/[,;\n]/`. */
  predicate IsFieldSeparator(c: char)
  {
    c == ',' || c == ';' || c == '\n'
  }

  /** `parseArrayField`: an array is trimmed item by item; a string is trimmed,
      split on commas, semicolons and newlines, and trimmed piece by piece.
      Either way no empty or untrimmed item comes out. */
  function ParseArrayField(v: Cell): (r: seq<string>)
    ensures forall i :: 0 <= i < |r| ==> r[i] != "" && IsTrimmed(r[i])
  {
    match v
    case Items(xs) => TrimmedItems(xs)
    case Missing => []
    case Scalar(s) =>
      var t := Trim(s);
      if t == "" then [] else TrimmedItems(SplitOn(t, IsFieldSeparator))
  }

  /** Trimming a piece free of `isSep` leaves it free of `isSep`. */
  lemma {:induction false} TrimmedItemsFree(xs: seq<string>, isSep: char -> bool)
    requires forall p, i :: p in xs && 0 <= i < |p| ==> !isSep(p[i])
    ensures forall i, k :: 0 <= i < |TrimmedItems(xs)| && 0 <= k < |TrimmedItems(xs)[i]| ==>
              !isSep(TrimmedItems(xs)[i][k])
  {
    if xs != [] {
      var n := |xs| - 1;
      assert forall p :: p in xs[..n] ==> p in xs;
      TrimmedItemsFree(xs[..n], isSep);
      assert xs[n] in xs;
      TrimFree(xs[n], isSep);
    }
  }

  /** Trimming keeps a string free of `isSep`. */
  lemma TrimFree(p: string, isSep: char -> bool)
    requires forall k :: 0 <= k < |p| ==> !isSep(p[k])
    ensures forall k :: 0 <= k < |Trim(p)| ==> !isSep(Trim(p)[k])
  {
    var i, j :| 0 <= i <= j <= |p| && Trim(p) == p[i..j];
    SliceFree(p, i, j, isSep);
  }

  /** A string cell never yields an item holding a separator. */
  lemma ArrayFieldNoSeparators(s: string)
    ensures var r := ParseArrayField(Scalar(s));
            forall i, k :: 0 <= i < |r| && 0 <= k < |r[i]| ==> !IsFieldSeparator(r[i][k])
  {
    var t := Trim(s);
    if t != "" {
      TrimmedItemsFree(SplitOn(t, IsFieldSeparator), IsFieldSeparator);
    }
  }

  /** Items that are already trimmed and non-empty all survive, in order. */
  lemma {:induction false} TrimmedItemsKeep(xs: seq<string>)
    requires forall i :: 0 <= i < |xs| ==> xs[i] != "" && IsTrimmed(xs[i])
    ensures TrimmedItems(xs) == xs
  {
    if xs != [] {
      var n := |xs| - 1;
      TrimmedItemsKeep(xs[..n]);
      TrimOfTrimmed(xs[n]);
    }
  }

  /** Joining non-empty trimmed pieces gives a non-empty trimmed string. */
  lemma {:induction false} JoinTrimmed(xs: seq<string>, sep: string)
    requires |xs| >= 1
    requires forall i :: 0 <= i < |xs| ==> xs[i] != "" && IsTrimmed(xs[i])
    ensures Join(xs, sep) != "" && IsTrimmed(Join(xs, sep))
    ensures Join(xs, sep)[0] == xs[0][0]
    ensures Join(xs, sep)[|Join(xs, sep)| - 1] == xs[|xs| - 1][|xs[|xs| - 1]| - 1]
  {
    if |xs| > 1 {
      JoinTrimmed(xs[1..], sep);
      var j := Join(xs, sep);
      var tail := Join(xs[1..], sep);
      assert j == xs[0] + sep + tail;
      assert j[|j| - 1] == tail[|tail| - 1];
    }
  }

  /** Both kinds of cell give back a list of clean items: the array as it is,
      and the items joined by any one of the separators. */
  lemma ArrayFieldRoundTrip(xs: seq<string>, sep: char)
    requires |xs| >= 1 && IsFieldSeparator(sep)
    requires forall i :: 0 <= i < |xs| ==> xs[i] != "" && IsTrimmed(xs[i])
    requires forall p, i :: p in xs && 0 <= i < |p| ==> !IsFieldSeparator(p[i])
    ensures ParseArrayField(Items(xs)) == xs
    ensures ParseArrayField(Scalar(Join(xs, [sep]))) == xs
  {
    TrimmedItemsKeep(xs);
    JoinTrimmed(xs, [sep]);
    TrimOfTrimmed(Join(xs, [sep]));
    SplitJoin(xs, sep, IsFieldSeparator);
  }

  // ----- parseRangeOrList -----

  /** The dash of the range form: a hyphen or an en dash. */
  predicate IsDash(c: char)
  {
    c == '-' || c == '\U{2013}'
  }

  predicate AllSpace(s: string)
  {
    forall i :: 0 <= i < |s| ==> IsSpace(s[i])
  }

  /** Length of the run of digits at the start of `s`. */
  function LeadingDigits(s: string): (n: nat)
    ensures n <= |s|
    ensures forall i :: 0 <= i < n ==> IsDigit(s[i])
    ensures n < |s| ==> !IsDigit(s[n])
  {
    if s == [] || !IsDigit(s[0]) then 0 else 1 + LeadingDigits(s[1..])
  }

  /** `s.match(/^(\d{3,})\s*[-–]\s*(\d{3,})$/)`: the two digit groups. Digits,
      white space and dashes are disjoint, so the match, when there is one, is
      the longest digit prefix, the longest run of spaces, one dash, the
      longest run of spaces, and digits to the end. */
  function MatchRange(s: string): (r: Option<(string, string)>)
    ensures r.Some? ==> IsIdToken(r.value.0) && IsIdToken(r.value.1)
  {
    var a := LeadingDigits(s);
    var rest := s[a..];
    var t := rest[LeadingSpace(rest)..];
    if a < 3 || t == [] || !IsDash(t[0]) then None
    else
      var u := t[1..];
      var b := u[LeadingSpace(u)..];
      if |b| >= 3 && AllDigits(b) then Some((s[..a], b)) else None
  }

  /** `s` is spelled `first`, spaces `w1`, the dash `d`, spaces `w2`, `last`. */
  predicate RangeSpelling(s: string, first: string, w1: string, d: char, w2: string, last: string)
  {
    && IsIdToken(first) && IsIdToken(last)
    && AllSpace(w1) && IsDash(d) && AllSpace(w2)
    && s == first + (w1 + ([d] + (w2 + last)))
  }

  /** A match is a spelling of the range form. */
  lemma MatchRangeSound(s: string)
    requires MatchRange(s).Some?
    ensures exists w1, d, w2 :: RangeSpelling(s, MatchRange(s).value.0, w1, d, w2, MatchRange(s).value.1)
  {
    var w1, d, w2 := MatchRangeParts(s);
  }

  /** The white space and the dash of a matched range. */
  lemma MatchRangeParts(s: string) returns (w1: string, d: char, w2: string)
    requires MatchRange(s).Some?
    ensures RangeSpelling(s, MatchRange(s).value.0, w1, d, w2, MatchRange(s).value.1)
  {
    var a := LeadingDigits(s);
    var rest := s[a..];
    var n1 := LeadingSpace(rest);
    var t := rest[n1..];
    var u := t[1..];
    var n2 := LeadingSpace(u);
    var b := u[n2..];
    assert MatchRange(s) == Some((s[..a], b));
    SpacePrefix(rest);
    SpacePrefix(u);
    Rejoin(s, a);
    Rejoin(rest, n1);
    Rejoin(t, 1);
    Rejoin(u, n2);
    assert t[..1] == [t[0]];
    Spelled(s, s[..a], rest, rest[..n1], t, t[0], u, u[..n2], b);
    w1, d, w2 := rest[..n1], t[0], u[..n2];
  }

  lemma Spelled<T>(s: seq<T>, first: seq<T>, rest: seq<T>, w1: seq<T>, t: seq<T>, d: T,
                   u: seq<T>, w2: seq<T>, last: seq<T>)
    requires s == first + rest && rest == w1 + t && t == [d] + u && u == w2 + last
    ensures s == first + (w1 + ([d] + (w2 + last)))
  {
  }

  /** The leading run of white space, as a string. */
  lemma SpacePrefix(s: string)
    ensures AllSpace(s[..LeadingSpace(s)])
  {
    var n := LeadingSpace(s);
    assert forall i :: 0 <= i < n ==> s[..n][i] == s[i];
  }

  lemma {:induction false} LeadingDigitsOf(p: string, q: string)
    requires AllDigits(p) && (q == [] || !IsDigit(q[0]))
    ensures LeadingDigits(p + q) == |p|
  {
    if p != [] {
      assert (p + q)[1..] == p[1..] + q;
      LeadingDigitsOf(p[1..], q);
    } else {
      assert p + q == q;
    }
  }

  lemma {:induction false} LeadingSpaceOf(p: string, q: string)
    requires AllSpace(p) && (q == [] || !IsSpace(q[0]))
    ensures LeadingSpace(p + q) == |p|
  {
    if p != [] {
      assert (p + q)[1..] == p[1..] + q;
      LeadingSpaceOf(p[1..], q);
    } else {
      assert p + q == q;
    }
  }

  /** Every spelling of the range form is matched, with its own digit groups. */
  lemma MatchRangeComplete(s: string, first: string, w1: string, d: char, w2: string, last: string)
    requires RangeSpelling(s, first, w1, d, w2, last)
    ensures MatchRange(s) == Some((first, last))
  {
    var tail := w2 + last;
    var t := [d] + tail;
    var rest := w1 + t;
    assert s == first + rest;
    LeadingDigitsOf(first, rest);
    assert s[|first|..] == rest && s[..|first|] == first;
    LeadingSpaceOf(w1, t);
    assert rest[|w1|..] == t;
    assert t[1..] == tail;
    LeadingSpaceOf(w2, last);
    assert tail[|w2|..] == last;
  }

  /** `String(n).padStart(width, '0')`. */
  function Padded(n: nat, width: nat): string
  {
    PadZeros(NatToString(n), width)
  }

  /** The ids `lo` to `hi` inclusive, each zero-padded to `width`. */
  function RangeIds(lo: nat, hi: nat, width: nat): seq<string>
    requires lo <= hi
  {
    RangeMap(lo, hi, n => Padded(n, width))
  }

  /** The `k`-th id of a range stands for `lo + k` and is at least `width` long. */
  lemma RangeIdsValues(lo: nat, hi: nat, width: nat)
    requires lo <= hi
    ensures var r := RangeIds(lo, hi, width);
            && |r| == hi - lo + 1
            && forall k :: 0 <= k < |r| ==> AllDigits(r[k]) && DigitsValue(r[k]) == lo + k && |r[k]| >= width
  {
    var r := RangeIds(lo, hi, width);
    var f := n => Padded(n, width);
    RangeMapLength(lo, hi, f);
    forall k | 0 <= k < |r| ensures AllDigits(r[k]) && DigitsValue(r[k]) == lo + k && |r[k]| >= width {
      RangeMapAt(lo, hi, f, k);
      PaddedValue(lo + k, width);
    }
  }

  lemma PaddedValue(n: nat, width: nat)
    ensures AllDigits(Padded(n, width)) && DigitsValue(Padded(n, width)) == n && |Padded(n, width)| >= width
  {
    PadZerosValue(n, width);
  }

  /** `for (let i = lo; i <= hi; i++) out.push(String(i).padStart(width, '0'))`. */
  method PaddedRange(lo: nat, hi: nat, width: nat) returns (out: seq<string>)
    requires lo <= hi
    ensures out == RangeIds(lo, hi, width)
  {
    out := [Padded(lo, width)];
    RangeIdsStep(lo, lo, width);
    var i := lo + 1;
    while i <= hi
      invariant lo < i <= hi + 1
      invariant out == RangeIds(lo, i - 1, width)
    {
      RangeIdsStep(lo, i, width);
      out := out + [Padded(i, width)];
      i := i + 1;
    }
  }

  lemma RangeIdsStep(lo: nat, i: nat, width: nat)
    requires lo <= i
    ensures RangeIds(lo, i, width) == (if lo == i then [] else RangeIds(lo, i - 1, width)) + [Padded(i, width)]
  {
    RangeMapStep(lo, i, n => Padded(n, width));
  }

  /** The separators of `/[;,\n\s]+/`. Splitting on runs of separators and
      splitting on single ones differ only by empty pieces, which the id filter
      drops anyway. */
  predicate IsListSeparator(c: char)
  {
    c == ';' || c == ',' || c == '\n' || IsSpace(c)
  }

  /** `.map((x) => x.trim()).filter((x) => /^\d{3,}$/.test(x))`. */
  function IdTokens(xs: seq<string>): (r: seq<string>)
    ensures |r| <= |xs|
    ensures forall i :: 0 <= i < |r| ==> IsIdToken(r[i])
  {
    if xs == [] then []
    else
      var rest := IdTokens(xs[..|xs| - 1]);
      var t := Trim(xs[|xs| - 1]);
      if IsIdToken(t) then rest + [t] else rest
  }

  /** `parseRangeOrList`: blank gives nothing; the range form gives every id
      from the smaller bound to the larger, padded to the width of the first
      token; anything else gives its id tokens in order. */
  function RangeOrList(text: string): seq<string>
  {
    var s := Trim(text);
    if s == "" then []
    else
      match MatchRange(s)
      case Some(groups) =>
        var x, y := DigitsValue(groups.0), DigitsValue(groups.1);
        RangeIds(if x <= y then x else y, if x <= y then y else x, |groups.0|)
      case None => IdTokens(SplitOn(s, IsListSeparator))
  }

  method ParseRangeOrList(text: string) returns (r: seq<string>)
    ensures r == RangeOrList(text)
  {
    var s := Trim(text);
    if s == "" {
      return [];
    }
    var range := MatchRange(s);
    if range.Some? {
      var start, end := DigitsValue(range.value.0), DigitsValue(range.value.1);
      var lo := if start <= end then start else end;
      var hi := if start <= end then end else start;
      r := PaddedRange(lo, hi, |range.value.0|);
    } else {
      r := IdTokens(SplitOn(s, IsListSeparator));
    }
  }

  /** Whatever the input, every entry is an id token of at least three digits. */
  lemma RangeOrListTokens(text: string)
    ensures forall i :: 0 <= i < |RangeOrList(text)| ==> IsIdToken(RangeOrList(text)[i])
  {
    var s := Trim(text);
    if s != "" && MatchRange(s).Some? {
      var groups := MatchRange(s).value;
      var x, y := DigitsValue(groups.0), DigitsValue(groups.1);
      RangeIdsValues(if x <= y then x else y, if x <= y then y else x, |groups.0|);
    }
  }

  /** A range spelling yields `|to - from| + 1` ids, the `k`-th standing for
      `min + k`, in either order of the bounds. */
  lemma RangeOrListRange(text: string, first: string, w1: string, d: char, w2: string, last: string)
    requires RangeSpelling(Trim(text), first, w1, d, w2, last)
    ensures var x, y := DigitsValue(first), DigitsValue(last);
            var lo, hi := if x <= y then x else y, if x <= y then y else x;
            var r := RangeOrList(text);
            && |r| == hi - lo + 1
            && forall k :: 0 <= k < |r| ==> AllDigits(r[k]) && DigitsValue(r[k]) == lo + k && |r[k]| >= |first|
  {
    SpelledMatches(Trim(text), first, w1, d, w2, last);
    MatchedRange(text, first, last);
  }

  /** A text whose trimmed form matches expands to the range between its groups. */
  lemma MatchedRange(text: string, first: string, last: string)
    requires Trim(text) != "" && MatchRange(Trim(text)) == Some((first, last))
    ensures AllDigits(first) && AllDigits(last)
    ensures var x, y := DigitsValue(first), DigitsValue(last);
            CountsUp(RangeOrList(text), if x <= y then x else y, if x <= y then y else x, |first|)
  {
    var r := RangeOrList(text);
    RangeOfMatch(text, first, last);
    assert IsIdToken(first) && IsIdToken(last);
    var x, y := DigitsValue(first), DigitsValue(last);
    RangeValues(r, if x <= y then x else y, if x <= y then y else x, |first|);
  }

  /** `r` holds the ids of `lo` to `hi`, in order, each at least `width` digits long. */
  ghost predicate CountsUp(r: seq<string>, lo: nat, hi: nat, width: nat)
  {
    && |r| == hi - lo + 1
    && forall k :: 0 <= k < |r| ==> AllDigits(r[k]) && DigitsValue(r[k]) == lo + k && |r[k]| >= width
  }

  lemma RangeValues(r: seq<string>, lo: nat, hi: nat, width: nat)
    requires lo <= hi && r == RangeIds(lo, hi, width)
    ensures CountsUp(r, lo, hi, width)
  {
    RangeIdsValues(lo, hi, width);
  }

  /** A range spelling is not blank and matches with its own digit groups. */
  lemma SpelledMatches(s: string, first: string, w1: string, d: char, w2: string, last: string)
    requires RangeSpelling(s, first, w1, d, w2, last)
    ensures s != "" && MatchRange(s) == Some((first, last))
  {
    MatchRangeComplete(s, first, w1, d, w2, last);
    assert |s| >= |first|;
  }

  /** A trimmed text that matches the range form expands to its range. */
  lemma RangeOfMatch(text: string, first: string, last: string)
    requires Trim(text) != "" && MatchRange(Trim(text)) == Some((first, last))
    ensures var x, y := DigitsValue(first), DigitsValue(last);
            RangeOrList(text) == RangeIds(if x <= y then x else y, if x <= y then y else x, |first|)
  {
  }

  /** Every character of `Join(xs, [sep])` comes from a piece or is `sep`. */
  lemma {:induction false} JoinChars(xs: seq<string>, sep: char, ok: char -> bool)
    requires ok(sep)
    requires forall p, i :: p in xs && 0 <= i < |p| ==> ok(p[i])
    ensures forall i :: 0 <= i < |Join(xs, [sep])| ==> ok(Join(xs, [sep])[i])
  {
    if |xs| > 1 {
      assert forall p :: p in xs[1..] ==> p in xs;
      JoinChars(xs[1..], sep, ok);
      assert xs[0] in xs;
    } else if |xs| == 1 {
      assert xs[0] in xs;
    }
  }

  /** A list of ids joined by one separator parses back to the same list. */
  lemma RangeOrListRoundTrip(xs: seq<string>, sep: char)
    requires |xs| >= 1 && IsListSeparator(sep)
    requires forall i :: 0 <= i < |xs| ==> IsIdToken(xs[i])
    ensures RangeOrList(Join(xs, [sep])) == xs
  {
    var s := Join(xs, [sep]);
    JoinedIdsTrimmed(xs, sep);
    JoinedIdsNoRange(xs, sep);
    forall p, i | p in xs && 0 <= i < |p| ensures !IsListSeparator(p[i]) {
      var j :| 0 <= j < |xs| && xs[j] == p;
      DigitNotSeparator(p[i]);
    }
    SplitJoin(xs, sep, IsListSeparator);
    IdTokensKeep(xs);
    assert RangeOrList(s) == IdTokens(SplitOn(s, IsListSeparator));
  }

  lemma JoinedIdsTrimmed(xs: seq<string>, sep: char)
    requires |xs| >= 1
    requires forall i :: 0 <= i < |xs| ==> IsIdToken(xs[i])
    ensures Join(xs, [sep]) != "" && Trim(Join(xs, [sep])) == Join(xs, [sep])
  {
    forall i | 0 <= i < |xs| ensures xs[i] != "" && IsTrimmed(xs[i]) {
      IdTokenTrimmed(xs[i]);
    }
    JoinTrimmed(xs, [sep]);
    TrimOfTrimmed(Join(xs, [sep]));
  }

  /** Ids joined by a list separator never spell a range: no dash occurs. */
  lemma JoinedIdsNoRange(xs: seq<string>, sep: char)
    requires IsListSeparator(sep)
    requires forall i :: 0 <= i < |xs| ==> IsIdToken(xs[i])
    ensures MatchRange(Join(xs, [sep])) == None
  {
    var ok := (c: char) => !IsDash(c);
    forall p, i | p in xs && 0 <= i < |p| ensures ok(p[i]) {
      var j :| 0 <= j < |xs| && xs[j] == p;
    }
    JoinChars(xs, sep, ok);
    NoDashNoRange(Join(xs, [sep]));
  }

  /** Without a dash there is no range. */
  lemma NoDashNoRange(s: string)
    requires forall i :: 0 <= i < |s| ==> !IsDash(s[i])
    ensures MatchRange(s) == None
  {
    var a := LeadingDigits(s);
    var rest := s[a..];
    var n1 := LeadingSpace(rest);
    var t := rest[n1..];
    if t != [] {
      assert t[0] == s[a + n1];
    }
  }

  lemma DigitNotSeparator(c: char)
    requires IsDigit(c)
    ensures !IsListSeparator(c)
  {
  }

  /** Id tokens all survive the id filter, in order. */
  lemma {:induction false} IdTokensKeep(xs: seq<string>)
    requires forall i :: 0 <= i < |xs| ==> IsIdToken(xs[i])
    ensures IdTokens(xs) == xs
  {
    if xs != [] {
      var n := |xs| - 1;
      PrefixIndex(xs, n);
      IdTokensKeep(xs[..n]);
      IdTokenTrimmed(xs[n]);
      IdTokensSnoc(xs);
      Snoc(xs);
    }
  }

  lemma IdTokensSnoc(xs: seq<string>)
    requires xs != []
    ensures var t := Trim(xs[|xs| - 1]);
            IdTokens(xs) == IdTokens(xs[..|xs| - 1]) + (if IsIdToken(t) then [t] else [])
  {
  }


  // ----- The solution-library JSON file -----

  /** One row of a solution-library JSON file: the cells the conversion
      reads, each absent or holding a string. */
  datatype LibraryRow = LibraryRow(
    prozessnummer: Option<string>,
    prozessname: Option<string>,
    prozessart: Option<string>,
    merkmalsklasse1: Option<string>,
    merkmalsklasse2: Option<string>,
    merkmalsklasse3: Option<string>,
    randbedingung1: Option<string>,
    randbedingung2: Option<string>,
    verknuepfungen: Option<string>,
    ablageKonstruktiv: Option<string>,
    ablageSteuerung: Option<string>,
    ablagePruef: Option<string>,
    ablageRoboter: Option<string>)

  /** `String(x ?? '')`. */
  function CellText(c: Option<string>): string
  {
    if c.Some? then c.value else ""
  }

  /** `/teil/i.test(typeRaw)`: a sub-process; anything else is a main process. */
  function KindOf(typeRaw: string): ProcessKind
  {
    if Includes(Lower(typeRaw), "teil") then Teilprozess else Hauptprozess
  }

  /** No dictionary entry is blank or the '-' placeholder, so translating keeps
      a label blank exactly when it was blank, and never produces '-'. */
  lemma TranslatedLabel(t: string)
    ensures TranslateLabel(t) == "" <==> t == ""
    ensures t != "-" ==> TranslateLabel(t) != "-"
  {
    if t != "" && t in Dictionary {
      DictionaryEntriesListed();
      assert "" !in DictionaryEntries && "-" !in DictionaryEntries;
    }
  }

  /** The class cells, trimmed, without blanks and '-' placeholders, translated. */
  function Classes(cells: seq<Option<string>>): (r: seq<string>)
    ensures |r| <= |cells|
    ensures forall i :: 0 <= i < |r| ==> r[i] != "" && r[i] != "-"
  {
    if cells == [] then []
    else
      var rest := Classes(cells[..|cells| - 1]);
      var t := Trim(CellText(cells[|cells| - 1]));
      if t == "" || t == "-" then rest
      else
        TranslatedLabel(t);
        rest + [TranslateLabel(t)]
  }

  /** One storage entry, present when the cell is filled; the cell is kept untrimmed. */
  function StorageEntry(key: string, c: Option<string>): seq<(string, LocationValue)>
  {
    if c.Some? && c.value != "" then [(key, Single(c.value))] else []
  }

  /** The storage record of a row, under the keys constructive, control, test and robot. */
  function StorageOf(r: LibraryRow): Location
  {
    Named(StorageEntry("constructive", r.ablageKonstruktiv) + StorageEntry("control", r.ablageSteuerung)
          + StorageEntry("test", r.ablagePruef) + StorageEntry("robot", r.ablageRoboter))
  }

  /** The process a row describes; a row without an id or without a name is skipped. */
  function RowProcess(r: LibraryRow): (p: Option<Process>)
    ensures p.None? <==> Trim(CellText(r.prozessnummer)) == "" || Trim(CellText(r.prozessname)) == ""
  {
    var id := Trim(CellText(r.prozessnummer));
    var name := TranslateLabel(Trim(CellText(r.prozessname)));
    TranslatedLabel(Trim(CellText(r.prozessname)));
    if id == "" || name == "" then None
    else
      Some(Process(
        id, name, KindOf(Trim(CellText(r.prozessart))),
        Some(Classes([r.merkmalsklasse1, r.merkmalsklasse2, r.merkmalsklasse3])),
        Some(TrimmedItems([CellText(r.randbedingung1), CellText(r.randbedingung2)])),
        None, None, Some(StorageOf(r))))
  }

  /** What a converted row holds: a trimmed non-empty id, a non-empty name, a
      sub-process exactly when the type mentions "teil" in any case, classes
      without blanks or placeholders, and trimmed non-empty conditions. */
  lemma RowProcessShape(r: LibraryRow)
    requires RowProcess(r).Some?
    ensures var p := RowProcess(r).value;
            && p.id != "" && IsTrimmed(p.id) && p.name != ""
            && (p.kind == Teilprozess <==> Includes(Lower(Trim(CellText(r.prozessart))), "teil"))
            && p.merkmalsklassen.Some? && |p.merkmalsklassen.value| <= 3
            && (forall c :: c in p.merkmalsklassen.value ==> c != "" && c != "-")
            && p.randbedingungen.Some? && |p.randbedingungen.value| <= 2
            && (forall c :: c in p.randbedingungen.value ==> c != "" && IsTrimmed(c))
  {
  }

  /** A main row links itself to each listed id; a sub-process row links each
      listed id to itself. Every link is a `contains` link. */
  function RowLinks(id: string, kind: ProcessKind, deps: seq<string>): (r: seq<ChartEdge>)
    ensures |r| == |deps|
    ensures forall i :: 0 <= i < |deps| ==>
              r[i] == if kind == Hauptprozess then ChartEdge(id, deps[i], Contains) else ChartEdge(deps[i], id, Contains)
  {
    if deps == [] then []
    else
      var n := |deps| - 1;
      var l := if kind == Hauptprozess then ChartEdge(id, deps[n], Contains) else ChartEdge(deps[n], id, Contains);
      RowLinks(id, kind, deps[..n]) + [l]
  }

  /** What a row contributes: its process and the links it lists, or
      nothing when it is skipped. */
  function RowResult(row: LibraryRow): (r: Option<(Process, seq<ChartEdge>)>)
    ensures r.None? <==> RowProcess(row).None?
  {
    match RowProcess(row)
    case None => None
    case Some(p) => Some((p, RowLinks(p.id, p.kind, RangeOrList(CellText(row.verknuepfungen)))))
  }

  /** The contributions gathered in row order: the processes one after the
      other, and the links one list after the other. */
  function Collected<P>(results: seq<Option<(P, seq<ChartEdge>)>>): (r: (seq<P>, seq<ChartEdge>))
    ensures |r.0| <= |results|
  {
    if results == [] then ([], [])
    else
      var prev := Collected(results[..|results| - 1]);
      match results[|results| - 1]
      case None => prev
      case Some(c) => (prev.0 + [c.0], prev.1 + c.1)
  }

  lemma CollectedSnoc<P>(pre: seq<Option<(P, seq<ChartEdge>)>>, r: Option<(P, seq<ChartEdge>)>)
    ensures Collected(pre + [r]) == if r.None? then Collected(pre) else (Collected(pre).0 + [r.value.0], Collected(pre).1 + r.value.1)
  {
    assert (pre + [r])[..|pre|] == pre;
  }

  /** The contributions of one more row. */
  lemma CollectedRowsStep(rows: seq<LibraryRow>, i: nat)
    requires i < |rows|
    ensures var pre := Collected(RowResults(rows)[..i]);
            var r := RowResult(rows[i]);
            Collected(RowResults(rows)[..i + 1]) == if r.None? then pre else (pre.0 + [r.value.0], pre.1 + r.value.1)
  {
    CollectedPrefixStep(RowResults(rows), i);
  }

  lemma CollectedPrefixStep<P>(results: seq<Option<(P, seq<ChartEdge>)>>, i: nat)
    requires i < |results|
    ensures var pre := Collected(results[..i]);
            var r := results[i];
            Collected(results[..i + 1]) == if r.None? then pre else (pre.0 + [r.value.0], pre.1 + r.value.1)
  {
    assert results[..i + 1] == results[..i] + [results[i]];
    CollectedSnoc(results[..i], results[i]);
  }

  /** The contribution of every row, in order. */
  function RowResults(rows: seq<LibraryRow>): (r: seq<Option<(Process, seq<ChartEdge>)>>)
    ensures |r| == |rows| && forall i :: 0 <= i < |rows| ==> r[i] == RowResult(rows[i])
  {
    seq(|rows|, i requires 0 <= i < |rows| => RowResult(rows[i]))
  }

  /** No contribution is lost and none is invented: the processes are exactly
      those of the contributions, and so are the links. */
  lemma {:induction false} CollectedContents<P>(results: seq<Option<(P, seq<ChartEdge>)>>)
    ensures var c := Collected(results);
            && (forall k :: 0 <= k < |c.0| ==> exists i :: 0 <= i < |results| && results[i].Some? && results[i].value.0 == c.0[k])
            && (forall i :: 0 <= i < |results| && results[i].Some? ==> results[i].value.0 in c.0)
            && (forall e :: e in c.1 ==> exists i :: 0 <= i < |results| && results[i].Some? && e in results[i].value.1)
            && (forall i, e :: 0 <= i < |results| && results[i].Some? && e in results[i].value.1 ==> e in c.1)
  {
    var c := Collected(results);
    CollectedProcessesFrom(results);
    CollectedProcessesAll(results);
    CollectedLinksFrom(results);
    CollectedLinksAll(results);
    forall k | 0 <= k < |c.0|
      ensures exists i :: 0 <= i < |results| && results[i].Some? && results[i].value.0 == c.0[k]
    {
      assert ProcessFrom(results, c.0[k]);
    }
    forall e | e in c.1 ensures exists i :: 0 <= i < |results| && results[i].Some? && e in results[i].value.1 {
      assert LinkFrom(results, e);
    }
    forall i, e | 0 <= i < |results| && results[i].Some? && e in results[i].value.1 ensures e in c.1 {
      assert AllIn(results[i].value.1, c.1);
    }
  }

  /** Some contribution brings the process `x`. */
  ghost predicate ProcessFrom<P>(results: seq<Option<(P, seq<ChartEdge>)>>, x: P)
  {
    exists i :: 0 <= i < |results| && results[i].Some? && results[i].value.0 == x
  }

  /** Some contribution brings the link `e`. */
  ghost predicate LinkFrom<P>(results: seq<Option<(P, seq<ChartEdge>)>>, e: ChartEdge)
  {
    exists i :: 0 <= i < |results| && results[i].Some? && e in results[i].value.1
  }

  lemma {:induction false} CollectedProcessesFrom<P>(results: seq<Option<(P, seq<ChartEdge>)>>)
    ensures forall k :: 0 <= k < |Collected(results).0| ==> ProcessFrom(results, Collected(results).0[k])
  {
    if results != [] {
      var n := |results| - 1;
      var before := results[..n];
      CollectedProcessesFrom(before);
      PrefixIndex(results, n);
      var prev := Collected(before);
      var c := Collected(results);
      forall k | 0 <= k < |c.0| ensures ProcessFrom(results, c.0[k]) {
        if k < |prev.0| {
          assert c.0[k] == prev.0[k];
          assert ProcessFrom(before, prev.0[k]);
          var i :| 0 <= i < |before| && before[i].Some? && before[i].value.0 == prev.0[k];
          assert results[i] == before[i];
        } else {
          assert results[n].Some? && results[n].value.0 == c.0[k];
        }
      }
    }
  }

  lemma {:induction false} CollectedProcessesAll<P>(results: seq<Option<(P, seq<ChartEdge>)>>)
    ensures var c := Collected(results);
            forall i :: 0 <= i < |results| && results[i].Some? ==> results[i].value.0 in c.0
  {
    if results != [] {
      var n := |results| - 1;
      CollectedProcessesAll(results[..n]);
      PrefixIndex(results, n);
    }
  }

  lemma {:induction false} CollectedLinksFrom<P>(results: seq<Option<(P, seq<ChartEdge>)>>)
    ensures forall e :: e in Collected(results).1 ==> LinkFrom(results, e)
  {
    if results != [] {
      var n := |results| - 1;
      var before := results[..n];
      CollectedLinksFrom(before);
      PrefixIndex(results, n);
      var prev := Collected(before);
      var c := Collected(results);
      forall e | e in c.1 ensures LinkFrom(results, e) {
        if e in prev.1 {
          assert LinkFrom(before, e);
          var i :| 0 <= i < |before| && before[i].Some? && e in before[i].value.1;
          assert results[i] == before[i];
        } else {
          assert results[n].Some? && e in results[n].value.1;
        }
      }
    }
  }

  /** Every link of `xs` is in `ys`. */
  ghost predicate AllIn(xs: seq<ChartEdge>, ys: seq<ChartEdge>)
  {
    forall e :: e in xs ==> e in ys
  }

  lemma {:induction false} CollectedLinksAll<P>(results: seq<Option<(P, seq<ChartEdge>)>>)
    ensures forall i :: 0 <= i < |results| && results[i].Some? ==> AllIn(results[i].value.1, Collected(results).1)
  {
    if results != [] {
      var n := |results| - 1;
      var before := results[..n];
      CollectedLinksAll(before);
      PrefixIndex(results, n);
      var prev := Collected(before);
      var c := Collected(results);
      assert AllIn(prev.1, c.1);
      forall i | 0 <= i < |results| && results[i].Some? ensures AllIn(results[i].value.1, c.1) {
        if i < n {
          assert before[i] == results[i];
          assert AllIn(before[i].value.1, prev.1);
        }
      }
    }
  }

  /** The keys of a list. */
  function Keys<T(==)>(xs: seq<T>, key: T -> string): (r: set<string>)
    ensures forall i :: 0 <= i < |xs| ==> key(xs[i]) in r
    ensures forall k :: k in r ==> exists i :: 0 <= i < |xs| && key(xs[i]) == k
  {
    set x | x in xs :: key(x)
  }

  lemma KeysSnoc<T>(xs: seq<T>, x: T, key: T -> string)
    ensures Keys(xs + [x], key) == Keys(xs, key) + {key(x)}
  {
    var l := xs + [x];
    forall k | k in Keys(l, key) ensures k in Keys(xs, key) + {key(x)} {
      var i :| 0 <= i < |l| && key(l[i]) == k;
      if i < |xs| {
        assert l[i] == xs[i];
      }
    }
    forall k | k in Keys(xs, key) ensures k in Keys(l, key) {
      var i :| 0 <= i < |xs| && key(xs[i]) == k;
      assert l[i] == xs[i];
    }
    assert l[|xs|] == x;
  }

  /** The list with every element whose key was seen before dropped: the
      first element of each key is kept. */
  function Deduplicated<T(==)>(xs: seq<T>, key: T -> string): seq<T>
  {
    if xs == [] then []
    else
      var n := |xs| - 1;
      var prev := Deduplicated(xs[..n], key);
      if key(xs[n]) in Keys(xs[..n], key) then prev else prev + [xs[n]]
  }

  /** `xs[j]` is the first element with its key. */
  predicate FirstOfKey<T>(xs: seq<T>, key: T -> string, j: nat)
    requires j < |xs|
  {
    forall m :: 0 <= m < j ==> key(xs[m]) != key(xs[j])
  }

  /** No two elements share a key. */
  ghost predicate DistinctKeys<T>(xs: seq<T>, key: T -> string)
  {
    forall i, j :: 0 <= i < j < |xs| ==> key(xs[i]) != key(xs[j])
  }

  /** Every element of `r` is an element of `xs` that is the first with its key there. */
  ghost predicate KeptFirst<T>(r: seq<T>, xs: seq<T>, key: T -> string)
  {
    forall i :: 0 <= i < |r| ==> exists j :: 0 <= j < |xs| && xs[j] == r[i] && FirstOfKey(xs, key, j)
  }

  /** The kept elements have pairwise different keys, and every key survives. */
  lemma {:induction false} DeduplicatedKeys<T>(xs: seq<T>, key: T -> string)
    ensures DistinctKeys(Deduplicated(xs, key), key)
    ensures Keys(Deduplicated(xs, key), key) == Keys(xs, key)
  {
    if xs != [] {
      var n := |xs| - 1;
      DeduplicatedKeys(xs[..n], key);
      assert xs == xs[..n] + [xs[n]];
      KeysSnoc(xs[..n], xs[n], key);
      var prev := Deduplicated(xs[..n], key);
      if key(xs[n]) !in Keys(xs[..n], key) {
        KeysSnoc(prev, xs[n], key);
      }
    }
  }

  /** Every kept element is the first of its key in the input. */
  lemma {:induction false} DeduplicatedFirst<T>(xs: seq<T>, key: T -> string)
    ensures KeptFirst(Deduplicated(xs, key), xs, key)
  {
    if xs != [] {
      var n := |xs| - 1;
      var before := xs[..n];
      DeduplicatedFirst(before, key);
      var prev := Deduplicated(before, key);
      var r := Deduplicated(xs, key);
      forall i | 0 <= i < |r| ensures exists j :: 0 <= j < |xs| && xs[j] == r[i] && FirstOfKey(xs, key, j) {
        if i < |prev| {
          assert r[i] == prev[i];
          var j :| 0 <= j < |before| && before[j] == prev[i] && FirstOfKey(before, key, j);
          assert forall m :: 0 <= m <= j ==> before[m] == xs[m];
          assert 0 <= j < |xs| && xs[j] == r[i] && FirstOfKey(xs, key, j);
        } else {
          assert r[i] == xs[n] && key(xs[n]) !in Keys(before, key);
          forall m | 0 <= m < n ensures key(xs[m]) != key(xs[n]) {
            assert before[m] == xs[m];
          }
          assert xs[n] == r[i] && FirstOfKey(xs, key, n);
        }
      }
      assert forall i :: 0 <= i < |r| ==> exists j :: 0 <= j < |xs| && xs[j] == r[i] && FirstOfKey(xs, key, j);
    } else {
      assert Deduplicated(xs, key) == [];
    }
  }

  /** `links.filter(...)` with a `seen` set: drop every element whose key was
      seen before. */
  method Deduplicate<T(==)>(xs: seq<T>, key: T -> string) returns (r: seq<T>)
    ensures r == Deduplicated(xs, key)
  {
    var seen: set<string> := {};
    r := [];
    for i := 0 to |xs|
      invariant r == Deduplicated(xs[..i], key)
      invariant seen == Keys(xs[..i], key)
    {
      var k := key(xs[i]);
      assert xs[..i + 1][..i] == xs[..i];
      KeysSnoc(xs[..i], xs[i], key);
      assert xs[..i + 1] == xs[..i] + [xs[i]];
      if k !in seen {
        seen := seen + {k};
        r := r + [xs[i]];
      }
    }
    assert xs[..|xs|] == xs;
  }

  /** `parseLoesungsbibliothekJsonFile` after `JSON.parse`: a parse error gives
      the empty library; otherwise the converted processes and the links
      de-duplicated by key, with no building blocks and no notes. */
  function SolutionLibrary(raw: Option<seq<LibraryRow>>): LibraryData
  {
    match raw
    case None => LibraryData([], [], [], Some([]))
    case Some(rows) =>
      var c := Collected(RowResults(rows));
      LibraryData(c.0, [], Deduplicated(c.1, EdgeKey), Some([]))
  }

  /** The links a converted row contributes, pushed one by one. */
  method PushRowLinks(links: seq<ChartEdge>, id: string, kind: ProcessKind, deps: seq<string>) returns (r: seq<ChartEdge>)
    ensures r == links + RowLinks(id, kind, deps)
  {
    r := links;
    for j := 0 to |deps|
      invariant r == links + RowLinks(id, kind, deps[..j])
    {
      assert deps[..j + 1][..j] == deps[..j];
      if kind == Hauptprozess {
        r := r + [ChartEdge(id, deps[j], Contains)];
      } else {
        r := r + [ChartEdge(deps[j], id, Contains)];
      }
    }
    assert deps[..|deps|] == deps;
  }

  /** One row of the loop in `parseLoesungsbibliothekJsonFile`: a converted row adds
      its process and pushes its links. */
  method AddRow(processes: seq<Process>, links: seq<ChartEdge>, row: LibraryRow)
    returns (processes': seq<Process>, links': seq<ChartEdge>)
    ensures RowResult(row).None? ==> processes' == processes && links' == links
    ensures RowResult(row).Some? ==>
              processes' == processes + [RowResult(row).value.0] && links' == links + RowResult(row).value.1
  {
    processes', links' := processes, links;
    var p := RowProcess(row);
    if p.Some? {
      processes' := processes + [p.value];
      var deps := ParseRangeOrList(CellText(row.verknuepfungen));
      links' := PushRowLinks(links, p.value.id, p.value.kind, deps);
    }
  }

  method ParseSolutionLibrary(raw: Option<seq<LibraryRow>>) returns (lib: LibraryData)
    ensures lib == SolutionLibrary(raw)
  {
    if raw.None? {
      return LibraryData([], [], [], Some([]));
    }
    var rows := raw.value;
    ghost var results := RowResults(rows);
    var processes: seq<Process> := [];
    var links: seq<ChartEdge> := [];
    for i := 0 to |rows|
      invariant (processes, links) == Collected(results[..i])
    {
      CollectedRowsStep(rows, i);
      processes, links := AddRow(processes, links, rows[i]);
    }
    assert results[..|rows|] == results;
    var kept := Deduplicate(links, EdgeKey);
    lib := LibraryData(processes, [], kept, Some([]));
  }

  /** The processes of the library are exactly the converted rows; it has
      no building blocks and no notes. */
  lemma SolutionProcesses(rows: seq<LibraryRow>)
    ensures var lib := SolutionLibrary(Some(rows));
            && (forall k :: 0 <= k < |lib.processes| ==> exists i :: 0 <= i < |rows| && RowProcess(rows[i]) == Some(lib.processes[k]))
            && (forall i :: 0 <= i < |rows| && RowProcess(rows[i]).Some? ==> RowProcess(rows[i]).value in lib.processes)
            && lib.buildingBlocks == [] && lib.notes == Some([])
  {
    var results := RowResults(rows);
    CollectedContents(results);
  }

  /** The library's links have pairwise different keys, lose no key of the
      rows' links, and each is the first row link with its key. */
  lemma SolutionLinks(rows: seq<LibraryRow>)
    ensures var lib := SolutionLibrary(Some(rows));
            var all := Collected(RowResults(rows)).1;
            && DistinctKeys(lib.links, EdgeKey)
            && Keys(lib.links, EdgeKey) == Keys(all, EdgeKey)
            && KeptFirst(lib.links, all, EdgeKey)
  {
    var all := Collected(RowResults(rows)).1;
    DeduplicatedKeys(all, EdgeKey);
    DeduplicatedFirst(all, EdgeKey);
  }

  /** Every link the rows list is a `contains` link. */
  lemma SolutionLinksContain(rows: seq<LibraryRow>)
    ensures forall e :: e in Collected(RowResults(rows)).1 ==> e.edgeType == Contains
  {
    var results := RowResults(rows);
    CollectedContents(results);
    forall e | e in Collected(results).1 ensures e.edgeType == Contains {
      var i :| 0 <= i < |results| && results[i].Some? && e in results[i].value.1;
      RowLinksContain(rows[i], e);
    }
  }

  lemma RowLinksContain(row: LibraryRow, e: ChartEdge)
    requires RowResult(row).Some? && e in RowResult(row).value.1
    ensures e.edgeType == Contains
  {
    var p := RowProcess(row).value;
    var deps := RangeOrList(CellText(row.verknuepfungen));
    var k :| 0 <= k < |deps| && RowLinks(p.id, p.kind, deps)[k] == e;
  }

  /** The links a row lists reach the library: a main row's leave its id, a
      sub-process row's enter it. */
  lemma RowLinksKept(rows: seq<LibraryRow>, i: nat, k: nat)
    requires i < |rows| && RowProcess(rows[i]).Some?
    requires k < |RangeOrList(CellText(rows[i].verknuepfungen))|
    ensures var p := RowProcess(rows[i]).value;
            var other := RangeOrList(CellText(rows[i].verknuepfungen))[k];
            var e := if p.kind == Hauptprozess then ChartEdge(p.id, other, Contains) else ChartEdge(other, p.id, Contains);
            EdgeKey(e) in Keys(SolutionLibrary(Some(rows)).links, EdgeKey)
  {
    var results := RowResults(rows);
    CollectedContents(results);
    DeduplicatedKeys(Collected(results).1, EdgeKey);
    var p := RowProcess(rows[i]).value;
    var deps := RangeOrList(CellText(rows[i].verknuepfungen));
    var e := RowLinks(p.id, p.kind, deps)[k];
    assert e in results[i].value.1;
    assert e in Collected(results).1;
  }
}
