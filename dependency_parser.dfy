/** The pasted dependency table of src/utils/dependencyParser.ts: one cell per
    line, the first line the main process and the others its sub-processes. The
    regular expressions are written out as the character scans they perform. */
module DependencyParser {
  import opened Types
  import opened Text

  /** The separator class `[;,\t]`. */
  predicate IsCellSep(c: char)
  {
    c == ';' || c == ',' || c == '\t'
  }

  predicate HasLineTerminator(s: string)
  {
    exists i :: 0 <= i < |s| && IsLineTerminator(s[i])
  }

  /** The largest index below `hi` holding `c`. */
  function LastIndexBelow(s: string, c: char, hi: nat): (r: Option<nat>)
    requires hi <= |s|
    ensures r.Some? ==> r.value < hi && s[r.value] == c && forall q :: r.value < q < hi ==> s[q] != c
    ensures r.None? <==> forall q :: 0 <= q < hi ==> s[q] != c
  {
    if hi == 0 then None
    else if s[hi - 1] == c then Some(hi - 1)
    else LastIndexBelow(s, c, hi - 1)
  }

  /** Where `/^(.*)\[(.+)\]$/` splits `raw`: the last `[` that still leaves a
      non-empty second group, provided `raw` ends with `]` and `.` can cover the
      rest (it matches no line terminator). */
  function BracketSplit(raw: string): (r: Option<nat>)
    ensures r.Some? ==> && r.value + 2 < |raw| && raw[r.value] == '[' && raw[|raw| - 1] == ']'
                        && !HasLineTerminator(raw[..|raw| - 1])
                        && forall q :: r.value < q < |raw| - 2 ==> raw[q] != '['
    ensures r.None? <==> !(&& |raw| >= 3 && raw[|raw| - 1] == ']' && !HasLineTerminator(raw[..|raw| - 1])
                           && exists p :: 0 <= p < |raw| - 2 && raw[p] == '[')
  {
    if |raw| >= 3 && raw[|raw| - 1] == ']' && !HasLineTerminator(raw[..|raw| - 1]) then
      LastIndexBelow(raw, '[', |raw| - 2)
    else None
  }

  /** `replace(/[-:\s]+$/, '')`: drop the trailing run of `-`, `:` and white space. */
  function StripTrailingMarks(s: string): (r: string)
    ensures |r| <= |s| && r == s[..|r|]
    ensures r != [] ==> !(r[|r| - 1] == '-' || r[|r| - 1] == ':' || IsSpace(r[|r| - 1]))
    ensures forall i :: |r| <= i < |s| ==> s[i] == '-' || s[i] == ':' || IsSpace(s[i])
  {
    if s == [] then s
    else
      var c := s[|s| - 1];
      if c == '-' || c == ':' || IsSpace(c) then StripTrailingMarks(s[..|s| - 1]) else s
  }

  /** The split of `raw` on white space around `;`, `,` or tab. Each match is taken leftmost: a white-space
      run followed by `;` or `,` is one separator together with the white space
      after it; a white-space run holding a tab is one separator; other white
      space stays in the piece. */
  function Pieces(s: string): (r: seq<string>)
    ensures |r| >= 1
    ensures forall p, i :: p in r && 0 <= i < |p| ==> !IsCellSep(p[i])
    decreases |s|
  {
    if s == [] then [""]
    else if s[0] == ';' || s[0] == ',' then
      var t := s[1..];
      [""] + Pieces(t[LeadingSpace(t)..])
    else if IsSpace(s[0]) then
      var n := LeadingSpace(s);
      var rest := s[n..];
      if rest != [] && (rest[0] == ';' || rest[0] == ',') then
        var t := rest[1..];
        [""] + Pieces(t[LeadingSpace(t)..])
      else if exists i :: 0 <= i < n && s[i] == '\t' then
        [""] + Pieces(rest)
      else
        var ps := Pieces(rest);
        assert forall i :: 0 <= i < n ==> !IsCellSep(s[i]);
        [s[..n] + ps[0]] + ps[1..]
    else
      var ps := Pieces(s[1..]);
      [[s[0]] + ps[0]] + ps[1..]
  }

  /** The split yields two or more pieces exactly when a separator character occurs. */
  lemma {:induction false} PiecesSplitIff(s: string)
    ensures |Pieces(s)| >= 2 <==> exists i :: 0 <= i < |s| && IsCellSep(s[i])
    decreases |s|
  {
    if s == [] {
    } else if s[0] == ';' || s[0] == ',' {
      var t := s[1..];
      assert IsCellSep(s[0]);
    } else if IsSpace(s[0]) {
      var n := LeadingSpace(s);
      var rest := s[n..];
      if rest != [] && (rest[0] == ';' || rest[0] == ',') {
        assert IsCellSep(s[n]);
      } else if exists i :: 0 <= i < n && s[i] == '\t' {
        var i :| 0 <= i < n && s[i] == '\t';
        assert IsCellSep(s[i]);
      } else {
        PiecesSplitIff(rest);
        PiecesPlainSpace(s);
        ShiftedSep(s, n);
      }
    } else {
      PiecesSplitIff(s[1..]);
      PiecesPlainChar(s);
      ShiftedSep(s, 1);
    }
  }

  /** White space that is not a separator joins the first piece of the rest. */
  lemma PiecesPlainSpace(s: string)
    requires s != [] && IsSpace(s[0])
    requires var rest := s[LeadingSpace(s)..]; !(rest != [] && (rest[0] == ';' || rest[0] == ','))
    requires forall i :: 0 <= i < LeadingSpace(s) ==> s[i] != '\t'
    ensures |Pieces(s)| == |Pieces(s[LeadingSpace(s)..])|
    ensures forall i :: 0 <= i < LeadingSpace(s) ==> !IsCellSep(s[i])
  {
  }

  /** A character that is neither a separator nor white space joins the first piece of the rest. */
  lemma PiecesPlainChar(s: string)
    requires s != [] && !IsCellSep(s[0]) && !IsSpace(s[0])
    ensures |Pieces(s)| == |Pieces(s[1..])|
  {
  }

  /** Dropping a prefix free of separators keeps whether a separator occurs. */
  lemma ShiftedSep(s: string, n: nat)
    requires n <= |s| && forall i :: 0 <= i < n ==> !IsCellSep(s[i])
    ensures (exists i :: 0 <= i < |s| && IsCellSep(s[i])) <==> (exists j :: 0 <= j < |s[n..]| && IsCellSep(s[n..][j]))
  {
    if exists i :: 0 <= i < |s| && IsCellSep(s[i]) {
      var i :| 0 <= i < |s| && IsCellSep(s[i]);
      assert s[n..][i - n] == s[i];
    }
  }

  /** Text without separator characters is one piece. */
  lemma {:induction false} PiecesOfPlain(s: string)
    requires forall i :: 0 <= i < |s| ==> !IsCellSep(s[i])
    ensures Pieces(s) == [s]
    decreases |s|
  {
    if s != [] {
      var n := if IsSpace(s[0]) then LeadingSpace(s) else 1;
      PlainSuffix(s, n);
      PiecesOfPlain(s[n..]);
      if IsSpace(s[0]) {
        PlainAfterSpace(s);
      } else {
        PlainAfterChar(s);
      }
    }
  }

  lemma PlainSuffix(s: string, n: nat)
    requires n <= |s| && forall i :: 0 <= i < |s| ==> !IsCellSep(s[i])
    ensures forall i :: 0 <= i < |s[n..]| ==> !IsCellSep(s[n..][i])
  {
    assert forall i :: 0 <= i < |s[n..]| ==> s[n..][i] == s[n + i];
  }

  lemma PlainAfterSpace(s: string)
    requires s != [] && IsSpace(s[0]) && forall i :: 0 <= i < |s| ==> !IsCellSep(s[i])
    requires Pieces(s[LeadingSpace(s)..]) == [s[LeadingSpace(s)..]]
    ensures Pieces(s) == [s]
  {
    var n := LeadingSpace(s);
    var rest := s[n..];
    assert rest != [] ==> !IsCellSep(rest[0]) by {
      if rest != [] { assert rest[0] == s[n]; }
    }
    assert forall i :: 0 <= i < n ==> s[i] != '\t';
    PiecesSpaceJoins(s);
    Rejoin(s, n);
  }

  lemma PlainAfterChar(s: string)
    requires s != [] && !IsSpace(s[0]) && forall i :: 0 <= i < |s| ==> !IsCellSep(s[i])
    requires Pieces(s[1..]) == [s[1..]]
    ensures Pieces(s) == [s]
  {
    PiecesCharJoins(s);
    assert [s[0]] + s[1..] == s;
  }

  /** Text free of separators that does not end in white space, then `,` or
      `;` with optional white space, splits off as the first piece. */
  lemma {:induction false} PiecesAfterToken(a: string, c: char, ws: string, b: string)
    requires forall i :: 0 <= i < |a| ==> !IsCellSep(a[i])
    requires a == [] || !IsSpace(a[|a| - 1])
    requires c == ',' || c == ';'
    requires forall i :: 0 <= i < |ws| ==> IsSpace(ws[i])
    requires b == [] || !IsSpace(b[0])
    ensures Pieces(a + [c] + ws + b) == [a] + Pieces(b)
  {
    var t := [c] + ws + b;
    Assoc(a, [c], ws);
    Assoc(a, [c] + ws, b);
    PiecesAtSeparator(c, ws, b);
    TokenThenSeparator(a, t, Pieces(b));
  }

  /** A separator with its white space opens the next piece. */
  lemma PiecesAtSeparator(c: char, ws: string, b: string)
    requires c == ',' || c == ';'
    requires forall i :: 0 <= i < |ws| ==> IsSpace(ws[i])
    requires b == [] || !IsSpace(b[0])
    ensures Pieces([c] + ws + b) == [""] + Pieces(b)
  {
    var s := [c] + ws + b;
    Assoc([c], ws, b);
    Parts(c, ws + b);
    LeadingWhiteRun(ws, b);
    assert (ws + b)[|ws|..] == b;
  }

  /** Text free of separators that does not end in white space joins the
      empty first piece of what follows it; white space inside it is no
      separator, since a character other than `,` or `;` follows it. */
  lemma {:induction false} TokenThenSeparator(a: string, t: string, rest: seq<string>)
    requires forall i :: 0 <= i < |a| ==> !IsCellSep(a[i])
    requires a == [] || !IsSpace(a[|a| - 1])
    requires t != [] && (t[0] == ',' || t[0] == ';')
    requires Pieces(t) == [""] + rest
    ensures Pieces(a + t) == [a] + rest
    decreases |a|
  {
    if a == [] {
      assert a + t == t;
    } else if !IsSpace(a[0]) {
      ConsAppend(a, t);
      PiecesCharJoins(a + t);
      TokenThenSeparator(a[1..], t, rest);
      Cons(a);
    } else {
      var n := SpaceInside(a, t);
      PiecesSpaceJoins(a + t);
      TokenThenSeparator(a[n..], t, rest);
      assert a[..n] + a[n..] == a;
    }
  }

  /** A character that is neither a separator nor white space opens the first piece. */
  lemma PiecesCharJoins(s: string)
    requires s != [] && !IsCellSep(s[0]) && !IsSpace(s[0])
    ensures Pieces(s) == [[s[0]] + Pieces(s[1..])[0]] + Pieces(s[1..])[1..]
  {
  }

  /** A white-space run without a tab, followed by a character other than
      `,` and `;`, opens the first piece. */
  lemma PiecesSpaceJoins(s: string)
    requires s != [] && IsSpace(s[0])
    requires var rest := s[LeadingSpace(s)..]; !(rest != [] && (rest[0] == ',' || rest[0] == ';'))
    requires forall i :: 0 <= i < LeadingSpace(s) ==> s[i] != '\t'
    ensures var n := LeadingSpace(s);
            Pieces(s) == [s[..n] + Pieces(s[n..])[0]] + Pieces(s[n..])[1..]
  {
  }

  /** The white space at the start of text without separators that does not
      end in white space stops inside it, before a character other than `,`
      and `;`, and holds no tab. */
  lemma SpaceInside(a: string, t: string) returns (n: nat)
    requires a != [] && IsSpace(a[0]) && !IsSpace(a[|a| - 1])
    requires forall i :: 0 <= i < |a| ==> !IsCellSep(a[i])
    ensures n == LeadingSpace(a + t) && 0 < n < |a|
    ensures (a + t)[..n] == a[..n] && (a + t)[n..] == a[n..] + t
    ensures (a + t)[n] != ',' && (a + t)[n] != ';'
    ensures forall i :: 0 <= i < n ==> (a + t)[i] != '\t'
  {
    var s := a + t;
    n := LeadingSpace(s);
    assert s[|a| - 1] == a[|a| - 1];
    assert s[0] == a[0];
    assert s[n] == a[n];
    forall i | 0 <= i < n ensures s[i] != '\t' {
      assert s[i] == a[i];
    }
  }

  lemma {:induction false} LeadingWhiteRun(ws: string, b: string)
    requires forall i :: 0 <= i < |ws| ==> IsSpace(ws[i])
    requires b == [] || !IsSpace(b[0])
    ensures LeadingSpace(ws + b) == |ws|
    decreases |ws|
  {
    if ws == [] {
      assert ws + b == b;
    } else {
      assert (ws + b)[1..] == ws[1..] + b;
      LeadingWhiteRun(ws[1..], b);
    }
  }

  /** The row of a cell the bracket pattern matches: both groups trimmed, and
      the name without its trailing `-`, `:` and white space. */
  function BracketRow(raw: string, p: nat): (r: PayloadRow)
    requires BracketSplit(raw) == Some(p)
    ensures r.id.Some? && IsTrimmed(r.id.value) && IsTrimmed(r.name)
    ensures r.name != [] ==> r.name[|r.name| - 1] != '-' && r.name[|r.name| - 1] != ':'
  {
    var stripped := StripTrailingMarks(Trim(raw[..p]));
    TrimKeepsStripped(stripped);
    PayloadRow(Some(Trim(raw[p + 1..|raw| - 1])), Trim(stripped))
  }

  /** The row of any other cell: with separators, an id token at the front or
      else at the back is the id and the other pieces, joined by spaces, the
      name; a lone id token is both id and name; anything else is a name. */
  function CsvRow(raw: string): (r: PayloadRow)
    ensures r.id.Some? ==> IsIdToken(r.id.value)
    ensures r.id.None? ==> r.name == raw
  {
    var csv := Pieces(raw);
    if |csv| >= 2 then PickId(raw, csv)
    else if IsIdToken(raw) then PayloadRow(Some(raw), raw)
    else PayloadRow(None, raw)
  }

  /** The id heuristic over two or more pieces. */
  function PickId(raw: string, csv: seq<string>): (r: PayloadRow)
    requires |csv| >= 2
    ensures r.id.Some? ==> IsIdToken(r.id.value)
    ensures r.id.None? ==> r.name == raw
  {
    if IsIdToken(csv[0]) then PayloadRow(Some(csv[0]), Join(csv[1..], " "))
    else if IsIdToken(csv[|csv| - 1]) then PayloadRow(Some(csv[|csv| - 1]), Join(csv[..|csv| - 1], " "))
    else PayloadRow(None, raw)
  }

  /** A separator character `;`, `,` or tab occurs in `s`. */
  predicate HasCellSep(s: string)
  {
    exists i :: 0 <= i < |s| && IsCellSep(s[i])
  }

  /** With separators, an id token as the first piece wins over one as the
      last; the name is then the other pieces joined by single spaces, and
      with no id token at either end the whole cell is the name. */
  lemma CsvRowCases(raw: string)
    requires HasCellSep(raw)
    ensures var csv, r := Pieces(raw), CsvRow(raw);
            && |csv| >= 2
            && (IsIdToken(csv[0]) ==> r == PayloadRow(Some(csv[0]), Join(csv[1..], " ")))
            && (!IsIdToken(csv[0]) && IsIdToken(csv[|csv| - 1]) ==>
                  r == PayloadRow(Some(csv[|csv| - 1]), Join(csv[..|csv| - 1], " ")))
            && (r.id.None? <==> !IsIdToken(csv[0]) && !IsIdToken(csv[|csv| - 1]))
            && (r.id.None? ==> r.name == raw)
  {
    PiecesSplitIff(raw);
    CsvRowIsPick(raw);
    PickIdCases(raw, Pieces(raw));
  }

  lemma CsvRowIsPick(raw: string)
    requires |Pieces(raw)| >= 2
    ensures CsvRow(raw) == PickId(raw, Pieces(raw))
  {
  }

  lemma PickIdCases(raw: string, csv: seq<string>)
    requires |csv| >= 2
    ensures var r := PickId(raw, csv);
            && (IsIdToken(csv[0]) ==> r == PayloadRow(Some(csv[0]), Join(csv[1..], " ")))
            && (!IsIdToken(csv[0]) && IsIdToken(csv[|csv| - 1]) ==>
                  r == PayloadRow(Some(csv[|csv| - 1]), Join(csv[..|csv| - 1], " ")))
            && (r.id.None? <==> !IsIdToken(csv[0]) && !IsIdToken(csv[|csv| - 1]))
  {
  }

  /** A cell without separators is an id row exactly when it is an id token. */
  lemma CsvRowSingle(raw: string)
    requires forall i :: 0 <= i < |raw| ==> !IsCellSep(raw[i])
    ensures CsvRow(raw) == if IsIdToken(raw) then PayloadRow(Some(raw), raw) else PayloadRow(None, raw)
  {
    PiecesSplitIff(raw);
  }

  /** `parseCell`: a cell without an id keeps its whole trimmed text as the
      name, and an id never carries white space at its ends. */
  function ParseCell(cell: string): (r: PayloadRow)
    ensures r.id.None? ==> r.name == Trim(cell)
    ensures r.id.Some? ==> IsTrimmed(r.id.value)
  {
    var raw := Trim(cell);
    match BracketSplit(raw)
    case Some(p) => BracketRow(raw, p)
    case None =>
      var r := CsvRow(raw);
      if r.id.Some? then IdTokenTrimmed(r.id.value); r else r
  }

  /** Trimming a string that ends in neither `-` nor `:` keeps that property. */
  lemma TrimKeepsStripped(s: string)
    requires s != [] ==> s[|s| - 1] != '-' && s[|s| - 1] != ':' && !IsSpace(s[|s| - 1])
    ensures var t := Trim(s); t != [] ==> t[|t| - 1] != '-' && t[|t| - 1] != ':'
  {
    if s != [] {
      assert IsTrimmed(s) || IsSpace(s[0]);
      var t := Trim(s);
      var i, j :| && 0 <= i <= j <= |s| && t == s[i..j]
                  && (forall k :: 0 <= k < i ==> IsSpace(s[k]))
                  && (forall k :: j <= k < |s| ==> IsSpace(s[k]));
      if t != [] {
        assert j == |s|;
        assert t[|t| - 1] == s[|s| - 1];
      }
    }
  }

  /** A trimmed cell the bracket pattern matches parses to its two groups. */
  lemma ParseCellBracket(raw: string, p: nat)
    requires IsTrimmed(raw) && BracketSplit(raw) == Some(p)
    ensures ParseCell(raw) == PayloadRow(Some(Trim(raw[p + 1..|raw| - 1])), Trim(StripTrailingMarks(Trim(raw[..p]))))
  {
    TrimOfTrimmed(raw);
    assert ParseCell(raw) == BracketRow(raw, p);
  }

  lemma BracketSplitAt(n: string, i: string)
    requires |i| >= 1 && forall k :: 0 <= k < |i| ==> i[k] != '['
    requires !HasLineTerminator(n) && !HasLineTerminator(i)
    ensures BracketSplit(n + "[" + i + "]") == Some(|n|)
  {
    var raw := n + "[" + i + "]";
    assert !HasLineTerminator(raw[..|raw| - 1]) by {
      forall k | 0 <= k < |raw| - 1 ensures !IsLineTerminator(raw[k]) {
        if k < |n| { assert raw[k] == n[k]; }
        else if k > |n| { assert raw[k] == i[k - |n| - 1]; }
      }
    }
    assert raw[|n|] == '[';
    forall q | |n| < q < |raw| - 2 ensures raw[q] != '[' {
      assert raw[q] == i[q - |n| - 1];
    }
  }

  /** "Name [id]": the id is the trimmed bracket contents and the name the text
      before the bracket without its trailing `-`, `:` and white space. */
  lemma BracketForm(n: string, i: string)
    requires n == [] || !IsSpace(n[0])
    requires |i| >= 1 && forall k :: 0 <= k < |i| ==> i[k] != '['
    requires !HasLineTerminator(n) && !HasLineTerminator(i)
    ensures ParseCell(n + "[" + i + "]") == PayloadRow(Some(Trim(i)), Trim(StripTrailingMarks(Trim(n))))
  {
    var raw := n + "[" + i + "]";
    assert raw[..|n|] == n;
    assert raw[|n| + 1..|raw| - 1] == i;
    assert IsTrimmed(raw) by {
      assert raw[0] == (if n == [] then '[' else n[0]);
      assert raw[|raw| - 1] == ']';
    }
    BracketSplitAt(n, i);
    ParseCellBracket(raw, |n|);
  }

  lemma TrimOneTrailingSpace(t: string)
    requires t != [] && IsTrimmed(t)
    ensures Trim(t + " ") == t
  {
    var s := t + " ";
    assert s[0] == t[0];
    assert LeadingSpace(s) == 0;
    assert s[..|s| - 1] == t;
    assert TrailingSpace(t) == 0;
    assert TrailingSpace(s) == 1;
    assert s[0..][..|s[0..]| - 1] == t;
  }

  /** The documented form "name [id]" with one space before the bracket gives
      back the name and the id. */
  lemma NameThenBracketId(name: string, id: string)
    requires name != [] && IsTrimmed(name) && name[|name| - 1] != '-' && name[|name| - 1] != ':'
    requires id != [] && IsTrimmed(id) && forall k :: 0 <= k < |id| ==> id[k] != '['
    requires !HasLineTerminator(name) && !HasLineTerminator(id)
    ensures ParseCell(name + " [" + id + "]") == PayloadRow(Some(id), name)
  {
    var n := name + " ";
    assert name + " [" + id + "]" == n + "[" + id + "]";
    assert !HasLineTerminator(n) by {
      forall k | 0 <= k < |n| ensures !IsLineTerminator(n[k]) {
        if k < |name| { assert n[k] == name[k]; }
      }
    }
    BracketForm(n, id);
    TrimOfTrimmed(id);
    TrimOneTrailingSpace(name);
    assert StripTrailingMarks(name) == name;
    TrimOfTrimmed(name);
  }

  /** "id, name": a leading token of at least three digits is the id and the rest the name. */
  lemma {:induction false} IdThenName(id: string, c: char, ws: string, name: string)
    requires IsIdToken(id)
    requires c == ',' || c == ';'
    requires forall k :: 0 <= k < |ws| ==> IsSpace(ws[k])
    requires IsTrimmed(name) && name != [] && name[|name| - 1] != ']'
    requires forall k :: 0 <= k < |name| ==> !IsCellSep(name[k])
    ensures ParseCell(id + [c] + ws + name) == PayloadRow(Some(id), name)
  {
    var raw := id + [c] + ws + name;
    assert raw[0] == id[0] && raw[|raw| - 1] == name[|name| - 1];
    assert IsDigit(id[|id| - 1]);
    PiecesAfterToken(id, c, ws, name);
    PiecesOfPlain(name);
    ParseCellTwoPieces(raw, id, name);
  }

  /** A trimmed cell not ending in `]` that splits into two pieces goes to
      the id heuristic. */
  lemma ParseCellTwoPieces(raw: string, a: string, b: string)
    requires IsTrimmed(raw) && raw != [] && raw[|raw| - 1] != ']'
    requires Pieces(raw) == [a, b]
    ensures ParseCell(raw) == PickId(raw, [a, b])
  {
    TrimOfTrimmed(raw);
    assert BracketSplit(raw).None?;
  }

  /** "name, id": a trailing token of at least three digits is the id and
      the text before the separator the name, spaces inside it kept. */
  lemma {:induction false} NameThenId(name: string, c: char, ws: string, id: string)
    requires IsTrimmed(name) && name != [] && !IsIdToken(name)
    requires forall k :: 0 <= k < |name| ==> !IsCellSep(name[k])
    requires c == ',' || c == ';'
    requires forall k :: 0 <= k < |ws| ==> IsSpace(ws[k])
    requires IsIdToken(id)
    ensures ParseCell(name + [c] + ws + id) == PayloadRow(Some(id), name)
  {
    var raw := name + [c] + ws + id;
    assert raw[0] == name[0] && raw[|raw| - 1] == id[|id| - 1];
    PiecesAfterToken(name, c, ws, id);
    IdTokenPlain(id);
    PiecesOfPlain(id);
    ParseCellTwoPieces(raw, name, id);
    PickTrailingId(raw, name, id);
  }

  lemma IdTokenPlain(id: string)
    requires IsIdToken(id)
    ensures forall k :: 0 <= k < |id| ==> !IsCellSep(id[k])
  {
    forall k | 0 <= k < |id| ensures !IsCellSep(id[k]) {
      assert IsDigit(id[k]);
    }
  }

  lemma PickTrailingId(raw: string, name: string, id: string)
    requires !IsIdToken(name) && IsIdToken(id)
    ensures PickId(raw, [name, id]) == PayloadRow(Some(id), name)
  {
    assert [name, id][..1] == [name];
  }

  /** A piece followed by a line feed loses a `\r` before it. */
  function DropCarriageReturn(p: string): (r: string)
    ensures r == p || (p == r + ['\r'])
  {
    if p != [] && p[|p| - 1] == '\r' then p[..|p| - 1] else p
  }

  /** A line without its `\r`, trimmed. */
  function CleanLine(p: string): (r: string)
    ensures IsTrimmed(r)
  {
    Trim(DropCarriageReturn(p))
  }

  /** Every piece but the last, without its `\r`, trimmed. */
  function EndedLines(ps: seq<string>): (r: seq<string>)
    ensures |r| == |ps|
    ensures forall i :: 0 <= i < |r| ==> r[i] == CleanLine(ps[i])
  {
    seq(|ps|, i requires 0 <= i < |ps| => CleanLine(ps[i]))
  }

  /** The lines of a pasted text: split on `\r?\n`, each trimmed. */
  function Lines(text: string): (r: seq<string>)
    ensures |r| >= 1
    ensures forall i :: 0 <= i < |r| ==> IsTrimmed(r[i])
  {
    var ps := SplitOn(text, c => c == '\n');
    EndedLines(ps[..|ps| - 1]) + [Trim(ps[|ps| - 1])]
  }

  /** A kept line is neither blank nor a `#` comment. */
  predicate IsKept(l: string)
  {
    |l| > 0 && !StartsWith(l, "#")
  }

  function KeptLines(ls: seq<string>): (r: seq<string>)
    ensures forall l :: l in r <==> l in ls && IsKept(l)
    ensures |r| <= |ls|
  {
    if ls == [] then []
    else
      var rest := KeptLines(ls[..|ls| - 1]);
      var l := ls[|ls| - 1];
      assert ls == ls[..|ls| - 1] + [l];
      if IsKept(l) then rest + [l] else rest
  }

  /** The sub rows with a non-empty name. */
  function NamedRows(rows: seq<PayloadRow>): (r: seq<PayloadRow>)
    ensures forall x :: x in r <==> x in rows && x.name != ""
    ensures |r| <= |rows|
  {
    if rows == [] then []
    else
      var rest := NamedRows(rows[..|rows| - 1]);
      var x := rows[|rows| - 1];
      assert rows == rows[..|rows| - 1] + [x];
      if x.name != "" then rest + [x] else rest
  }

  /** Every line parsed as a cell. */
  function ParseRows(ls: seq<string>): (r: seq<PayloadRow>)
    ensures |r| == |ls|
    ensures forall i :: 0 <= i < |r| ==> r[i] == ParseCell(ls[i])
  {
    seq(|ls|, i requires 0 <= i < |ls| => ParseCell(ls[i]))
  }

  /** `parseDependencyTable`: every sub row has a name, and there are fewer
      sub rows than kept lines. */
  function ParseDependencyTable(text: string): (r: Option<DependencyPayload>)
    ensures r.Some? ==> |r.value.subs| < |KeptLines(Lines(text))|
    ensures r.Some? ==> forall s :: s in r.value.subs ==> s.name != ""
  {
    var lines := KeptLines(Lines(text));
    if |lines| == 0 then None
    else
      var rest := lines[1..];
      Some(DependencyPayload(ParseCell(lines[0]), NamedRows(ParseRows(rest))))
  }

  /** Nothing comes back exactly when no line is kept. */
  lemma ParseDependencyTableEmpty(text: string)
    ensures ParseDependencyTable(text).None? <==> forall l :: l in Lines(text) ==> !IsKept(l)
  {
    var lines := KeptLines(Lines(text));
    if |lines| == 0 {
      forall l | l in Lines(text) ensures !IsKept(l) { assert l !in lines; }
    } else {
      assert lines[0] in Lines(text);
    }
  }

  /** Otherwise the first kept line is the main row, and the subs are parsed
      from the other kept lines, all named, at most one fewer than the kept lines. */
  lemma ParseDependencyTableRows(text: string)
    requires ParseDependencyTable(text).Some?
    ensures var r := ParseDependencyTable(text).value;
            var kept := KeptLines(Lines(text));
            && r.main == ParseCell(kept[0])
            && |r.subs| <= |kept| - 1
            && (forall s :: s in r.subs ==> s.name != "")
            && (forall s :: s in r.subs ==> exists l :: l in kept[1..] && s == ParseCell(l))
            && (forall l :: l in kept[1..] && ParseCell(l).name != "" ==> ParseCell(l) in r.subs)
  {
    var lines := KeptLines(Lines(text));
    var rest := lines[1..];
    assert ParseDependencyTable(text).value.subs == NamedRows(ParseRows(rest));
    SubsFromLines(rest);
    LinesToSubs(rest);
  }

  /** Each line whose cell has a name gives a named row. */
  lemma LinesToSubs(rest: seq<string>)
    ensures forall l :: l in rest && ParseCell(l).name != "" ==> ParseCell(l) in NamedRows(ParseRows(rest))
  {
    var rows := ParseRows(rest);
    forall l | l in rest && ParseCell(l).name != "" ensures ParseCell(l) in NamedRows(rows) {
      var k :| 0 <= k < |rest| && rest[k] == l;
      assert rows[k] in rows;
    }
  }

  /** `i` is the index of the first kept line of `ls`. */
  ghost predicate FirstKept(ls: seq<string>, i: int)
  {
    0 <= i < |ls| && IsKept(ls[i]) && forall j :: 0 <= j < i ==> !IsKept(ls[j])
  }

  /** The rows of the kept lines whose cell has a name, in line order. */
  function SubRows(ls: seq<string>): seq<PayloadRow>
  {
    if ls == [] then []
    else
      var here := if IsKept(ls[0]) && ParseCell(ls[0]).name != "" then [ParseCell(ls[0])] else [];
      here + SubRows(ls[1..])
  }

  /** The first kept line is the main row and the following lines give the
      subs in their order, skipping blank lines, comments and unnamed cells. */
  lemma ParseDependencyTableInOrder(text: string, i: nat)
    requires FirstKept(Lines(text), i)
    ensures ParseDependencyTable(text)
            == Some(DependencyPayload(ParseCell(Lines(text)[i]), SubRows(Lines(text)[i + 1..])))
  {
    KeptFromFirst(Lines(text), i);
    SubRowsFiltered(Lines(text)[i + 1..]);
  }

  /** The kept lines start at the first kept one. */
  lemma KeptFromFirst(ls: seq<string>, i: nat)
    requires FirstKept(ls, i)
    ensures KeptLines(ls) == [ls[i]] + KeptLines(ls[i + 1..])
  {
    var after := ls[i + 1..];
    assert ls == ls[..i] + ([ls[i]] + after);
    KeptLinesAppend(ls[..i], [ls[i]] + after);
    KeptLinesNone(ls[..i]);
    KeptLinesAppend([ls[i]], after);
    KeptLinesOne(ls[i]);
  }

  lemma KeptLinesOne(x: string)
    ensures KeptLines([x]) == if IsKept(x) then [x] else []
  {
    assert [x][..0] == [];
  }

  lemma NamedRowsOne(x: PayloadRow)
    ensures NamedRows([x]) == if x.name != "" then [x] else []
  {
    assert [x][..0] == [];
  }

  lemma ParseRowsAppend(a: seq<string>, b: seq<string>)
    ensures ParseRows(a + b) == ParseRows(a) + ParseRows(b)
  {
    assert forall k :: 0 <= k < |a + b| ==> (a + b)[k] == if k < |a| then a[k] else b[k - |a|];
  }

  /** One line in front: its row, when kept and named, comes first. */
  lemma FilteredCons(x: string, tail: seq<string>)
    ensures NamedRows(ParseRows(KeptLines([x] + tail)))
            == NamedRows(ParseRows(KeptLines([x]))) + NamedRows(ParseRows(KeptLines(tail)))
  {
    KeptLinesAppend([x], tail);
    ParseRowsAppend(KeptLines([x]), KeptLines(tail));
    NamedRowsAppend(ParseRows(KeptLines([x])), ParseRows(KeptLines(tail)));
  }

  lemma FilteredOne(x: string)
    ensures NamedRows(ParseRows(KeptLines([x])))
            == if IsKept(x) && ParseCell(x).name != "" then [ParseCell(x)] else []
  {
    KeptLinesOne(x);
    if IsKept(x) {
      ParseRowsOne(x);
      NamedRowsOne(ParseCell(x));
    } else {
      assert ParseRows([]) == [];
    }
  }

  lemma ParseRowsOne(x: string)
    ensures ParseRows([x]) == [ParseCell(x)]
  {
  }

  /** Keeping lines, parsing them and keeping the named rows is SubRows. */
  lemma {:induction false} SubRowsFiltered(ls: seq<string>)
    ensures NamedRows(ParseRows(KeptLines(ls))) == SubRows(ls)
    decreases |ls|
  {
    if ls != [] {
      assert ls == [ls[0]] + ls[1..];
      FilteredCons(ls[0], ls[1..]);
      FilteredOne(ls[0]);
      SubRowsFiltered(ls[1..]);
    }
  }

  /** Keeping lines commutes with concatenation. */
  lemma {:induction false} KeptLinesAppend(a: seq<string>, b: seq<string>)
    ensures KeptLines(a + b) == KeptLines(a) + KeptLines(b)
    decreases |b|
  {
    if b == [] {
      assert a + b == a;
    } else {
      var n := |b| - 1;
      assert (a + b)[..|a + b| - 1] == a + b[..n];
      assert (a + b)[|a + b| - 1] == b[n];
      KeptLinesAppend(a, b[..n]);
    }
  }

  /** Lines none of which is kept keep nothing. */
  lemma {:induction false} KeptLinesNone(a: seq<string>)
    requires forall j :: 0 <= j < |a| ==> !IsKept(a[j])
    ensures KeptLines(a) == []
    decreases |a|
  {
    if a != [] {
      var n := |a| - 1;
      assert forall j :: 0 <= j < n ==> a[..n][j] == a[j];
      KeptLinesNone(a[..n]);
    }
  }

  /** Keeping named rows commutes with concatenation. */
  lemma {:induction false} NamedRowsAppend(a: seq<PayloadRow>, b: seq<PayloadRow>)
    ensures NamedRows(a + b) == NamedRows(a) + NamedRows(b)
    decreases |b|
  {
    if b == [] {
      assert a + b == a;
    } else {
      var n := |b| - 1;
      assert (a + b)[..|a + b| - 1] == a + b[..n];
      assert (a + b)[|a + b| - 1] == b[n];
      NamedRowsAppend(a, b[..n]);
    }
  }

  /** Each named row is parsed from one of the lines. */
  lemma SubsFromLines(rest: seq<string>)
    ensures forall s :: s in NamedRows(ParseRows(rest)) ==> exists l :: l in rest && s == ParseCell(l)
  {
    var rows := ParseRows(rest);
    forall s | s in NamedRows(rows) ensures exists l :: l in rest && s == ParseCell(l) {
      var i :| 0 <= i < |rows| && rows[i] == s;
      assert rest[i] in rest;
    }
  }
}

/** Worked examples of the dependency-table parser. */
module DependencyExamples {
  import opened Types
  import opened Text
  import opened DependencyParser

  /** The example of the paste dialog, "Etikett applizieren [100000]". */
  lemma PasteDialogExample(name: string, id: string)
    requires name == "Etikett applizieren" && id == "100000"
    ensures ParseCell(name + " [" + id + "]") == PayloadRow(Some(id), name)
  {
    assert !HasLineTerminator(name) by {
      forall k | 0 <= k < |name| ensures !IsLineTerminator(name[k]) {}
    }
    assert !HasLineTerminator(id) by {
      forall k | 0 <= k < |id| ensures !IsLineTerminator(id[k]) {}
    }
    NameThenBracketId(name, id);
  }

}
