/** Writing a parsed dependency table into a library: the `ensureProcess`
    upsert and the `contains` links of `importDependencies` in
    src/store/useFlowchartStore.ts, which backend/server.js repeats with one
    difference in how a missing id is recognised. */
module Upsert {
  import opened Types
  import opened Text

  /** How a row's id is tested for absence: the store uses `id ?? …`, so only an
      absent id is replaced; the server uses `id || …`, so an empty id is too. */
  datatype IdRule = Nullish | Falsy

  /** `replace(/\s+/g, '-')`: every run of white space becomes one `-`. */
  function Slug(s: string): (r: string)
    ensures forall i :: 0 <= i < |r| ==> !IsSpace(r[i])
    decreases |s|
  {
    if s == [] then []
    else if IsSpace(s[0]) then
      assert LeadingSpace(s) > 0;
      "-" + Slug(s[LeadingSpace(s)..])
    else [s[0]] + Slug(s[1..])
  }

  /** Text without white space is its own slug. */
  lemma {:induction false} SlugOfPlain(s: string)
    requires forall i :: 0 <= i < |s| ==> !IsSpace(s[i])
    ensures Slug(s) == s
    decreases |s|
  {
    if s != [] {
      SlugOfPlain(s[1..]);
      assert [s[0]] + s[1..] == s;
    }
  }

  /** The generated id of a row without one: `gen:` and the slug of the lower-cased name. */
  function GenId(name: string): (r: string)
    ensures StartsWith(r, "gen:")
    ensures forall i :: 4 <= i < |r| ==> !IsSpace(r[i])
  {
    var slug := Slug(Lower(name));
    assert ("gen:" + slug)[..4] == "gen:";
    "gen:" + slug
  }

  /** The process id a row stands for. */
  function ResolveId(id: Option<string>, name: string, rule: IdRule): string
  {
    if id.Some? && (rule == Nullish || id.value != "") then id.value else GenId(name)
  }

  /** The two rules pick the same id exactly when the row's id is not the empty string. */
  lemma ResolveRulesAgree(id: Option<string>, name: string)
    ensures ResolveId(id, name, Nullish) == ResolveId(id, name, Falsy) <==> id != Some("")
  {
    if id == Some("") {
      assert |GenId(name)| >= 4;
    }
  }

  /** `processes.find(x => x.id === pid)`, as an index. */
  function IndexOfId(ps: seq<Process>, pid: string): (r: Option<nat>)
    ensures r.None? <==> forall i :: 0 <= i < |ps| ==> ps[i].id != pid
    ensures r.Some? ==> r.value < |ps| && ps[r.value].id == pid
                        && forall j :: 0 <= j < r.value ==> ps[j].id != pid
  {
    if ps == [] then None
    else
      var r := IndexOfId(ps[..|ps| - 1], pid);
      if r.Some? then r
      else if ps[|ps| - 1].id == pid then Some(|ps| - 1)
      else None
  }

  /** The first index holding the id is what the search finds. */
  lemma {:induction false} IndexOfIdAt(ps: seq<Process>, pid: string, i: nat)
    requires i < |ps| && ps[i].id == pid
    requires forall j :: 0 <= j < i ==> ps[j].id != pid
    ensures IndexOfId(ps, pid) == Some(i)
  {
    if i < |ps| - 1 {
      IndexOfIdAt(ps[..|ps| - 1], pid, i);
    } else {
      assert IndexOfId(ps[..|ps| - 1], pid).None?;
    }
  }

  /** The record a missing process is created as. */
  function NewProcess(pid: string, name: string, kind: ProcessKind): Process
  {
    Process(pid, name, kind, Some([]), None, None, None, None)
  }

  /** The process `pid` exists and its name is set, or the name offered for it was empty. */
  predicate Settled(ps: seq<Process>, pid: string, name: string)
  {
    match IndexOfId(ps, pid)
    case None => false
    case Some(i) => ps[i].name != "" || name == ""
  }

  /** `r` keeps every process of `ps` at its place with its id, and a name once set. */
  predicate Grows(ps: seq<Process>, r: seq<Process>)
  {
    && |ps| <= |r|
    && forall i :: 0 <= i < |ps| ==> r[i].id == ps[i].id && (ps[i].name != "" ==> r[i].name == ps[i].name)
  }

  lemma GrowsTransitive(a: seq<Process>, b: seq<Process>, c: seq<Process>)
    requires Grows(a, b) && Grows(b, c)
    ensures Grows(a, c)
  {
  }

  /** Settling survives any growth. */
  lemma SettledPersists(ps: seq<Process>, r: seq<Process>, pid: string, name: string)
    requires Settled(ps, pid, name) && Grows(ps, r)
    ensures Settled(r, pid, name)
  {
    var i := IndexOfId(ps, pid).value;
    assert forall j :: 0 <= j < i ==> r[j].id != pid by {
      forall j | 0 <= j < i ensures r[j].id != pid { assert r[j].id == ps[j].id; }
    }
    IndexOfIdAt(r, pid, i);
  }

  /** `ensureProcess`: create the process when no process has the id, otherwise
      fill in the first one's name if it is empty. */
  function EnsureProcess(ps: seq<Process>, pid: string, name: string, kind: ProcessKind): (r: seq<Process>)
    ensures Grows(ps, r) && Settled(r, pid, name)
    ensures forall i :: 0 <= i < |ps| ==> r[i] == ps[i] || (ps[i].name == "" && r[i] == ps[i].(name := name))
    ensures |r| == |ps| || (|r| == |ps| + 1 && r[|ps|] == NewProcess(pid, name, kind)
                            && forall i :: 0 <= i < |ps| ==> ps[i].id != pid)
    ensures Settled(ps, pid, name) ==> r == ps
  {
    match IndexOfId(ps, pid)
    case None =>
      var r := ps + [NewProcess(pid, name, kind)];
      IndexOfIdAt(r, pid, |ps|);
      r
    case Some(i) =>
      var p := ps[i];
      var r := ps[i := p.(name := if p.name != "" then p.name else name)];
      IndexOfIdAt(r, pid, i);
      r
  }

  /** `subs.map(s => ensureProcess(s.id, s.name, 'Teilprozess'))`: the
      processes after every sub row, and the ids in row order. */
  function EnsureAll(ps: seq<Process>, rows: seq<PayloadRow>, rule: IdRule): (r: (seq<Process>, seq<string>))
    ensures |r.1| == |rows|
    ensures forall i :: 0 <= i < |rows| ==> r.1[i] == ResolveId(rows[i].id, rows[i].name, rule)
    ensures Grows(ps, r.0)
    ensures forall i :: 0 <= i < |rows| ==> Settled(r.0, r.1[i], rows[i].name)
  {
    if rows == [] then (ps, [])
    else
      var init := EnsureAll(ps, rows[..|rows| - 1], rule);
      var row := rows[|rows| - 1];
      var pid := ResolveId(row.id, row.name, rule);
      var next := EnsureProcess(init.0, pid, row.name, Teilprozess);
      EnsureAllStep(ps, rows[..|rows| - 1], row, rule, init);
      Snoc(rows);
      (next, init.1 + [pid])
  }

  /** One more row keeps the promises of the upsert loop. */
  lemma EnsureAllStep(ps: seq<Process>, pre: seq<PayloadRow>, row: PayloadRow, rule: IdRule, init: (seq<Process>, seq<string>))
    requires |init.1| == |pre|
    requires forall i :: 0 <= i < |pre| ==> init.1[i] == ResolveId(pre[i].id, pre[i].name, rule)
    requires Grows(ps, init.0)
    requires forall i :: 0 <= i < |pre| ==> Settled(init.0, init.1[i], pre[i].name)
    ensures var pid := ResolveId(row.id, row.name, rule);
            var r := (EnsureProcess(init.0, pid, row.name, Teilprozess), init.1 + [pid]);
            && |r.1| == |pre + [row]|
            && (forall i :: 0 <= i < |pre + [row]| ==> r.1[i] == ResolveId((pre + [row])[i].id, (pre + [row])[i].name, rule))
            && Grows(ps, r.0)
            && (forall i :: 0 <= i < |pre + [row]| ==> Settled(r.0, r.1[i], (pre + [row])[i].name))
  {
    var pid := ResolveId(row.id, row.name, rule);
    var next := EnsureProcess(init.0, pid, row.name, Teilprozess);
    GrowsTransitive(ps, init.0, next);
    SettledAll(init.0, next, init.1, pre);
    AppendIndex(init.1, pid);
    AppendIndex(pre, row);
  }

  /** Every row settled before stays settled after growth. */
  lemma SettledAll(a: seq<Process>, b: seq<Process>, ids: seq<string>, rows: seq<PayloadRow>)
    requires Grows(a, b) && |ids| == |rows|
    requires forall i :: 0 <= i < |rows| ==> Settled(a, ids[i], rows[i].name)
    ensures forall i :: 0 <= i < |rows| ==> Settled(b, ids[i], rows[i].name)
  {
    forall i | 0 <= i < |rows| ensures Settled(b, ids[i], rows[i].name) {
      SettledPersists(a, b, ids[i], rows[i].name);
    }
  }

  /** One more row is one more `ensureProcess`. */
  lemma EnsureAllSnoc(ps: seq<Process>, rows: seq<PayloadRow>, i: nat, rule: IdRule)
    requires i < |rows|
    ensures var prev := EnsureAll(ps, rows[..i], rule);
            var pid := ResolveId(rows[i].id, rows[i].name, rule);
            EnsureAll(ps, rows[..i + 1], rule) == (EnsureProcess(prev.0, pid, rows[i].name, Teilprozess), prev.1 + [pid])
  {
    assert rows[..i + 1][..i] == rows[..i];
    assert rows[..i + 1][i] == rows[i];
  }

  /** The upsert of rows that are all settled changes nothing. */
  lemma {:induction false} EnsureAllSettled(ps: seq<Process>, rows: seq<PayloadRow>, rule: IdRule)
    requires forall i :: 0 <= i < |rows| ==> Settled(ps, ResolveId(rows[i].id, rows[i].name, rule), rows[i].name)
    ensures EnsureAll(ps, rows, rule).0 == ps
  {
    if rows != [] {
      EnsureAllSettled(ps, rows[..|rows| - 1], rule);
    }
  }

  /** Some link of `links` has the key `key`. */
  predicate HasKey(links: seq<ChartEdge>, key: string)
  {
    exists k :: 0 <= k < |links| && EdgeKey(links[k]) == key
  }

  /** The `contains` link from the main process to a sub-process. */
  function ContainsLink(mainId: string, sid: string): ChartEdge
  {
    ChartEdge(mainId, sid, Contains)
  }

  /** `if (!links.find(e => key(e) === key)) links.push(…)`. */
  function AppendIfAbsent(l: seq<ChartEdge>, e: ChartEdge): (r: seq<ChartEdge>)
    ensures r == l || (r == l + [e] && !HasKey(l, EdgeKey(e)))
    ensures HasKey(r, EdgeKey(e))
    ensures forall key :: HasKey(l, key) ==> HasKey(r, key)
  {
    if HasKey(l, EdgeKey(e)) then l
    else
      var r := l + [e];
      assert r[|l|] == e;
      assert forall k :: 0 <= k < |l| ==> r[k] == l[k];
      r
  }

  /** The link loop: a `contains` link from the main process to each sub id,
      appended unless a link with its key already exists. */
  function AddContains(links: seq<ChartEdge>, mainId: string, sids: seq<string>): (r: seq<ChartEdge>)
    ensures |links| <= |r| && r[..|links|] == links
    ensures forall i :: |links| <= i < |r| ==>
              r[i].from == mainId && r[i].edgeType == Contains && r[i].to in sids && !HasKey(links, EdgeKey(r[i]))
    ensures forall i, j :: |links| <= i < j < |r| ==> EdgeKey(r[i]) != EdgeKey(r[j])
    ensures forall i :: 0 <= i < |sids| ==> HasKey(r, EdgeKey(ContainsLink(mainId, sids[i])))
  {
    if sids == [] then links
    else
      var l := AddContains(links, mainId, sids[..|sids| - 1]);
      var e := ContainsLink(mainId, sids[|sids| - 1]);
      var r := AppendIfAbsent(l, e);
      AddContainsStep(links, l, r, mainId, sids[..|sids| - 1], sids[|sids| - 1]);
      Snoc(sids);
      r
  }

  /** One step of the link loop keeps its four promises. */
  lemma AddContainsStep(links: seq<ChartEdge>, l: seq<ChartEdge>, r: seq<ChartEdge>, mainId: string, ps: seq<string>, s: string)
    requires |links| <= |l| && l[..|links|] == links
    requires forall i :: |links| <= i < |l| ==>
               l[i].from == mainId && l[i].edgeType == Contains && l[i].to in ps && !HasKey(links, EdgeKey(l[i]))
    requires forall i, j :: |links| <= i < j < |l| ==> EdgeKey(l[i]) != EdgeKey(l[j])
    requires forall i :: 0 <= i < |ps| ==> HasKey(l, EdgeKey(ContainsLink(mainId, ps[i])))
    requires r == l || (r == l + [ContainsLink(mainId, s)] && !HasKey(l, EdgeKey(ContainsLink(mainId, s))))
    requires HasKey(r, EdgeKey(ContainsLink(mainId, s)))
    requires forall key :: HasKey(l, key) ==> HasKey(r, key)
    ensures |links| <= |r| && r[..|links|] == links
    ensures forall i :: |links| <= i < |r| ==>
              r[i].from == mainId && r[i].edgeType == Contains && r[i].to in ps + [s] && !HasKey(links, EdgeKey(r[i]))
    ensures forall i, j :: |links| <= i < j < |r| ==> EdgeKey(r[i]) != EdgeKey(r[j])
    ensures forall i :: 0 <= i < |ps + [s]| ==> HasKey(r, EdgeKey(ContainsLink(mainId, (ps + [s])[i])))
  {
    var e := ContainsLink(mainId, s);
    var sids := ps + [s];
    assert forall i :: 0 <= i < |ps| ==> sids[i] == ps[i];
    forall i | 0 <= i < |sids| ensures HasKey(r, EdgeKey(ContainsLink(mainId, sids[i]))) {
      if i < |ps| {
        assert HasKey(l, EdgeKey(ContainsLink(mainId, ps[i])));
      }
    }
    forall i | |links| <= i < |l| ensures l[i].to in sids {
      assert l[i].to in ps;
    }
    if r != l {
      assert r[..|links|] == l[..|links|];
      assert !HasKey(links, EdgeKey(e)) by {
        forall k | 0 <= k < |links| ensures EdgeKey(links[k]) != EdgeKey(e) {
          assert links[k] == l[k];
        }
      }
      forall i, j | |links| <= i < j < |r| ensures EdgeKey(r[i]) != EdgeKey(r[j]) {
        if j == |l| {
          assert EdgeKey(r[i]) != EdgeKey(e) by {
            assert i < |l| && r[i] == l[i];
          }
        }
      }
    }
  }

  /** Links whose keys are all present already are left alone. */
  lemma {:induction false} AddContainsPresent(links: seq<ChartEdge>, mainId: string, sids: seq<string>)
    requires forall i :: 0 <= i < |sids| ==> HasKey(links, EdgeKey(ContainsLink(mainId, sids[i])))
    ensures AddContains(links, mainId, sids) == links
  {
    if sids != [] {
      AddContainsPresent(links, mainId, sids[..|sids| - 1]);
    }
  }

  /** The result of writing a table into a library. */
  datatype Upsertion = Upsertion(lib: LibraryData, mainId: string, subIds: seq<string>)

  /** Both copies of the upsert: the main row as a main process, each sub row
      as a sub-process, then the `contains` links. */
  function Upserted(lib: LibraryData, table: DependencyPayload, rule: IdRule): (r: Upsertion)
    ensures r.mainId == ResolveId(table.main.id, table.main.name, rule)
    ensures |r.subIds| == |table.subs|
    ensures forall i :: 0 <= i < |table.subs| ==> r.subIds[i] == ResolveId(table.subs[i].id, table.subs[i].name, rule)
  {
    var mainId := ResolveId(table.main.id, table.main.name, rule);
    var ps1 := EnsureProcess(lib.processes, mainId, table.main.name, Hauptprozess);
    var all := EnsureAll(ps1, table.subs, rule);
    Upsertion(lib.(processes := all.0, links := AddContains(lib.links, mainId, all.1)), mainId, all.1)
  }

  /** After the upsert every process of the library is still in place, the main
      process and each sub-process exists with its name set (unless the row's
      name was empty), the old links are a prefix of the new ones, a `contains`
      link joins the main process to each sub-process, and blocks and notes
      are untouched. */
  lemma UpsertedProperties(lib: LibraryData, table: DependencyPayload, rule: IdRule)
    ensures var r := Upserted(lib, table, rule);
            && Grows(lib.processes, r.lib.processes)
            && Settled(r.lib.processes, r.mainId, table.main.name)
            && (forall i :: 0 <= i < |table.subs| ==> Settled(r.lib.processes, r.subIds[i], table.subs[i].name))
            && |lib.links| <= |r.lib.links| && r.lib.links[..|lib.links|] == lib.links
            && (forall i :: 0 <= i < |r.subIds| ==> HasKey(r.lib.links, EdgeKey(ContainsLink(r.mainId, r.subIds[i]))))
            && r.lib.buildingBlocks == lib.buildingBlocks && r.lib.notes == lib.notes
  {
    var mainId := ResolveId(table.main.id, table.main.name, rule);
    var ps1 := EnsureProcess(lib.processes, mainId, table.main.name, Hauptprozess);
    var all := EnsureAll(ps1, table.subs, rule);
    SettledPersists(ps1, all.0, mainId, table.main.name);
    GrowsTransitive(lib.processes, ps1, all.0);
  }

  /** Importing the same table a second time changes nothing. */
  lemma UpsertIdempotent(lib: LibraryData, table: DependencyPayload, rule: IdRule)
    ensures Upserted(Upserted(lib, table, rule).lib, table, rule) == Upserted(lib, table, rule)
  {
    var u := Upserted(lib, table, rule);
    UpsertedProperties(lib, table, rule);
    UpsertSettled(u.lib, table, rule, u.mainId, u.subIds);
  }

  /** A library in which the table's processes are all settled and its links
      all present comes back unchanged, with the same ids. */
  lemma UpsertSettled(l: LibraryData, table: DependencyPayload, rule: IdRule, mainId: string, ids: seq<string>)
    requires mainId == ResolveId(table.main.id, table.main.name, rule)
    requires |ids| == |table.subs|
    requires forall i :: 0 <= i < |table.subs| ==> ids[i] == ResolveId(table.subs[i].id, table.subs[i].name, rule)
    requires Settled(l.processes, mainId, table.main.name)
    requires forall i :: 0 <= i < |table.subs| ==> Settled(l.processes, ids[i], table.subs[i].name)
    requires forall i :: 0 <= i < |ids| ==> HasKey(l.links, EdgeKey(ContainsLink(mainId, ids[i])))
    ensures Upserted(l, table, rule) == Upsertion(l, mainId, ids)
  {
    var ps := l.processes;
    assert EnsureProcess(ps, mainId, table.main.name, Hauptprozess) == ps;
    EnsureAllSettled(ps, table.subs, rule);
    var all := EnsureAll(ps, table.subs, rule);
    assert all.1 == ids;
    AddContainsPresent(l.links, mainId, ids);
  }

  /** Without empty-string ids the store and the server write the same library. */
  lemma StoreAndServerAgree(lib: LibraryData, table: DependencyPayload)
    requires table.main.id != Some("")
    requires forall i :: 0 <= i < |table.subs| ==> table.subs[i].id != Some("")
    ensures Upserted(lib, table, Nullish) == Upserted(lib, table, Falsy)
  {
    ResolveRulesAgree(table.main.id, table.main.name);
    forall i | 0 <= i < |table.subs| ensures ResolveId(table.subs[i].id, table.subs[i].name, Nullish) == ResolveId(table.subs[i].id, table.subs[i].name, Falsy) {
      ResolveRulesAgree(table.subs[i].id, table.subs[i].name);
    }
    EnsureAllRulesAgree(EnsureProcess(lib.processes, ResolveId(table.main.id, table.main.name, Nullish), table.main.name, Hauptprozess), table.subs);
  }

  lemma {:induction false} EnsureAllRulesAgree(ps: seq<Process>, rows: seq<PayloadRow>)
    requires forall i :: 0 <= i < |rows| ==> ResolveId(rows[i].id, rows[i].name, Nullish) == ResolveId(rows[i].id, rows[i].name, Falsy)
    ensures EnsureAll(ps, rows, Nullish) == EnsureAll(ps, rows, Falsy)
  {
    if rows != [] {
      EnsureAllRulesAgree(ps, rows[..|rows| - 1]);
    }
  }

  /** The sub-row loop. */
  method EnsureRows(ps: seq<Process>, rows: seq<PayloadRow>, rule: IdRule) returns (processes: seq<Process>, ids: seq<string>)
    ensures (processes, ids) == EnsureAll(ps, rows, rule)
  {
    processes, ids := ps, [];
    var i := 0;
    while i < |rows|
      invariant 0 <= i <= |rows|
      invariant (processes, ids) == EnsureAll(ps, rows[..i], rule)
    {
      var row := rows[i];
      var pid := ResolveId(row.id, row.name, rule);
      EnsureAllSnoc(ps, rows, i, rule);
      processes := EnsureProcess(processes, pid, row.name, Teilprozess);
      ids := ids + [pid];
      i := i + 1;
    }
    assert rows[..i] == rows;
  }

  /** The link loop. */
  method AddLinks(links: seq<ChartEdge>, mainId: string, sids: seq<string>) returns (r: seq<ChartEdge>)
    ensures r == AddContains(links, mainId, sids)
  {
    r := links;
    var j := 0;
    while j < |sids|
      invariant 0 <= j <= |sids|
      invariant r == AddContains(links, mainId, sids[..j])
    {
      var e := ContainsLink(mainId, sids[j]);
      assert sids[..j + 1][..j] == sids[..j];
      if !HasKey(r, EdgeKey(e)) {
        r := r + [e];
      }
      j := j + 1;
    }
    assert sids[..j] == sids;
  }

  /** The upsert as the source runs it. */
  method UpsertDependencies(lib: LibraryData, table: DependencyPayload, rule: IdRule) returns (r: Upsertion)
    ensures r == Upserted(lib, table, rule)
  {
    var mainId := ResolveId(table.main.id, table.main.name, rule);
    var ps1 := EnsureProcess(lib.processes, mainId, table.main.name, Hauptprozess);
    var processes, subIds := EnsureRows(ps1, table.subs, rule);
    var links := AddLinks(lib.links, mainId, subIds);
    r := Upsertion(lib.(processes := processes, links := links), mainId, subIds);
  }
}
