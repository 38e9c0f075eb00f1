/** The sweatfile cascade: layers merged one onto another, and the filters that
    read the result (internal/0/sweatfile/hierarchy.go,
    internal/0/sweatfile/sweatfile.go). */
module Sweatfiles {
  import opened Text

  /** One definition of a named array: its command or rationale, whether it is an
      explicit removal, and its other fields. */
  datatype Entry = Entry(name: string, text: string, remove: bool, details: seq<string>)

  type List = Option<seq<string>>
  type Table = map<string, string>

  /** The settings taken from their own layers only, never from a merge. */
  datatype Trusted = Trusted(
    urlResolver: Option<string>, profileRights: Option<string>, confinement: Option<string>, permissions: Option<string>,
    health: Option<string>, folio: Option<string>, store: Option<string>, restart: Option<string>, unattendedMode: Option<string>)

  const NOTHING_TRUSTED := Trusted(None, None, None, None, None, None, None, None, None)

  /** A layer, or layers merged. The tables from `hooks` on hold the settings that
      a nearer layer replaces whole. */
  datatype Sweatfile = Sweatfile(
    allow: List, excludes: List, envrc: List, allowedMcps: List,
    dotenv: Table, env: Table, modelFlags: Table, modelIds: Table,
    hooks: Table, auth: Table, metrics: Table, madder: Table, sysprompt: Table, entry: Table,
    startCommands: seq<Entry>, mcps: seq<Entry>, preMergeSkills: seq<Entry>,
    preMergeExemptions: seq<Entry>, remotes: seq<Entry>, postMerge: seq<Entry>,
    trusted: Trusted)

  const EMPTY := Sweatfile(
    None, None, None, None, map[], map[], map[], map[], map[], map[], map[], map[], map[], map[], [], [], [], [], [], [],
    NOTHING_TRUSTED)

  // -------------------------------------------------------------- append lists

  /** Absent inherits, empty clears, anything else is appended. */
  function AppendList(mine: List, other: List): List {
    if other.None? then mine
    else if other.value == [] then other
    else Some((if mine.None? then [] else mine.value) + other.value)
  }

  function FoldLists(values: seq<List>): List {
    if values == [] then None else AppendList(FoldLists(values[..|values| - 1]), values[|values| - 1])
  }

  function Concat(values: seq<List>): seq<string> {
    if values == [] then []
    else
      var last := values[|values| - 1];
      Concat(values[..|values| - 1]) + if last.None? then [] else last.value
  }

  /** Just behind the last explicit clear, or the start. */
  function LastClear(values: seq<List>): (cut: nat)
    ensures cut <= |values| && (cut == 0 || values[cut - 1] == Some([]))
    ensures forall i | cut <= i < |values| :: values[i] != Some([])
  {
    if values == [] then 0
    else if values[|values| - 1] == Some([]) then |values|
    else
      var rest := values[..|values| - 1];
      assert forall i | 0 <= i < |rest| :: rest[i] == values[i];
      LastClear(rest)
  }

  ghost predicate Unset(values: seq<List>) {
    forall i | 0 <= i < |values| :: values[i].None?
  }

  /** Folding a list over the layers concatenates what follows the last clear. */
  lemma {:induction false} ListsCascade(values: seq<List>)
    ensures FoldLists(values) == if Unset(values) then None else Some(Concat(values[LastClear(values)..]))
  {
    if values != [] {
      var n := |values| - 1;
      var rest, last := values[..n], values[n];
      ListsCascade(rest);
      assert forall i | 0 <= i < n :: rest[i] == values[i];
      assert Unset(values) <==> Unset(rest) && last.None?;
      if last == Some([]) {
        assert values[n + 1..] == [];
      } else {
        var cut := LastClear(rest);
        assert LastClear(values) == cut;
        ConcatGrows(values, cut);
        if Unset(rest) { NothingSet(rest[cut..]); }
        assert Concat(rest[cut..]) + [] == Concat(rest[cut..]);
        hide Concat, Unset, LastClear;
      }
    }
  }

  lemma ConcatGrows(values: seq<List>, cut: nat)
    requires values != [] && cut <= |values| - 1
    ensures Concat(values[cut..]) == Concat(values[..|values| - 1][cut..])
      + if values[|values| - 1].None? then [] else values[|values| - 1].value
  {
    var end := values[cut..];
    assert end[..|end| - 1] == values[..|values| - 1][cut..];
  }

  lemma {:induction false} NothingSet(values: seq<List>)
    requires Unset(values)
    ensures Concat(values) == []
  {
    if values != [] { NothingSet(values[..|values| - 1]); }
  }

  /** Merging nearer layers first gives the same list exactly unless the middle
      one clears what the farther one set and the nearer one adds to it. */
  lemma ListMergeAssociativeIff(a: List, b: List, c: List)
    ensures AppendList(AppendList(a, b), c) == AppendList(a, AppendList(b, c))
      <==> !(a.Some? && a.value != [] && b == Some([]) && c.Some? && c.value != [])
  {
    if c.Some? {
      assert [] + c.value == c.value;
      if a.Some? && b.Some? {
        assert a.value + b.value + c.value == a.value + (b.value + c.value);
        assert a.value != [] ==> |a.value + c.value| > |c.value|;
      }
      if b.Some? { assert [] + b.value + c.value == [] + (b.value + c.value); }
    }
  }

  // --------------------------------------------------------------- named arrays

  ghost predicate Has(entries: seq<Entry>, name: string) {
    exists i | 0 <= i < |entries| :: entries[i].name == name
  }

  /** Where a name was last defined. */
  function LastIndex(entries: seq<Entry>, name: string): (i: nat)
    requires Has(entries, name)
    ensures i < |entries| && entries[i].name == name
    ensures forall j | i < j < |entries| :: entries[j].name != name
  {
    var n := |entries| - 1;
    if entries[n].name == name then n
    else
      var rest := entries[..n];
      assert forall j | 0 <= j < n :: rest[j] == entries[j];
      LastIndex(rest, name)
  }

  /** A definition replaces the one of its name in place, or is appended. */
  ghost function Upsert(entries: seq<Entry>, e: Entry): seq<Entry> {
    if Has(entries, e.name) then entries[LastIndex(entries, e.name) := e] else entries + [e]
  }

  ghost function Upserts(mine: seq<Entry>, other: seq<Entry>): seq<Entry> {
    if other == [] then mine else Upsert(Upserts(mine, other[..|other| - 1]), other[|other| - 1])
  }

  /** The loop over each named array: an index from names to positions. */
  method MergeNamed(mine: seq<Entry>, other: seq<Entry>) returns (merged: seq<Entry>)
    ensures merged == Upserts(mine, other)
  {
    if |other| == 0 { return mine; }
    merged := mine;
    var index: map<string, nat> := map[];
    for i := 0 to |merged|
      invariant Indexes(index, merged[..i])
    {
      assert merged[..i + 1] == merged[..i] + [merged[i]];
      IndexGrows(index, merged[..i], merged[i]);
      index := index[merged[i].name := i];
    }
    assert merged[..|merged|] == merged;
    for j := 0 to |other|
      invariant Indexes(index, merged) && merged == Upserts(mine, other[..j])
    {
      var e := other[j];
      assert other[..j + 1][..j] == other[..j] && other[..j + 1] != [];
      IndexGrows(index, merged, e);
      if e.name in index {
        IndexStays(index, merged, e);
        merged := merged[index[e.name] := e];
        continue;
      }
      index := index[e.name := |merged|];
      merged := merged + [e];
    }
    assert other[..|other|] == other;
  }

  ghost predicate Indexes(index: map<string, nat>, entries: seq<Entry>) {
    forall name :: (name in index <==> Has(entries, name)) && (name in index ==> index[name] == LastIndex(entries, name))
  }

  lemma LastIndexIs(entries: seq<Entry>, name: string, i: nat)
    requires i < |entries| && entries[i].name == name && forall j | i < j < |entries| :: entries[j].name != name
    ensures Has(entries, name) && LastIndex(entries, name) == i
  {
  }

  lemma HasMore(entries: seq<Entry>, e: Entry, name: string)
    ensures Has(entries + [e], name) <==> name == e.name || Has(entries, name)
    ensures Has(entries + [e], name) ==>
      LastIndex(entries + [e], name) == if name == e.name then |entries| else LastIndex(entries, name)
  {
    var more := entries + [e];
    assert more[|entries|] == e;
    if Has(entries, name) {
      var i := LastIndex(entries, name);
      assert more[i] == entries[i];
      if name != e.name { LastIndexIs(more, name, i); }
    }
    if name == e.name { LastIndexIs(more, name, |entries|); }
  }

  lemma IndexGrows(index: map<string, nat>, entries: seq<Entry>, e: Entry)
    requires Indexes(index, entries)
    ensures Indexes(index[e.name := |entries|], entries + [e])
  {
    forall name
      ensures name in index[e.name := |entries|] <==> Has(entries + [e], name)
      ensures name in index[e.name := |entries|] ==> index[e.name := |entries|][name] == LastIndex(entries + [e], name)
    {
      HasMore(entries, e, name);
    }
  }

  /** Replacing a definition by one of the same name moves nothing. */
  lemma IndexStays(index: map<string, nat>, entries: seq<Entry>, e: Entry)
    requires Indexes(index, entries) && e.name in index
    ensures Indexes(index, entries[index[e.name] := e])
  {
    var k := index[e.name];
    forall name
      ensures Has(entries[k := e], name) <==> Has(entries, name)
      ensures Has(entries, name) ==> LastIndex(entries[k := e], name) == LastIndex(entries, name)
    {
      SameNames(entries, entries[k := e], name);
    }
  }

  lemma SameNames(a: seq<Entry>, b: seq<Entry>, name: string)
    requires |a| == |b| && forall i | 0 <= i < |a| :: a[i].name == b[i].name
    ensures Has(a, name) <==> Has(b, name)
    ensures Has(a, name) ==> LastIndex(a, name) == LastIndex(b, name)
  {
    if Has(a, name) {
      LastIndexIs(b, name, LastIndex(a, name));
    }
    if Has(b, name) {
      LastIndexIs(a, name, LastIndex(b, name));
    }
  }

  // ----------------------------------------------- what a folded array contains

  function FirstIndex(entries: seq<Entry>, name: string): (i: nat)
    requires Has(entries, name)
    ensures i < |entries| && entries[i].name == name && forall j | 0 <= j < i :: entries[j].name != name
  {
    if entries[0].name == name then 0
    else
      var rest := entries[1..];
      assert forall j | 0 <= j < |rest| :: rest[j] == entries[j + 1];
      var k := FirstIndex(rest, name);
      assert forall j | 1 <= j < k + 1 :: entries[j] == rest[j - 1];
      k + 1
  }

  lemma FirstStays(entries: seq<Entry>, e: Entry, name: string)
    requires Has(entries + [e], name)
    ensures FirstIndex(entries + [e], name) == if Has(entries, name) then FirstIndex(entries, name) else |entries|
  {
    var more := entries + [e];
    assert forall j | 0 <= j < |entries| :: more[j] == entries[j];
    var k := FirstIndex(more, name);
    if Has(entries, name) {
      var f := FirstIndex(entries, name);
      assert more[f].name == name;
    }
  }

  /** Each name once, at the place of its first definition, with its last one. */
  ghost predicate IsDeduplicated(all: seq<Entry>, r: seq<Entry>) {
    && (forall i, j | 0 <= i < j < |r| :: r[i].name != r[j].name)
    && (forall i | 0 <= i < |r| :: Has(all, r[i].name) && r[i] == all[LastIndex(all, r[i].name)])
    && (forall name :: Has(all, name) ==> Has(r, name))
    && (forall i, j | 0 <= i < j < |r| :: FirstIndex(all, r[i].name) < FirstIndex(all, r[j].name))
  }

  lemma DeduplicatedGrows(all: seq<Entry>, r: seq<Entry>, e: Entry)
    requires IsDeduplicated(all, r)
    ensures IsDeduplicated(all + [e], Upsert(r, e))
  {
    hide LastIndex, FirstIndex;
    var more := all + [e];
    NamesAfter(r, e);
    var t := Upsert(r, e);
    hide Upsert;
    forall name ensures Has(more, name) <==> name == e.name || Has(all, name) {
      HasMore(all, e, name);
    }
    forall i | 0 <= i < |t| ensures Has(more, t[i].name) && t[i] == more[LastIndex(more, t[i].name)] {
      HasMore(all, e, t[i].name);
    }
    OrderGrows(all, r, e);
  }

  lemma OrderGrows(all: seq<Entry>, r: seq<Entry>, e: Entry)
    requires IsDeduplicated(all, r)
    ensures var t := Upsert(r, e); forall i, j | 0 <= i < j < |t| ::
      Has(all + [e], t[i].name) && Has(all + [e], t[j].name)
      && FirstIndex(all + [e], t[i].name) < FirstIndex(all + [e], t[j].name)
  {
    hide LastIndex, FirstIndex;
    NamesAfter(r, e);
    var t := Upsert(r, e);
    hide Upsert;
    forall i, j | 0 <= i < j < |t|
      ensures Has(all + [e], t[i].name) && Has(all + [e], t[j].name)
        && FirstIndex(all + [e], t[i].name) < FirstIndex(all + [e], t[j].name)
    {
      HasMore(all, e, t[i].name);
      HasMore(all, e, t[j].name);
      FirstStays(all, e, t[i].name);
      FirstStays(all, e, t[j].name);
    }
  }

  lemma NamesAfter(r: seq<Entry>, e: Entry)
    requires forall i, j | 0 <= i < j < |r| :: r[i].name != r[j].name
    ensures var t := Upsert(r, e);
      && (forall i, j | 0 <= i < j < |t| :: t[i].name != t[j].name)
      && (forall i | 0 <= i < |t| :: if t[i].name == e.name then t[i] == e else i < |r| && t[i] == r[i])
      && (forall i | 0 <= i < |r| :: t[i].name == r[i].name)
      && (forall name :: Has(t, name) <==> name == e.name || Has(r, name))
  {
    var t := Upsert(r, e);
    forall name ensures Has(t, name) <==> name == e.name || Has(r, name) {
      HasMore(r, e, name);
      if Has(r, e.name) { SameNames(r, t, name); }
    }
  }

  lemma {:induction false} UpsertsDeduplicate(all: seq<Entry>)
    ensures IsDeduplicated(all, Upserts([], all))
  {
    if all != [] {
      var rest := all[..|all| - 1];
      UpsertsDeduplicate(rest);
      assert all == rest + [all[|all| - 1]];
      hide IsDeduplicated, Upsert;
      DeduplicatedGrows(rest, Upserts([], rest), all[|all| - 1]);
    } else {
      assert !exists name :: Has(all, name);
    }
  }

  function Flatten(layers: seq<seq<Entry>>): seq<Entry> {
    if layers == [] then [] else Flatten(layers[..|layers| - 1]) + layers[|layers| - 1]
  }

  ghost function FoldNamed(layers: seq<seq<Entry>>): seq<Entry> {
    if layers == [] then [] else Upserts(FoldNamed(layers[..|layers| - 1]), layers[|layers| - 1])
  }

  lemma {:induction false} UpsertsAppend(mine: seq<Entry>, a: seq<Entry>, b: seq<Entry>)
    ensures Upserts(mine, a + b) == Upserts(Upserts(mine, a), b)
  {
    hide Upsert;
    if b == [] {
      assert a + b == a;
    } else {
      assert (a + b)[..|a + b| - 1] == a + b[..|b| - 1];
      UpsertsAppend(mine, a, b[..|b| - 1]);
    }
  }

  lemma {:induction false} FoldNamedFlat(layers: seq<seq<Entry>>)
    ensures FoldNamed(layers) == Upserts([], Flatten(layers))
  {
    if layers != [] {
      var n := |layers| - 1;
      FoldNamedFlat(layers[..n]);
      UpsertsAppend([], Flatten(layers[..n]), layers[n]);
    }
  }

  /** Folding a named array over the layers keeps each name once, at its first
      position, with its last definition. */
  lemma NamedCascade(layers: seq<seq<Entry>>)
    ensures IsDeduplicated(Flatten(layers), FoldNamed(layers))
  {
    FoldNamedFlat(layers);
    UpsertsDeduplicate(Flatten(layers));
  }

  // ------------------------------------------------------------- associativity

  lemma UpsertSame(u: seq<Entry>, a: Entry, e: Entry)
    requires a.name == e.name
    ensures Has(Upsert(u, a), e.name) && Upsert(Upsert(u, a), e) == Upsert(u, e)
  {
    HasMore(u, a, e.name);
    if Has(u, e.name) { SameNames(u, Upsert(u, a), e.name); }
  }

  lemma UpsertSwap(u: seq<Entry>, a: Entry, e: Entry)
    requires a.name != e.name && Has(u, e.name)
    ensures Has(Upsert(u, a), e.name) && Upsert(Upsert(u, a), e) == Upsert(Upsert(u, e), a)
  {
    hide LastIndex;
    HasMore(u, a, e.name);
    SameNames(u, Upsert(u, e), a.name);
    if Has(u, a.name) {
      SameNames(u, Upsert(u, a), e.name);
    }
    assert Upsert(Upsert(u, a), e) == Upsert(Upsert(u, e), a);
  }

  lemma {:induction false} UpsertPast(u: seq<Entry>, q: seq<Entry>, e: Entry)
    requires Has(u, e.name) && forall i | 0 <= i < |q| :: q[i].name != e.name
    ensures Has(Upserts(u, q), e.name) && Upsert(Upserts(u, q), e) == Upserts(Upsert(u, e), q)
  {
    hide Upsert;
    if q != [] {
      var rest := q[..|q| - 1];
      UpsertPast(u, rest, e);
      UpsertSwap(Upserts(u, rest), q[|q| - 1], e);
    }
  }

  lemma UpsertIntoOther(x: seq<Entry>, y: seq<Entry>, e: Entry)
    ensures Upserts(x, Upsert(y, e)) == Upsert(Upserts(x, y), e)
  {
    if Has(y, e.name) {
      var k := LastIndex(y, e.name);
      var p, q := y[..k], y[k + 1..];
      assert y == p + [y[k]] + q && Upsert(y, e) == p + [e] + q;
      OneBetween(x, p, y[k], q);
      OneBetween(x, p, e, q);
      var u := Upserts(x, p);
      UpsertSame(u, y[k], e);
      UpsertPast(Upsert(u, y[k]), q, e);
    } else {
      assert (y + [e])[..|y|] == y;
    }
  }

  lemma OneBetween(x: seq<Entry>, p: seq<Entry>, a: Entry, q: seq<Entry>)
    ensures Upserts(x, p + [a] + q) == Upserts(Upsert(Upserts(x, p), a), q)
  {
    hide Upsert;
    UpsertsAppend(x, p + [a], q);
    UpsertsAppend(x, p, [a]);
    assert [a][..0] == [];
    assert Upserts(Upserts(x, p), [a]) == Upsert(Upserts(x, p), a);
  }

  /** Merging named arrays is associative, repeated names and all. */
  lemma {:induction false} NamedMergeAssociative(x: seq<Entry>, y: seq<Entry>, z: seq<Entry>)
    ensures Upserts(Upserts(x, y), z) == Upserts(x, Upserts(y, z))
  {
    hide Upsert;
    if z != [] {
      var rest := z[..|z| - 1];
      NamedMergeAssociative(x, y, rest);
      UpsertIntoOther(x, Upserts(y, rest), z[|z| - 1]);
    }
  }

  // --------------------------------------------------------------------- tables

  /** Key by key, the nearer layer's value replaces the farther one's. */
  function MergeTable(mine: Table, other: Table): Table {
    mine + other
  }

  /** The per-key loop over a table, whatever order its keys come in. */
  method MergeKeys(mine: Table, other: Table) returns (merged: Table)
    ensures merged == MergeTable(mine, other)
  {
    hide MergeTable;
    merged := mine;
    ghost var done: Table := map[];
    var keys := other.Keys;
    NothingMerged(mine);
    while keys != {}
      invariant keys <= other.Keys && done.Keys == other.Keys - keys
      invariant merged == MergeTable(mine, done) && forall k | k in done :: done[k] == other[k]
      decreases |keys|
    {
      var k :| k in keys;
      OneMoreKey(mine, done, k, other[k]);
      merged, done := merged[k := other[k]], done[k := other[k]];
      keys := keys - {k};
    }
    assert done == other;
  }

  lemma NothingMerged(mine: Table)
    ensures MergeTable(mine, map[]) == mine
  {
  }

  lemma OneMoreKey(mine: Table, done: Table, key: string, value: string)
    ensures MergeTable(mine, done[key := value]) == MergeTable(mine, done)[key := value]
  {
  }

  function FoldTables(layers: seq<Table>): Table {
    if layers == [] then map[] else MergeTable(FoldTables(layers[..|layers| - 1]), layers[|layers| - 1])
  }

  ghost predicate Sets(layers: seq<Table>, key: string) {
    exists i | 0 <= i < |layers| :: key in layers[i]
  }

  function LastSetter(layers: seq<Table>, key: string): (i: nat)
    requires Sets(layers, key)
    ensures i < |layers| && key in layers[i] && forall j | i < j < |layers| :: key !in layers[j]
  {
    var n := |layers| - 1;
    if key in layers[n] then n
    else
      var rest := layers[..n];
      assert forall j | 0 <= j < n :: rest[j] == layers[j];
      LastSetter(rest, key)
  }

  /** A key is set by the last layer that sets it, and by no other. */
  lemma {:induction false} LastLayerSets(layers: seq<Table>, key: string)
    ensures key in FoldTables(layers) <==> Sets(layers, key)
    ensures Sets(layers, key) ==> FoldTables(layers)[key] == layers[LastSetter(layers, key)][key]
  {
    if layers != [] {
      var n := |layers| - 1;
      var rest := layers[..n];
      LastLayerSets(rest, key);
      assert forall i | 0 <= i < n :: rest[i] == layers[i];
      hide FoldTables;
      assert FoldTables(layers) == MergeTable(FoldTables(rest), layers[n]) by { FoldTablesStep(layers); }
    }
  }

  lemma FoldTablesStep(layers: seq<Table>)
    requires layers != []
    ensures FoldTables(layers) == MergeTable(FoldTables(layers[..|layers| - 1]), layers[|layers| - 1])
  {
  }

  // -------------------------------------------------------------------- filters

  function NonBlank(lines: seq<string>): seq<string> {
    if lines == [] then []
    else
      var last := lines[|lines| - 1];
      NonBlank(lines[..|lines| - 1]) + (if TrimSpace(last) != "" then [last] else [])
  }

  function Normalized(s: string): string {
    Join(NonBlank(Split(s, '\n')), '\n')
  }

  method NormalizeCommand(s: string) returns (r: string)
    ensures r == Normalized(s)
  {
    hide Split, TrimSpace, Join;
    var lines: seq<string> := [];
    var all := Split(s, '\n');
    for i := 0 to |all|
      invariant lines == NonBlank(all[..i])
    {
      assert all[..i + 1][..i] == all[..i];
      if TrimSpace(all[i]) != "" { lines := lines + [all[i]]; }
    }
    assert all[..|all|] == all;
    r := Join(lines, '\n');
  }

  /** The lines kept stand in their order, each as often as it stood: exactly those
      that hold a character that is not white space. */
  lemma {:induction false} NonBlankSelects(lines: seq<string>) returns (at: seq<nat>)
    ensures Selects(lines, at, NonBlank(lines))
    ensures forall k: nat | k < |lines| :: k in at <==> exists i :: 0 <= i < |lines[k]| && !IsSpace(lines[k][i])
  {
    hide TrimSpace, IsSpace, Selects;
    at := [];
    if lines != [] {
      var n := |lines| - 1;
      at := NonBlankSelects(lines[..n]);
      assert forall k | 0 <= k < n :: lines[..n][k] == lines[k];
      assert lines[..n] + [lines[n]] == lines && NonBlank(lines[..n]) + [] == NonBlank(lines[..n]);
      SelectsMore(lines[..n], at, NonBlank(lines[..n]), lines[n], TrimSpace(lines[n]) != "");
      if TrimSpace(lines[n]) != "" { at := at + [n]; }
    } else {
      NothingSelected<string>();
    }
  }

  /** A command normalizes to its lines that are not blank, in order, with line
      ends between them. */
  lemma NormalizedReads(s: string) returns (at: seq<nat>, kept: seq<string>)
    ensures Join(Split(s, '\n'), '\n') == s && Free(Split(s, '\n'), '\n')
    ensures Selects(Split(s, '\n'), at, kept) && Normalized(s) == Join(kept, '\n')
    ensures var lines := Split(s, '\n');
      forall k: nat | k < |lines| :: k in at <==> exists i :: 0 <= i < |lines[k]| && !IsSpace(lines[k][i])
  {
    JoinSplit(s, '\n');
    at := NonBlankSelects(Split(s, '\n'));
    kept := NonBlank(Split(s, '\n'));
  }

  lemma {:induction false} NonBlankAre(lines: seq<string>)
    ensures forall line :: line in NonBlank(lines) <==> line in lines && TrimSpace(line) != ""
  {
    hide TrimSpace;
    if lines != [] {
      NonBlankAre(lines[..|lines| - 1]);
      assert lines == lines[..|lines| - 1] + [lines[|lines| - 1]];
    }
  }

  lemma {:induction false} JoinHas(lines: seq<string>, c: char)
    requires c != '\n'
    ensures c in Join(lines, '\n') <==> exists i :: 0 <= i < |lines| && c in lines[i]
  {
    if |lines| > 1 {
      JoinHas(lines[1..], c);
      if c in lines[1..][0] || c in Join(lines[1..], '\n') {
        var i :| 0 <= i < |lines[1..]| && c in lines[1..][i];
        assert c in lines[i + 1];
      }
      if i :| 0 <= i < |lines| && c in lines[i] {
        assert i > 0 ==> c in lines[1..][i - 1];
      }
    }
  }

  /** A command normalizes to something exactly when it holds a character that
      is not white space. */
  lemma NormalizedIff(s: string)
    ensures Normalized(s) != "" <==> exists c :: c in s && !IsSpace(c)
  {
    var lines := Split(s, '\n');
    JoinSplit(s, '\n');
    NonBlankAre(lines);
    var kept := NonBlank(lines);
    hide NonBlank, Split, Join;
    if c :| c in s && !IsSpace(c) {
      assert c != '\n';
      JoinHas(lines, c);
      var i :| 0 <= i < |lines| && c in lines[i];
      assert TrimSpace(lines[i]) != "" by { var k :| 0 <= k < |lines[i]| && lines[i][k] == c; }
      assert lines[i] in kept;
      var k :| 0 <= k < |kept| && kept[k] == lines[i];
      JoinHas(kept, c);
    }
    if kept != [] {
      assert kept[0] in kept && kept[0] in lines;
      var k :| 0 <= k < |kept[0]| && !IsSpace(kept[0][k]);
      var i :| 0 <= i < |lines| && lines[i] == kept[0];
      JoinHas(lines, kept[0][k]);
    } else {
      NoneKept();
    }
  }

  lemma NoneKept()
    ensures Join([], '\n') == ""
  {
  }

  /** How an array marks a name as removed. */
  datatype Sentinel = EmptyText | BlankCommand | Removal

  predicate IsSentinel(kind: Sentinel, e: Entry) {
    match kind
    case EmptyText => e.text == ""
    case BlankCommand => Normalized(e.text) == ""
    case Removal => e.remove
  }

  function ActiveOf(kind: Sentinel, entries: seq<Entry>): seq<Entry> {
    if entries == [] then []
    else
      var last := entries[|entries| - 1];
      ActiveOf(kind, entries[..|entries| - 1]) + (if IsSentinel(kind, last) then [] else [last])
  }

  /** ActiveMCPs, ActivePreMergeSkills, ActivePreMergeExemptions, ActiveRemotes
      and ActivePostMergeTargets. */
  method Active(kind: Sentinel, entries: seq<Entry>) returns (active: seq<Entry>)
    ensures active == ActiveOf(kind, entries)
  {
    hide Normalized;
    active := [];
    for i := 0 to |entries|
      invariant active == ActiveOf(kind, entries[..i])
    {
      assert entries[..i + 1][..i] == entries[..i];
      var dead := false;
      match kind {
        case EmptyText => dead := entries[i].text == "";
        case BlankCommand =>
          var command := NormalizeCommand(entries[i].text);
          dead := command == "";
        case Removal => dead := entries[i].remove;
      }
      if !dead { active := active + [entries[i]]; }
    }
    assert entries[..|entries|] == entries;
  }

  lemma {:induction false} ActiveAre(kind: Sentinel, entries: seq<Entry>)
    ensures forall e :: e in ActiveOf(kind, entries) <==> e in entries && !IsSentinel(kind, e)
  {
    hide IsSentinel;
    if entries != [] {
      ActiveAre(kind, entries[..|entries| - 1]);
      assert entries == entries[..|entries| - 1] + [entries[|entries| - 1]];
    }
  }

  /** The definitions kept stand in their order: exactly those that are no sentinels. */
  lemma {:induction false} ActiveSelects(kind: Sentinel, entries: seq<Entry>) returns (at: seq<nat>)
    ensures Selects(entries, at, ActiveOf(kind, entries))
    ensures forall k: nat | k < |entries| :: k in at <==> !IsSentinel(kind, entries[k])
  {
    hide IsSentinel, Selects;
    at := [];
    if entries != [] {
      var n := |entries| - 1;
      at := ActiveSelects(kind, entries[..n]);
      assert forall k | 0 <= k < n :: entries[..n][k] == entries[k];
      assert entries[..n] + [entries[n]] == entries && ActiveOf(kind, entries[..n]) + [] == ActiveOf(kind, entries[..n]);
      SelectsMore(entries[..n], at, ActiveOf(kind, entries[..n]), entries[n], !IsSentinel(kind, entries[n]));
      if !IsSentinel(kind, entries[n]) { at := at + [n]; }
    } else {
      NothingSelected<Entry>();
    }
  }

  /** A name is active after the cascade exactly when some layer defines it and
      its last definition removes nothing; that definition is the active one. */
  lemma ActiveIffLastDefinitionIs(kind: Sentinel, layers: seq<seq<Entry>>, e: Entry)
    ensures e in ActiveOf(kind, FoldNamed(layers)) <==>
      Has(Flatten(layers), e.name) && e == Flatten(layers)[LastIndex(Flatten(layers), e.name)] && !IsSentinel(kind, e)
  {
    NamedCascade(layers);
    ActiveAre(kind, FoldNamed(layers));
    hide ActiveOf, FoldNamed, Flatten, LastIndex, FirstIndex, IsSentinel;
    var r := FoldNamed(layers);
    if Has(Flatten(layers), e.name) {
      assert Has(r, e.name);
      var i :| 0 <= i < |r| && r[i].name == e.name;
      assert r[i] in r;
    }
  }

  // ------------------------------------------------------------------- MergeWith

  ghost function Merged(a: Sweatfile, b: Sweatfile): Sweatfile {
    Sweatfile(
      AppendList(a.allow, b.allow), AppendList(a.excludes, b.excludes), AppendList(a.envrc, b.envrc),
      AppendList(a.allowedMcps, b.allowedMcps),
      MergeTable(a.dotenv, b.dotenv), MergeTable(a.env, b.env), MergeTable(a.modelFlags, b.modelFlags),
      MergeTable(a.modelIds, b.modelIds), MergeTable(a.hooks, b.hooks), MergeTable(a.auth, b.auth),
      MergeTable(a.metrics, b.metrics), MergeTable(a.madder, b.madder), MergeTable(a.sysprompt, b.sysprompt),
      MergeTable(a.entry, b.entry),
      Upserts(a.startCommands, b.startCommands), Upserts(a.mcps, b.mcps), Upserts(a.preMergeSkills, b.preMergeSkills),
      Upserts(a.preMergeExemptions, b.preMergeExemptions), Upserts(a.remotes, b.remotes), Upserts(a.postMerge, b.postMerge),
      NOTHING_TRUSTED)
  }

  method MergeList(mine: List, other: List) returns (merged: List)
    ensures merged == AppendList(mine, other)
  {
    merged := mine;
    if other.Some? {
      if |other.value| == 0 {
        merged := Some([]);
      } else {
        merged := Some((if merged.None? then [] else merged.value) + other.value);
      }
    }
  }

  /** The receiver's tables are carried along and merged one by one; what must be
      trusted is cleared from the result wherever it came from. */
  method MergeWith(sf: Sweatfile, other: Sweatfile) returns (merged: Sweatfile)
    ensures merged == Merged(sf, other)
  {
    hide AppendList, Upserts, MergeTable;
    merged := MergeTables(sf, other);
    var allow := MergeList(sf.allow, other.allow);
    var excludes := MergeList(sf.excludes, other.excludes);
    var envrc := MergeList(sf.envrc, other.envrc);
    var allowedMcps := MergeList(sf.allowedMcps, other.allowedMcps);
    merged := merged.(allow := allow, excludes := excludes, envrc := envrc, allowedMcps := allowedMcps);
    var startCommands := MergeNamed(sf.startCommands, other.startCommands);
    var mcps := MergeNamed(sf.mcps, other.mcps);
    var preMergeSkills := MergeNamed(sf.preMergeSkills, other.preMergeSkills);
    merged := merged.(startCommands := startCommands, mcps := mcps, preMergeSkills := preMergeSkills);
    var preMergeExemptions := MergeNamed(sf.preMergeExemptions, other.preMergeExemptions);
    var remotes := MergeNamed(sf.remotes, other.remotes);
    var postMerge := MergeNamed(sf.postMerge, other.postMerge);
    merged := merged.(preMergeExemptions := preMergeExemptions, remotes := remotes, postMerge := postMerge);
  }

  method MergeTables(sf: Sweatfile, other: Sweatfile) returns (merged: Sweatfile)
    ensures merged == sf.(
      dotenv := MergeTable(sf.dotenv, other.dotenv), hooks := MergeTable(sf.hooks, other.hooks),
      auth := MergeTable(sf.auth, other.auth), metrics := MergeTable(sf.metrics, other.metrics),
      madder := MergeTable(sf.madder, other.madder), sysprompt := MergeTable(sf.sysprompt, other.sysprompt),
      entry := MergeTable(sf.entry, other.entry), env := MergeTable(sf.env, other.env),
      modelFlags := MergeTable(sf.modelFlags, other.modelFlags), modelIds := MergeTable(sf.modelIds, other.modelIds),
      trusted := NOTHING_TRUSTED)
  {
    hide MergeTable;
    var dotenv := MergeKeys(sf.dotenv, other.dotenv);
    var hooks := MergeKeys(sf.hooks, other.hooks);
    var auth := MergeKeys(sf.auth, other.auth);
    var metrics := MergeKeys(sf.metrics, other.metrics);
    var madder := MergeKeys(sf.madder, other.madder);
    var sysprompt := MergeKeys(sf.sysprompt, other.sysprompt);
    var entry := MergeKeys(sf.entry, other.entry);
    var env := MergeKeys(sf.env, other.env);
    var modelFlags := MergeKeys(sf.modelFlags, other.modelFlags);
    var modelIds := MergeKeys(sf.modelIds, other.modelIds);
    var trusted := ClearTrusted(sf.trusted);
    merged := sf.(dotenv := dotenv, hooks := hooks, auth := auth, metrics := metrics, madder := madder, sysprompt := sysprompt,
                  entry := entry, env := env, modelFlags := modelFlags, modelIds := modelIds, trusted := trusted);
  }

  /** What the receiver carried is cleared one by one, in the order of the code;
      the other layer's is never copied. */
  method ClearTrusted(carried: Trusted) returns (merged: Trusted)
    ensures merged == NOTHING_TRUSTED
  {
    merged := carried;
    if merged.urlResolver.Some? { merged := merged.(urlResolver := None); }
    merged := merged.(profileRights := None);
    merged := merged.(confinement := None);
    merged := merged.(permissions := None);
    merged := merged.(health := None);
    merged := merged.(folio := None);
    merged := merged.(store := None);
    if merged.restart.Some? || merged.unattendedMode.Some? {
      merged := merged.(restart := None, unattendedMode := None);
    }
  }

  ghost function MergedAll(layers: seq<Sweatfile>): Sweatfile {
    if layers == [] then EMPTY else Merged(MergedAll(layers[..|layers| - 1]), layers[|layers| - 1])
  }

  /** The loaders' loop: from nothing, one layer after another. */
  method MergeLayers(layers: seq<Sweatfile>) returns (merged: Sweatfile)
    ensures merged == MergedAll(layers)
  {
    hide Merged;
    merged := EMPTY;
    for i := 0 to |layers|
      invariant merged == MergedAll(layers[..i])
    {
      assert layers[..i + 1][..i] == layers[..i];
      merged := MergeWith(merged, layers[i]);
    }
    assert layers[..|layers|] == layers;
  }

  function Each<T>(layers: seq<Sweatfile>, field: Sweatfile -> T): (values: seq<T>)
    ensures |values| == |layers|
  {
    seq(|layers|, i requires 0 <= i < |layers| => field(layers[i]))
  }

  lemma EachButLast<T>(layers: seq<Sweatfile>, field: Sweatfile -> T)
    requires layers != []
    ensures Each(layers, field)[..|layers| - 1] == Each(layers[..|layers| - 1], field)
    ensures Each(layers, field)[|layers| - 1] == field(layers[|layers| - 1])
  {
  }

  /** The merged list is what the layers say after the last of them that clears it. */
  ghost predicate ListCascades(layers: seq<Sweatfile>, field: Sweatfile -> List) {
    var values := Each(layers, field);
    field(MergedAll(layers)) == if Unset(values) then None else Some(Concat(values[LastClear(values)..]))
  }

  /** The merged array holds each name once, first place, last definition. */
  ghost predicate ArrayCascades(layers: seq<Sweatfile>, field: Sweatfile -> seq<Entry>) {
    IsDeduplicated(Flatten(Each(layers, field)), field(MergedAll(layers)))
  }

  /** The merged table has each key from the last layer that sets it. */
  ghost predicate TableCascades(layers: seq<Sweatfile>, field: Sweatfile -> Table) {
    var values := Each(layers, field);
    forall key :: (key in field(MergedAll(layers)) <==> Sets(values, key))
      && (Sets(values, key) ==> field(MergedAll(layers))[key] == values[LastSetter(values, key)][key])
  }

  lemma {:induction false} FoldOfList(layers: seq<Sweatfile>, field: Sweatfile -> List)
    requires field(EMPTY) == None && forall a, b :: field(Merged(a, b)) == AppendList(field(a), field(b))
    ensures field(MergedAll(layers)) == FoldLists(Each(layers, field))
  {
    hide Merged, AppendList;
    if layers != [] {
      FoldOfList(layers[..|layers| - 1], field);
      EachButLast(layers, field);
    }
  }

  lemma {:induction false} FoldOfArray(layers: seq<Sweatfile>, field: Sweatfile -> seq<Entry>)
    requires field(EMPTY) == [] && forall a, b :: field(Merged(a, b)) == Upserts(field(a), field(b))
    ensures field(MergedAll(layers)) == FoldNamed(Each(layers, field))
  {
    hide Merged, Upserts;
    if layers != [] {
      FoldOfArray(layers[..|layers| - 1], field);
      EachButLast(layers, field);
    }
  }

  lemma {:induction false} FoldOfTable(layers: seq<Sweatfile>, field: Sweatfile -> Table)
    requires field(EMPTY) == map[] && forall a, b :: field(Merged(a, b)) == MergeTable(field(a), field(b))
    ensures field(MergedAll(layers)) == FoldTables(Each(layers, field))
  {
    hide Merged, MergeTable;
    if layers != [] {
      FoldOfTable(layers[..|layers| - 1], field);
      EachButLast(layers, field);
    }
  }

  lemma CascadeOfList(layers: seq<Sweatfile>, field: Sweatfile -> List)
    requires field(EMPTY) == None && forall a, b :: field(Merged(a, b)) == AppendList(field(a), field(b))
    ensures ListCascades(layers, field)
  {
    FoldOfList(layers, field);
    ListsCascade(Each(layers, field));
    hide MergedAll, Merged, AppendList, Unset, Concat, LastClear, FoldLists, Each;
  }

  lemma CascadeOfArray(layers: seq<Sweatfile>, field: Sweatfile -> seq<Entry>)
    requires field(EMPTY) == [] && forall a, b :: field(Merged(a, b)) == Upserts(field(a), field(b))
    ensures ArrayCascades(layers, field)
  {
    FoldOfArray(layers, field);
    NamedCascade(Each(layers, field));
    hide MergedAll, Merged, Upserts, IsDeduplicated, Flatten, FoldNamed, Each;
  }

  lemma CascadeOfTable(layers: seq<Sweatfile>, field: Sweatfile -> Table)
    requires field(EMPTY) == map[] && forall a, b :: field(Merged(a, b)) == MergeTable(field(a), field(b))
    ensures TableCascades(layers, field)
  {
    FoldOfTable(layers, field);
    hide MergedAll, Merged, MergeTable, FoldTables, Each, Sets;
    forall key: string {
      LastLayerSets(Each(layers, field), key);
    }
  }

  /** Every append list follows the rule for lists. */
  lemma CascadeLists(layers: seq<Sweatfile>)
    ensures ListCascades(layers, (x: Sweatfile) => x.allow) && ListCascades(layers, (x: Sweatfile) => x.excludes)
    ensures ListCascades(layers, (x: Sweatfile) => x.envrc) && ListCascades(layers, (x: Sweatfile) => x.allowedMcps)
  {
    hide AppendList, MergeTable, Upserts, ListCascades;
    CascadeOfList(layers, (x: Sweatfile) => x.allow);
    CascadeOfList(layers, (x: Sweatfile) => x.excludes);
    CascadeOfList(layers, (x: Sweatfile) => x.envrc);
    CascadeOfList(layers, (x: Sweatfile) => x.allowedMcps);
  }

  /** Every named array follows the rule for arrays. */
  lemma CascadeArrays(layers: seq<Sweatfile>)
    ensures ArrayCascades(layers, (x: Sweatfile) => x.startCommands) && ArrayCascades(layers, (x: Sweatfile) => x.mcps)
    ensures ArrayCascades(layers, (x: Sweatfile) => x.preMergeSkills) && ArrayCascades(layers, (x: Sweatfile) => x.preMergeExemptions)
    ensures ArrayCascades(layers, (x: Sweatfile) => x.remotes) && ArrayCascades(layers, (x: Sweatfile) => x.postMerge)
  {
    hide AppendList, MergeTable, Upserts, ArrayCascades;
    CascadeOfArray(layers, (x: Sweatfile) => x.startCommands);
    CascadeOfArray(layers, (x: Sweatfile) => x.mcps);
    CascadeOfArray(layers, (x: Sweatfile) => x.preMergeSkills);
    CascadeOfArray(layers, (x: Sweatfile) => x.preMergeExemptions);
    CascadeOfArray(layers, (x: Sweatfile) => x.remotes);
    CascadeOfArray(layers, (x: Sweatfile) => x.postMerge);
  }

  /** Every table merged key by key follows the rule for tables. */
  lemma CascadeTables(layers: seq<Sweatfile>)
    ensures TableCascades(layers, (x: Sweatfile) => x.dotenv) && TableCascades(layers, (x: Sweatfile) => x.env)
    ensures TableCascades(layers, (x: Sweatfile) => x.modelFlags) && TableCascades(layers, (x: Sweatfile) => x.modelIds)
  {
    hide AppendList, MergeTable, Upserts, TableCascades, MergedAll, Each;
    assert TableCascades(layers, (x: Sweatfile) => x.dotenv) by { CascadeOfTable(layers, (x: Sweatfile) => x.dotenv); }
    assert TableCascades(layers, (x: Sweatfile) => x.env) by { CascadeOfTable(layers, (x: Sweatfile) => x.env); }
    assert TableCascades(layers, (x: Sweatfile) => x.modelFlags) by { CascadeOfTable(layers, (x: Sweatfile) => x.modelFlags); }
    assert TableCascades(layers, (x: Sweatfile) => x.modelIds) by { CascadeOfTable(layers, (x: Sweatfile) => x.modelIds); }
  }

  /** So does every setting a nearer layer replaces whole. */
  lemma CascadeSettings(layers: seq<Sweatfile>)
    ensures TableCascades(layers, (x: Sweatfile) => x.hooks) && TableCascades(layers, (x: Sweatfile) => x.auth)
    ensures TableCascades(layers, (x: Sweatfile) => x.metrics) && TableCascades(layers, (x: Sweatfile) => x.madder)
    ensures TableCascades(layers, (x: Sweatfile) => x.sysprompt) && TableCascades(layers, (x: Sweatfile) => x.entry)
  {
    hide AppendList, MergeTable, Upserts, TableCascades, MergedAll, Each;
    assert TableCascades(layers, (x: Sweatfile) => x.hooks) by { CascadeOfTable(layers, (x: Sweatfile) => x.hooks); }
    assert TableCascades(layers, (x: Sweatfile) => x.auth) by { CascadeOfTable(layers, (x: Sweatfile) => x.auth); }
    assert TableCascades(layers, (x: Sweatfile) => x.metrics) by { CascadeOfTable(layers, (x: Sweatfile) => x.metrics); }
    assert TableCascades(layers, (x: Sweatfile) => x.madder) by { CascadeOfTable(layers, (x: Sweatfile) => x.madder); }
    assert TableCascades(layers, (x: Sweatfile) => x.sysprompt) by { CascadeOfTable(layers, (x: Sweatfile) => x.sysprompt); }
    assert TableCascades(layers, (x: Sweatfile) => x.entry) by { CascadeOfTable(layers, (x: Sweatfile) => x.entry); }
  }

  /** What must come from trusted layers alone survives no merge, whichever of
      the layers carried it. */
  lemma NothingTrustedIsMerged(layers: seq<Sweatfile>)
    ensures MergedAll(layers).trusted == Trusted(None, None, None, None, None, None, None, None, None)
  {
  }

  // ------------------------------------------------------------ active arrays

  /** The text holds more than white space. */
  ghost predicate SaysSomething(text: string) {
    exists c :: c in text && !IsSpace(c)
  }

  /** The servers with a command. */
  method ActiveMcps(sf: Sweatfile) returns (active: seq<Entry>)
    ensures Sieves(sf.mcps, active, (e: Entry) => |e.text| > 0)
  {
    active := Active(EmptyText, sf.mcps);
    ghost var at := ActiveSelects(EmptyText, sf.mcps);
  }

  /** The skills with a rationale. */
  method ActivePreMergeSkills(sf: Sweatfile) returns (active: seq<Entry>)
    ensures Sieves(sf.preMergeSkills, active, (e: Entry) => |e.text| > 0)
  {
    active := Active(EmptyText, sf.preMergeSkills);
    ghost var at := ActiveSelects(EmptyText, sf.preMergeSkills);
  }

  /** The exemptions with a command that is not blank. */
  method ActivePreMergeExemptions(sf: Sweatfile) returns (active: seq<Entry>)
    ensures Sieves(sf.preMergeExemptions, active, (e: Entry) => SaysSomething(e.text))
  {
    hide Normalized, SaysSomething;
    active := Active(BlankCommand, sf.preMergeExemptions);
    ghost var at := ActiveSelects(BlankCommand, sf.preMergeExemptions);
    forall e | e in sf.preMergeExemptions ensures Normalized(e.text) != "" <==> SaysSomething(e.text) { SaysIff(e.text); }
  }

  /** The remotes that are not marked as removed. */
  method ActiveRemotes(sf: Sweatfile) returns (active: seq<Entry>)
    ensures Sieves(sf.remotes, active, (e: Entry) => !e.remove)
  {
    active := Active(Removal, sf.remotes);
    ghost var at := ActiveSelects(Removal, sf.remotes);
  }

  /** The targets with a command that is not blank. */
  method ActivePostMergeTargets(sf: Sweatfile) returns (active: seq<Entry>)
    ensures Sieves(sf.postMerge, active, (e: Entry) => SaysSomething(e.text))
  {
    hide Normalized, SaysSomething;
    active := Active(BlankCommand, sf.postMerge);
    ghost var at := ActiveSelects(BlankCommand, sf.postMerge);
    forall e | e in sf.postMerge ensures Normalized(e.text) != "" <==> SaysSomething(e.text) { SaysIff(e.text); }
  }

  lemma SaysIff(text: string)
    ensures Normalized(text) != "" <==> SaysSomething(text)
  {
    NormalizedIff(text);
  }
}
