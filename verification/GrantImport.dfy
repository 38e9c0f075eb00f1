/** Importing a batch of card-signed records: verify all, store all, then bind
    all or none (cmd/spinclass/profilegrant_import_cmd.go). */
module GrantImport {
  import opened Text
  import opened Grants
  import opened Chain
  import opened ImportOrder
  import opened GrantStores

  // ------------------------------------------------------------ what is admitted

  /** The records of the batch by digest. */
  function InBatch(batch: seq<Candidate>): (m: map<string, Record>)
    ensures m.Keys == Digests(batch)
  {
    if batch == [] then map[]
    else
      var n := |batch| - 1;
      DigestsAppend(batch[..n], batch[n]);
      assert batch[..n] + [batch[n]] == batch;
      InBatch(batch[..n])[batch[n].rec.digest := batch[n].rec]
  }

  /** What the walk of an import sees: the batch before the store, links unsigned, no stacking. */
  function ImportWorld(t: Trust, verifyRoot: (string, Bytes) -> bool, inBatch: map<string, Record>,
                       records: map<string, Record>): World {
    World(t.clock, t.digestOf,
          d => if d in inBatch then Some(inBatch[d]) else Lookup(t, records, d),
          verifyRoot, (_, sig) => sig == [], None, None)
  }

  /** Nothing in the batch widens c. */
  predicate IsTop(batch: seq<Candidate>, c: Candidate) {
    c in batch && forall x | x in batch :: x.grant.widens != c.rec.digest
  }

  predicate OneTopPerGrantee(batch: seq<Candidate>) {
    forall c, d | c in batch && d in batch && IsTop(batch, c) && IsTop(batch, d) && c.grant.grantee == d.grant.grantee ::
      c == d
  }

  /** A grantee's current record gives way only to itself or to a record that widens it. */
  predicate Supersedes(t: Trust, records: map<string, Record>, index: map<string, string>, c: Candidate) {
    GivesWay(CurrentOf(t, records, index, c.grant.grantee), c)
  }

  predicate GivesWay(cur: Option<Record>, c: Candidate) {
    cur.None? || cur.value.digest == c.rec.digest || cur.value.digest == c.grant.widens
  }

  predicate AllWalk(w: World, now: int, batch: seq<Candidate>) {
    forall c | c in batch :: Walked(w, now, c.rec).Some?
  }

  predicate AllSupersede(t: Trust, records: map<string, Record>, index: map<string, string>, batch: seq<Candidate>) {
    forall c | c in batch && IsTop(batch, c) :: Supersedes(t, records, index, c)
  }

  ghost predicate Admissible(t: Trust, verifyRoot: (string, Bytes) -> bool, now: int, replace: bool,
                             records: map<string, Record>, index: map<string, string>, batch: seq<Candidate>) {
    && Acyclic(batch)
    && AllWalk(ImportWorld(t, verifyRoot, InBatch(batch), records), now, batch)
    && OneTopPerGrantee(batch)
    && (replace || AllSupersede(t, records, index, batch))
  }

  // ------------------------------------------------------------------ binding

  /** The index after binding candidates one after the other. */
  function Rebound(index: map<string, string>, cs: seq<Candidate>): map<string, string> {
    if cs == [] then index
    else Rebound(index, cs[..|cs| - 1])[cs[|cs| - 1].grant.grantee := cs[|cs| - 1].rec.digest]
  }

  /** The candidates' grantees whose binding does not check out. */
  function Dangling(t: Trust, records: map<string, Record>, base: map<string, string>, cs: seq<Candidate>): set<string> {
    set g | g in Grantees(cs) && CurrentOf(t, records, base, g).None?
  }

  /** The index that binding the candidates and then undoing it leaves. */
  function Undone(t: Trust, records: map<string, Record>, base: map<string, string>, cs: seq<Candidate>): map<string, string> {
    base - Dangling(t, records, base, cs)
  }

  /** Undoing leaves the index as it was exactly when every binding it replaced checks out. */
  lemma UndoneIsWholeIff(t: Trust, records: map<string, Record>, base: map<string, string>, cs: seq<Candidate>)
    ensures Undone(t, records, base, cs) == base <==> ReplacedCheckOut(t, records, base, cs)
  {
    hide CurrentOf;
    var gone := Dangling(t, records, base, cs);
    if !ReplacedCheckOut(t, records, base, cs) {
      var k :| 0 <= k < |cs| && cs[k].grant.grantee in base && CurrentOf(t, records, base, cs[k].grant.grantee).None?;
      assert cs[k].grant.grantee in Grantees(cs) && cs[k].grant.grantee in gone;
    } else {
      assert forall g | g in base :: g !in gone;
    }
  }

  predicate ReplacedCheckOut(t: Trust, records: map<string, Record>, base: map<string, string>, cs: seq<Candidate>) {
    forall k | 0 <= k < |cs| && cs[k].grant.grantee in base :: CurrentOf(t, records, base, cs[k].grant.grantee).Some?
  }

  predicate Bindable(t: Trust, records: map<string, Record>, c: Candidate) {
    ValidGrantee(c.grant.grantee) && IsGrantTo(t, records, c.rec.digest, c.grant.grantee)
  }

  /** How many candidates can be bound before one cannot. */
  function BindableUpTo(t: Trust, records: map<string, Record>, cs: seq<Candidate>): nat {
    if cs == [] || !Bindable(t, records, cs[0]) then 0 else 1 + BindableUpTo(t, records, cs[1..])
  }

  /** Only grantees of the candidates may have moved. */
  ghost predicate OthersKept(base: map<string, string>, index: map<string, string>, cs: seq<Candidate>) {
    forall g | (forall i | 0 <= i < |cs| :: cs[i].grant.grantee != g) ::
      (g in index <==> g in base) && (g in base ==> index[g] == base[g])
  }

  datatype Binding = Bound | RolledBack | Stuck

  /** What a grantee was bound to, "" for nothing. */
  datatype Previous = Previous(grantee: string, digest: string)

  /** What bindAll notes before it binds candidate k. */
  ghost function Prior(t: Trust, records: map<string, Record>, base: map<string, string>, cs: seq<Candidate>, k: nat): Previous
    requires k < |cs|
  {
    var before := CurrentOf(t, records, Rebound(base, cs[..k]), cs[k].grant.grantee);
    Previous(cs[k].grant.grantee, if before.Some? then before.value.digest else "")
  }

  ghost predicate Remembers(t: Trust, records: map<string, Record>, base: map<string, string>, cs: seq<Candidate>, done: seq<Previous>) {
    && |done| <= |cs|
    && forall k | 0 <= k < |done| :: done[k] == Prior(t, records, base, cs, k)
  }

  /** bindAll: every candidate is bound or, when the undo steps succeed, the
      bindings made before the failure are put back but for those that did not
      check out. */
  method BindAll(store: GrantStore, toBind: seq<Candidate>) returns (r: Binding, made: nat)
    modifies store`index
    ensures made <= |toBind| && (r.Bound? <==> made == |toBind|)
    ensures forall k | 0 <= k < made :: Bindable(store.trust, store.records, toBind[k])
    ensures r.Bound? ==> store.index == Rebound(old(store.index), toBind)
    ensures r.RolledBack? ==> store.index == Undone(store.trust, store.records, old(store.index), toBind[..made])
    ensures OthersKept(old(store.index), store.index, toBind)
    ensures store.reliable ==> !r.Stuck? && made == BindableUpTo(store.trust, store.records, toBind)
  {
    hide ParsedText, CurrentOf, OthersKept, Remembers, Undone, Rebound, Bindable, BindableUpTo;
    var done: seq<Previous> := [];
    ghost var base := store.index;
    BindNothing(store.trust, store.records, base, toBind);
    for i := 0 to |toBind|
      invariant |done| == i && Remembers(store.trust, store.records, base, toBind, done)
      invariant store.index == Rebound(base, toBind[..i])
      invariant forall k | 0 <= k < i :: Bindable(store.trust, store.records, toBind[k])
      invariant OthersKept(base, store.index, toBind)
    {
      var c := toBind[i];
      var cur := store.Current(c.grant.grantee);
      var ok := store.Bind(c.grant.grantee, c.rec.digest);
      BindableIs(store.trust, store.records, c);
      if !ok {
        if store.reliable { StopsAt(store.trust, store.records, toBind, i); }
        r := Undo(store, base, toBind, done);
        made := i;
        return;
      }
      BindOne(store.trust, store.records, base, toBind, done, cur);
      done := done + [Previous(c.grant.grantee, if cur.Some? then cur.value.digest else "")];
    }
    assert toBind[..|toBind|] == toBind;
    if store.reliable { StopsAt(store.trust, store.records, toBind, |toBind|); }
    return Bound, |toBind|;
  }

  lemma BindableIs(t: Trust, records: map<string, Record>, c: Candidate)
    ensures Bindable(t, records, c) <==> ValidGrantee(c.grant.grantee) && IsGrantTo(t, records, c.rec.digest, c.grant.grantee)
  {
  }

  lemma {:induction false} StopsAt(t: Trust, records: map<string, Record>, cs: seq<Candidate>, n: nat)
    requires n <= |cs| && (forall k | 0 <= k < n :: Bindable(t, records, cs[k]))
    requires n < |cs| ==> !Bindable(t, records, cs[n])
    ensures BindableUpTo(t, records, cs) == n
  {
    hide Bindable;
    if n > 0 {
      assert forall k | 0 <= k < |cs| - 1 :: cs[1..][k] == cs[k + 1];
      StopsAt(t, records, cs[1..], n - 1);
    }
  }

  lemma BindNothing(t: Trust, records: map<string, Record>, base: map<string, string>, cs: seq<Candidate>)
    ensures Remembers(t, records, base, cs, []) && base == Rebound(base, cs[..0]) && OthersKept(base, base, cs)
  {
  }

  lemma BindOne(t: Trust, records: map<string, Record>, base: map<string, string>, cs: seq<Candidate>, done: seq<Previous>,
                cur: Option<Record>)
    requires |done| < |cs| && Remembers(t, records, base, cs, done)
    requires var i := |done|; cur == CurrentOf(t, records, Rebound(base, cs[..i]), cs[i].grant.grantee)
    requires OthersKept(base, Rebound(base, cs[..|done|]), cs)
    ensures var i := |done|;
            var index := Rebound(base, cs[..i + 1]);
            && index == Rebound(base, cs[..i])[cs[i].grant.grantee := cs[i].rec.digest] && OthersKept(base, index, cs)
            && Remembers(t, records, base, cs, done + [Previous(cs[i].grant.grantee, if cur.Some? then cur.value.digest else "")])
  {
    hide ParsedText, CurrentOf, Rebound, OthersKept, Remembers, Prior;
    ReboundStep(base, cs, |done|);
    OthersKeptSet(base, Rebound(base, cs[..|done|]), cs, |done|, cs[|done|].rec.digest);
    NoteIsPrior(t, records, base, cs, |done|, cur);
    RemembersStep(t, records, base, cs, done, Prior(t, records, base, cs, |done|));
  }

  lemma ReboundStep(base: map<string, string>, cs: seq<Candidate>, i: nat)
    requires i < |cs|
    ensures Rebound(base, cs[..i + 1]) == Rebound(base, cs[..i])[cs[i].grant.grantee := cs[i].rec.digest]
  {
    assert cs[..i + 1][..i] == cs[..i];
  }

  lemma RemembersStep(t: Trust, records: map<string, Record>, base: map<string, string>, cs: seq<Candidate>, done: seq<Previous>,
                      note: Previous)
    requires |done| < |cs| && Remembers(t, records, base, cs, done) && note == Prior(t, records, base, cs, |done|)
    ensures Remembers(t, records, base, cs, done + [note])
  {
    hide Prior;
  }

  lemma NoteIsPrior(t: Trust, records: map<string, Record>, base: map<string, string>, cs: seq<Candidate>, k: nat, cur: Option<Record>)
    requires k < |cs| && cur == CurrentOf(t, records, Rebound(base, cs[..k]), cs[k].grant.grantee)
    ensures Prior(t, records, base, cs, k) == Previous(cs[k].grant.grantee, if cur.Some? then cur.value.digest else "")
  {
    hide CurrentOf, Rebound;
  }

  lemma OthersKeptSet(base: map<string, string>, index: map<string, string>, cs: seq<Candidate>, i: nat, digest: string)
    requires OthersKept(base, index, cs) && i < |cs|
    ensures OthersKept(base, index[cs[i].grant.grantee := digest], cs)
    ensures OthersKept(base, index - {cs[i].grant.grantee}, cs)
  {
  }

  /** The undo loop of bindAll, last binding first. */
  method Undo(store: GrantStore, ghost base: map<string, string>, ghost cs: seq<Candidate>, done: seq<Previous>) returns (r: Binding)
    requires Remembers(store.trust, store.records, base, cs, done) && store.index == Rebound(base, cs[..|done|])
    requires forall k | 0 <= k < |done| :: Bindable(store.trust, store.records, cs[k])
    requires OthersKept(base, store.index, cs)
    modifies store`index
    ensures r.RolledBack? ==> store.index == Undone(store.trust, store.records, base, cs[..|done|])
    ensures r != Bound && OthersKept(base, store.index, cs)
    ensures store.reliable ==> r.RolledBack?
  {
    hide ParsedText, CurrentOf, OthersKept, Undone, ValidGrantee, IsGrantTo;
    var failed := 0;
    var i := |done|;
    ghost var undone := cs[..|done|];
    UndoNothing(store.trust, store.records, store.index);
    assert undone[i..] == [];
    while i > 0
      invariant 0 <= i <= |done|
      invariant failed == 0 ==> store.index == Undone(store.trust, store.records, Rebound(base, cs[..i]), undone[i..])
      invariant OthersKept(base, store.index, cs)
      invariant store.reliable ==> failed == 0
    {
      i := i - 1;
      var p := done[i];
      assert cs[..i + 1][..i] == cs[..i];
      assert p.grantee == cs[i].grant.grantee;
      assert undone[i..] == [cs[i]] + undone[i + 1..];
      OthersKeptSet(base, store.index, cs, i, p.digest);
      UndoOne(store.trust, store.records, Rebound(base, cs[..i]), store.index, cs[i], undone[i + 1..]);
      var ok: bool;
      if p.digest == "" {
        ok := store.Unbind(p.grantee);
      } else {
        ok := store.Bind(p.grantee, p.digest);
      }
      if !ok { failed := failed + 1; }
    }
    assert cs[..0] == [] && undone[0..] == cs[..|done|];
    return if failed > 0 then Stuck else RolledBack;
  }

  lemma UndoNothing(t: Trust, records: map<string, Record>, index: map<string, string>)
    ensures Undone(t, records, index, []) == index
  {
  }

  lemma UndoOne(t: Trust, records: map<string, Record>, base: map<string, string>, index: map<string, string>, c: Candidate,
                later: seq<Candidate>)
    ensures var g := c.grant.grantee;
            var before := CurrentOf(t, records, base, g);
            && (before.Some? ==> before.value.digest != "" && ValidGrantee(g) && IsGrantTo(t, records, before.value.digest, g))
            && (index == Undone(t, records, base[g := c.rec.digest], later) ==>
                  if before.None? then index - {g} == Undone(t, records, base, [c] + later)
                  else index[g := before.value.digest] == Undone(t, records, base, [c] + later))
  {
    hide CurrentOf, Dangling, ValidGrantee, IsGrantTo;
    var g := c.grant.grantee;
    var bound := base[g := c.rec.digest];
    DanglingCons(t, records, base, c, later);
    DanglingElsewhere(t, records, base, g, c.rec.digest, later);
    var now, was := Dangling(t, records, bound, later), Dangling(t, records, base, later);
    assert forall h | h != g :: h in bound && h !in now <==> h in base && h !in was;
  }

  /** Other grantees' bindings do not see the one that was bound. */
  lemma DanglingElsewhere(t: Trust, records: map<string, Record>, base: map<string, string>, g: string, digest: string,
                          later: seq<Candidate>)
    ensures forall h | h != g ::
      h in Dangling(t, records, base[g := digest], later) <==> h in Dangling(t, records, base, later)
  {
    assert forall h | h != g :: CurrentOf(t, records, base[g := digest], h) == CurrentOf(t, records, base, h);
    hide CurrentOf;
  }

  lemma DanglingCons(t: Trust, records: map<string, Record>, base: map<string, string>, c: Candidate, later: seq<Candidate>)
    ensures Dangling(t, records, base, [c] + later) == Dangling(t, records, base, later)
      + (if CurrentOf(t, records, base, c.grant.grantee).None? then {c.grant.grantee} else {})
    ensures CurrentOf(t, records, base, c.grant.grantee).Some? ==> c.grant.grantee !in Dangling(t, records, base, [c] + later)
  {
    hide CurrentOf;
    GranteesCons(c, later);
    hide Grantees;
  }

  lemma GranteesCons(c: Candidate, later: seq<Candidate>)
    ensures Grantees([c] + later) == {c.grant.grantee} + Grantees(later)
  {
    var all := [c] + later;
    assert all[0] == c && forall k | 1 <= k < |all| :: all[k] == later[k - 1];
    forall g ensures g in Grantees(all) <==> g == c.grant.grantee || g in Grantees(later) {
      if g in Grantees(later) {
        var k :| 0 <= k < |later| && later[k].grant.grantee == g;
        assert all[k + 1].grant.grantee == g;
      }
    }
  }

  // ------------------------------------------------------------------- import

  /** The candidates nothing in the batch widens, in order. */
  function TopsOf(batch: seq<Candidate>, cs: seq<Candidate>): (tops: seq<Candidate>)
    ensures forall c :: c in tops <==> c in cs && IsTop(batch, c)
  {
    if cs == [] then []
    else
      var n := |cs| - 1;
      assert cs == cs[..n] + [cs[n]];
      var tops := TopsOf(batch, cs[..n]);
      if IsTop(batch, cs[n]) then tops + [cs[n]] else tops
  }

  function Grantees(cs: seq<Candidate>): set<string> {
    set k | 0 <= k < |cs| :: cs[k].grant.grantee
  }

  function AllWidened(cs: seq<Candidate>): set<string> {
    set k | 0 <= k < |cs| :: cs[k].grant.widens
  }

  ghost predicate DistinctGrantees(cs: seq<Candidate>) {
    forall i, j | 0 <= i < j < |cs| :: cs[i].grant.grantee != cs[j].grant.grantee
  }

  /** Collecting what to bind; refused when a grantee would get two records. */
  method SelectTops(ordered: seq<Candidate>) returns (r: Option<seq<Candidate>>)
    requires UniqueDigests(ordered)
    ensures r.Some? <==> OneTopPerGrantee(ordered)
    ensures r.Some? ==> r.value == TopsOf(ordered, ordered) && DistinctGrantees(r.value)
  {
    hide Grantees, AllWidened, IsTop, OneTopPerGrantee, DistinctGrantees;
    var widenedInBatch := AllWidened(ordered);
    var toBind: seq<Candidate> := [];
    var bindingFor: map<string, string> := map[];
    NoGrantees();
    for i := 0 to |ordered|
      invariant toBind == TopsOf(ordered, ordered[..i])
      invariant bindingFor.Keys == Grantees(toBind)
      invariant DistinctGrantees(toBind)
    {
      var c := ordered[i];
      assert ordered[..i + 1][..i] == ordered[..i];
      TopIffUnwidened(ordered, i);
      if c.rec.digest in widenedInBatch { continue; }
      if c.grant.grantee in bindingFor {
        EarlierTopDiffers(ordered, i, toBind);
        return None;
      }
      bindingFor := bindingFor[c.grant.grantee := c.rec.digest];
      GranteesAppend(toBind, c);
      toBind := toBind + [c];
    }
    assert ordered[..|ordered|] == ordered;
    OneTop(ordered, toBind);
    return Some(toBind);
  }

  lemma NoGrantees()
    ensures Grantees([]) == {} && DistinctGrantees([])
  {
  }

  lemma GranteesAppend(cs: seq<Candidate>, c: Candidate)
    ensures Grantees(cs + [c]) == Grantees(cs) + {c.grant.grantee}
    ensures DistinctGrantees(cs) && c.grant.grantee !in Grantees(cs) ==> DistinctGrantees(cs + [c])
  {
    var more := cs + [c];
    forall g ensures g in Grantees(more) <==> g in Grantees(cs) + {c.grant.grantee} {
      if g in Grantees(cs) {
        var k :| 0 <= k < |cs| && cs[k].grant.grantee == g;
        assert more[k].grant.grantee == g;
      }
      assert more[|cs|].grant.grantee == c.grant.grantee;
    }
    assert forall k | 0 <= k < |cs| :: cs[k].grant.grantee in Grantees(cs);
  }

  lemma TopIffUnwidened(batch: seq<Candidate>, i: nat)
    requires i < |batch|
    ensures IsTop(batch, batch[i]) <==> batch[i].rec.digest !in AllWidened(batch)
  {
    if !IsTop(batch, batch[i]) {
      var x :| x in batch && x.grant.widens == batch[i].rec.digest;
      var k :| 0 <= k < |batch| && batch[k] == x;
      assert batch[k].grant.widens == batch[i].rec.digest;
    }
  }

  lemma EarlierTopDiffers(ordered: seq<Candidate>, i: nat, tops: seq<Candidate>)
    requires UniqueDigests(ordered) && i < |ordered| && tops == TopsOf(ordered, ordered[..i])
    requires IsTop(ordered, ordered[i]) && ordered[i].grant.grantee in Grantees(tops)
    ensures !OneTopPerGrantee(ordered)
  {
    hide IsTop;
    var k :| 0 <= k < |tops| && tops[k].grant.grantee == ordered[i].grant.grantee;
    assert tops[k] in tops;
    var l :| 0 <= l < i && ordered[l] == tops[k];
  }

  lemma OneTop(ordered: seq<Candidate>, tops: seq<Candidate>)
    requires tops == TopsOf(ordered, ordered) && DistinctGrantees(tops)
    ensures OneTopPerGrantee(ordered)
  {
  }

  method CheckWalks(w: World, now: int, ordered: seq<Candidate>) returns (ok: bool)
    ensures ok <==> AllWalk(w, now, ordered)
  {
    hide Walked;
    for i := 0 to |ordered|
      invariant forall k | 0 <= k < i :: Walked(w, now, ordered[k].rec).Some?
    {
      var g := Walk(w, now, ordered[i].rec);
      if g.None? { return false; }
    }
    return true;
  }

  method CheckSupersedes(store: GrantStore, tops: seq<Candidate>) returns (ok: bool)
    ensures ok <==> forall c | c in tops :: Supersedes(store.trust, store.records, store.index, c)
    ensures ok <==> forall i | 0 <= i < |tops| ::
      var cur := CurrentOf(store.trust, store.records, store.index, tops[i].grant.grantee);
      cur.None? || cur.value.digest == tops[i].rec.digest || cur.value.digest == tops[i].grant.widens
  {
    hide CurrentOf, ParsedText, ValidGrantee, IsGrantTo, Lookup;
    for i := 0 to |tops|
      invariant forall k | 0 <= k < i :: Supersedes(store.trust, store.records, store.index, tops[k])
    {
      var cur := store.Current(tops[i].grant.grantee);
      if cur.Some? && cur.value.digest != tops[i].rec.digest && tops[i].grant.widens != cur.value.digest {
        assert !Supersedes(store.trust, store.records, store.index, tops[i]);
        return false;
      }
    }
    return true;
  }

  /** Storing every record, stopping at the first failure. */
  method PutAll(store: GrantStore, ordered: seq<Candidate>) returns (ok: bool)
    requires UniqueDigests(ordered)
    modifies store`records
    ensures ok ==> forall c | c in ordered :: c.rec.digest in store.records && store.records[c.rec.digest] == c.rec
    ensures forall d | d !in Digests(ordered) :: (d in store.records <==> d in old(store.records)) && (d in old(store.records) ==> store.records[d] == old(store.records)[d])
    ensures CollisionFree(store.trust.digestOf) && NoDangling(store.trust, old(store.records), store.index)
        ==> NoDangling(store.trust, store.records, store.index)
  {
    hide ParsedText, Storable, NoDangling;
    for i := 0 to |ordered|
      invariant forall k | 0 <= k < i :: ordered[k].rec.digest in store.records && store.records[ordered[k].rec.digest] == ordered[k].rec
      invariant forall d | d !in Digests(ordered) :: (d in store.records <==> d in old(store.records)) && (d in old(store.records) ==> store.records[d] == old(store.records)[d])
      invariant CollisionFree(store.trust.digestOf) && NoDangling(store.trust, old(store.records), store.index)
            ==> NoDangling(store.trust, store.records, store.index)
    {
      assert ordered[i].rec.digest in Digests(ordered);
      ghost var before := store.records;
      var stored := store.Put(ordered[i].rec);
      if !stored { return false; }
      if CollisionFree(store.trust.digestOf) && NoDangling(store.trust, before, store.index) {
        StoreStaysConsistent(store.trust, before, store.index, ordered[i].rec, "", "");
      }
    }
    return true;
  }

  datatype Outcome = Imported | Refused | NotStored | BindingsRolledBack | RollbackFailed

  /** Some record of the batch becomes g's current one. */
  ghost predicate GetsRecord(batch: seq<Candidate>, g: string) {
    exists c :: c in batch && IsTop(batch, c) && c.grant.grantee == g
  }

  /** Exactly the tops are bound, each grantee to its own; everyone else is as before. */
  ghost predicate BoundTops(base: map<string, string>, index: map<string, string>, batch: seq<Candidate>) {
    && (forall c | c in batch && IsTop(batch, c) :: c.grant.grantee in index && index[c.grant.grantee] == c.rec.digest)
    && (forall g | !GetsRecord(batch, g) ::
          (g in index <==> g in base) && (g in base ==> index[g] == base[g]))
  }

  ghost predicate AllStored(records: map<string, Record>, batch: seq<Candidate>) {
    forall c | c in batch :: c.rec.digest in records && records[c.rec.digest] == c.rec
  }

  lemma InBatchAt(batch: seq<Candidate>, c: Candidate)
    requires UniqueDigests(batch) && c in batch
    ensures c.rec.digest in InBatch(batch) && InBatch(batch)[c.rec.digest] == c.rec
  {
    var n := |batch| - 1;
    assert batch == batch[..n] + [batch[n]];
    if c != batch[n] {
      var k :| 0 <= k < |batch| && batch[k] == c;
      InBatchAt(batch[..n], c);
    }
  }

  /** Nothing an import looks at depends on the order of the batch. */
  lemma OrderIrrelevant(batch: seq<Candidate>, ordered: seq<Candidate>)
    requires UniqueDigests(batch) && UniqueDigests(ordered) && multiset(batch) == multiset(ordered)
    ensures forall c :: c in batch <==> c in ordered
    ensures forall c :: IsTop(batch, c) <==> IsTop(ordered, c)
    ensures InBatch(batch) == InBatch(ordered)
  {
    forall c ensures c in batch <==> c in ordered {
      assert c in batch <==> c in multiset(batch);
      assert c in ordered <==> c in multiset(ordered);
    }
    assert Digests(batch) == Digests(ordered) by {
      forall d ensures d in Digests(batch) <==> d in Digests(ordered) {
        if d in Digests(batch) {
          var k :| 0 <= k < |batch| && batch[k].rec.digest == d;
          assert batch[k] in ordered;
        }
        if d in Digests(ordered) {
          var k :| 0 <= k < |ordered| && ordered[k].rec.digest == d;
          assert ordered[k] in batch;
        }
      }
    }
    forall d | d in Digests(batch) ensures InBatch(batch)[d] == InBatch(ordered)[d] {
      var k :| 0 <= k < |batch| && batch[k].rec.digest == d;
      InBatchAt(batch, batch[k]);
      InBatchAt(ordered, batch[k]);
    }
  }

  lemma PermutedUnique(batch: seq<Candidate>, ordered: seq<Candidate>)
    requires UniqueDigests(batch) && multiset(batch) == multiset(ordered)
    ensures UniqueDigests(ordered)
  {
    DigestsSize(batch);
    DigestsSize(ordered);
    assert |multiset(batch)| == |batch| && |multiset(ordered)| == |ordered|;
    assert Digests(batch) == Digests(ordered) by {
      forall d ensures d in Digests(batch) <==> d in Digests(ordered) {
        if d in Digests(batch) {
          var k :| 0 <= k < |batch| && batch[k].rec.digest == d;
          assert batch[k] in multiset(ordered);
        }
        if d in Digests(ordered) {
          var k :| 0 <= k < |ordered| && ordered[k].rec.digest == d;
          assert ordered[k] in multiset(batch);
        }
      }
    }
  }

  lemma AdmissibleInAnyOrder(t: Trust, verifyRoot: (string, Bytes) -> bool, now: int, replace: bool,
                             records: map<string, Record>, index: map<string, string>,
                             batch: seq<Candidate>, ordered: seq<Candidate>)
    requires UniqueDigests(batch) && UniqueDigests(ordered) && multiset(batch) == multiset(ordered) && Acyclic(batch)
    ensures Admissible(t, verifyRoot, now, replace, records, index, batch) <==>
            && AllWalk(ImportWorld(t, verifyRoot, InBatch(ordered), records), now, ordered)
            && OneTopPerGrantee(ordered)
            && (replace || forall c | c in TopsOf(ordered, ordered) :: Supersedes(t, records, index, c))
  {
    hide Walked, Supersedes, Acyclic, ImportWorld, InBatch;
    OrderIrrelevant(batch, ordered);
  }

  /** Distinct grantees are each bound to their own record. */
  lemma {:induction false} ReboundAt(base: map<string, string>, cs: seq<Candidate>, i: nat)
    requires DistinctGrantees(cs) && i < |cs|
    ensures cs[i].grant.grantee in Rebound(base, cs) && Rebound(base, cs)[cs[i].grant.grantee] == cs[i].rec.digest
    decreases |cs|
  {
    var n := |cs| - 1;
    if i < n {
      ReboundAt(base, cs[..n], i);
    }
  }

  lemma TopsBound(base: map<string, string>, index: map<string, string>, batch: seq<Candidate>, ordered: seq<Candidate>)
    requires UniqueDigests(batch) && UniqueDigests(ordered) && multiset(batch) == multiset(ordered)
    requires var tops := TopsOf(ordered, ordered); DistinctGrantees(tops) && index == Rebound(base, tops) && OthersKept(base, index, tops)
    ensures BoundTops(base, index, batch)
  {
    hide Rebound, IsTop, InBatch;
    OrderIrrelevant(batch, ordered);
    var tops := TopsOf(ordered, ordered);
    forall c | c in batch && IsTop(batch, c) ensures c.grant.grantee in index && index[c.grant.grantee] == c.rec.digest {
      assert c in tops;
      var i :| 0 <= i < |tops| && tops[i] == c;
      ReboundAt(base, tops, i);
    }
    forall g | !GetsRecord(batch, g)
      ensures forall i | 0 <= i < |tops| :: tops[i].grant.grantee != g
    {
      forall i | 0 <= i < |tops| ensures tops[i].grant.grantee != g {
        assert tops[i] in tops;
      }
    }
  }

  /** importGrantRecords: refused exactly when there is nothing to import or a
      check fails, and then the store is as it was. Otherwise every record is
      stored before any is bound; then all tops are bound, or the bindings made
      before a failure are put back but for those that did not check out. */
  method ImportGrantRecords(store: GrantStore, recs: seq<Record>, verifyRoot: (string, Bytes) -> bool, now: int, replace: bool)
      returns (r: Outcome, ghost tops: seq<Candidate>, ghost made: nat)
    modifies store
    ensures r.Refused? <==>
            !(&& recs != [] && AllImportable(store.trust.clock, recs)
              && Admissible(store.trust, verifyRoot, now, replace, old(store.records), old(store.index), BatchOf(store.trust.clock, recs)))
    ensures r.Refused? ==> store.records == old(store.records) && store.index == old(store.index)
    ensures r.NotStored? ==> store.index == old(store.index)
    ensures r.BindingsRolledBack? || r.RollbackFailed? || r.Imported? ==>
              AllStored(store.records, BatchOf(store.trust.clock, recs)) && AreTops(BatchOf(store.trust.clock, recs), tops)
    ensures r.BindingsRolledBack? || r.RollbackFailed? ==> made < |tops|
    ensures r.BindingsRolledBack? ==>
              && store.index == Undone(store.trust, store.records, old(store.index), tops[..made])
              && (store.index == old(store.index) <==> ReplacedCheckOut(store.trust, store.records, old(store.index), tops[..made]))
    ensures r.BindingsRolledBack? && CollisionFree(store.trust.digestOf) && NoDangling(store.trust, old(store.records), old(store.index))
        ==> store.index == old(store.index)
    ensures r.Imported? ==> BoundTops(old(store.index), store.index, BatchOf(store.trust.clock, recs))
    ensures store.reliable ==> !r.RollbackFailed?
  {
    hide ParsedText, Walked, Admissible, AllWalk, Undone, NoDangling, CollisionFree, IsTop, Rebound, BoundTops, Acyclic, InBatch,
         OneTopPerGrantee, Supersedes, ImportWorld, OthersKept, Digests, WidenedFirst, IsBatchOf, ReplacedCheckOut, Bindable,
         BindableUpTo;
    tops, made := [], 0;
    if |recs| == 0 { r := Refused; return; }
    var parsed := ParseImportBatch(store.trust.clock, recs);
    if parsed.None? { r := Refused; return; }
    var batch := parsed.value;
    BatchUnique(store.trust.clock, recs);
    var sorted := OrderWidenedFirst(batch);
    if sorted.None? {
      NotAdmissible(store.trust, verifyRoot, now, replace, store.records, store.index, batch);
      r := Refused;
      return;
    }
    var ordered := sorted.value;
    PermutedUnique(batch, ordered);
    AdmissibleInAnyOrder(store.trust, verifyRoot, now, replace, store.records, store.index, batch, ordered);
    var walksOk := CheckWalks(ImportWorld(store.trust, verifyRoot, InBatch(ordered), store.records), now, ordered);
    if !walksOk { r := Refused; return; }
    var toBind := SelectTops(ordered);
    if toBind.None? { r := Refused; return; }
    if !replace {
      var ok := CheckSupersedes(store, toBind.value);
      if !ok { r := Refused; return; }
    }
    var stored := PutAll(store, ordered);
    if !stored { r := NotStored; return; }
    SameStored(store.records, batch, ordered);
    tops := toBind.value;
    TopsAre(batch, ordered);
    var bound, n := BindAll(store, toBind.value);
    made := n;
    if bound.Bound? {
      TopsBound(old(store.index), store.index, batch, ordered);
      r := Imported;
      return;
    }
    UndoneIsWholeIff(store.trust, store.records, old(store.index), tops[..made]);
    ConsistentUndone(store.trust, store.records, old(store.index), tops[..made]);
    r := if bound.RolledBack? then BindingsRolledBack else RollbackFailed;
  }

  /** Exactly the records of the batch nothing in it widens, no grantee twice. */
  ghost predicate AreTops(batch: seq<Candidate>, tops: seq<Candidate>) {
    DistinctGrantees(tops) && forall c :: c in tops <==> IsTop(batch, c)
  }

  lemma TopsAre(batch: seq<Candidate>, ordered: seq<Candidate>)
    requires UniqueDigests(batch) && UniqueDigests(ordered) && multiset(batch) == multiset(ordered)
    requires DistinctGrantees(TopsOf(ordered, ordered))
    ensures AreTops(batch, TopsOf(ordered, ordered))
  {
    hide InBatch, DistinctGrantees;
    OrderIrrelevant(batch, ordered);
  }

  lemma BatchUnique(clock: Clock, recs: seq<Record>)
    requires AllImportable(clock, recs)
    ensures UniqueDigests(BatchOf(clock, recs))
  {
    hide ParsedText, BatchOf;
    BatchOfIs(clock, recs);
  }

  lemma NotAdmissible(t: Trust, verifyRoot: (string, Bytes) -> bool, now: int, replace: bool,
                      records: map<string, Record>, index: map<string, string>, batch: seq<Candidate>)
    requires !Acyclic(batch)
    ensures !Admissible(t, verifyRoot, now, replace, records, index, batch)
  {
  }

  lemma SameStored(records: map<string, Record>, batch: seq<Candidate>, ordered: seq<Candidate>)
    requires UniqueDigests(batch) && UniqueDigests(ordered) && multiset(batch) == multiset(ordered)
    requires forall c | c in ordered :: c.rec.digest in records && records[c.rec.digest] == c.rec
    ensures AllStored(records, batch)
  {
    hide InBatch, IsTop;
    OrderIrrelevant(batch, ordered);
  }

  /** With no dangling binding, putting back is exact. */
  lemma ConsistentUndone(t: Trust, records: map<string, Record>, base: map<string, string>, cs: seq<Candidate>)
    ensures NoDangling(t, records, base) ==> Undone(t, records, base, cs) == base
  {
    hide CurrentOf, ParsedText, ValidGrantee;
    UndoneIsWholeIff(t, records, base, cs);
  }

  /** The other half, on a disk that never fails: a first candidate whose grantee
      has a binding that does not check out, and a second that cannot be bound.
      Bind remembers nothing for the dangling entry, so the undo removes it. */
  method DanglingBindingIsDropped(store: GrantStore, c: Candidate, d: Candidate) returns (r: Binding, made: nat)
    requires store.reliable && Bindable(store.trust, store.records, c) && !Bindable(store.trust, store.records, d)
    requires c.grant.grantee in store.index
    requires CurrentOf(store.trust, store.records, store.index, c.grant.grantee).None?
    modifies store`index
    ensures r.RolledBack? && made == 1
    ensures store.index == old(store.index) - {c.grant.grantee} && store.index != old(store.index)
  {
    hide CurrentOf, Bindable, ParsedText, Rebound;
    StopsAt(store.trust, store.records, [c, d], 1);
    assert [c, d][..1] == [c] + [];
    DanglingCons(store.trust, store.records, store.index, c, []);
    r, made := BindAll(store, [c, d]);
  }

  /** Without replace, what an admitted batch binds to a grantee keeps every
      profile name its current record carries: a bound grantee never loses one. */
  lemma ImportKeepsProfiles(t: Trust, verifyRoot: (string, Bytes) -> bool, now: int,
                            records: map<string, Record>, index: map<string, string>, batch: seq<Candidate>, c: Candidate)
    requires Admissible(t, verifyRoot, now, false, records, index, batch) && IsTop(batch, c)
    requires ParsedText(t.clock, c.rec.text) == Some(c.grant) && CollisionFree(t.digestOf)
    requires CurrentOf(t, records, index, c.grant.grantee).Some?
    requires CurrentOf(t, records, index, c.grant.grantee).value.digest != NO_VALUE
    ensures Verified(t, CurrentOf(t, records, index, c.grant.grantee).value).value.profiles.Keys <= c.grant.profiles.Keys
  {
    hide ParsedText, Acyclic, OneTopPerGrantee, InBatch, SignatureOk, IsTop, ValidGrantee, Narrows;
    var cur := CurrentOf(t, records, index, c.grant.grantee).value;
    var w := ImportWorld(t, verifyRoot, InBatch(batch), records);
    assert c in batch by { TopIsIn(batch, c); }
    assert Walked(w, now, c.rec).Some? && Supersedes(t, records, index, c);
    assert VerifiedGrant(w, now, c.rec) == Some(c.grant) && WidensOk(w, now, c.rec, c.grant);
    if cur.digest == c.rec.digest {
      assert t.digestOf(cur.text) == t.digestOf(c.rec.text);
    } else {
      var widened := w.resolve(c.grant.widens).value;
      assert t.digestOf(cur.text) == t.digestOf(widened.text);
    }
  }

  lemma TopIsIn(batch: seq<Candidate>, c: Candidate)
    requires IsTop(batch, c)
    ensures c in batch
  {
  }
}
