/** A batch of records to import: parsed and freed of duplicates, then put in an
    order where each follows the record it widens
    (cmd/spinclass/profilegrant_import_cmd.go). */
module ImportOrder {
  import opened Text
  import opened Grants
  import opened Chain

  datatype Candidate = Candidate(rec: Record, grant: Grant)

  // ----------------------------------------------------------------- the batch

  ghost predicate UniqueDigests(batch: seq<Candidate>) {
    forall i, j | 0 <= i < j < |batch| :: batch[i].rec.digest != batch[j].rec.digest
  }

  function Digests(batch: seq<Candidate>): set<string> {
    set i | 0 <= i < |batch| :: batch[i].rec.digest
  }

  ghost function RecordDigests(recs: seq<Record>): set<string> {
    set k | 0 <= k < |recs| :: recs[k].digest
  }

  predicate Importable(clock: Clock, rec: Record) {
    rec.root && ParsedText(clock, rec.text).Some?
  }

  /** The first record under each digest, with the grant its text states. */
  ghost predicate IsBatchOf(clock: Clock, recs: seq<Record>, batch: seq<Candidate>) {
    && UniqueDigests(batch)
    && (forall i | 0 <= i < |batch| ::
          Importable(clock, batch[i].rec) && ParsedText(clock, batch[i].rec.text) == Some(batch[i].grant))
    && (forall i | 0 <= i < |batch| ::
          exists k | 0 <= k < |recs| :: recs[k] == batch[i].rec && forall l | 0 <= l < k :: recs[l].digest != recs[k].digest)
    && Digests(batch) == RecordDigests(recs)
  }

  predicate AllImportable(clock: Clock, recs: seq<Record>) {
    forall k | 0 <= k < |recs| :: Importable(clock, recs[k])
  }

  /** The batch an input stands for: a later record under a known digest is dropped. */
  function BatchOf(clock: Clock, recs: seq<Record>): seq<Candidate>
    requires AllImportable(clock, recs)
  {
    if recs == [] then []
    else
      var last := recs[|recs| - 1];
      var batch := BatchOf(clock, recs[..|recs| - 1]);
      if last.digest in Digests(batch) then batch else batch + [Candidate(last, ParsedText(clock, last.text).value)]
  }

  lemma {:induction false} BatchOfIs(clock: Clock, recs: seq<Record>)
    requires AllImportable(clock, recs)
    ensures IsBatchOf(clock, recs, BatchOf(clock, recs))
  {
    hide ParsedText;
    if recs == [] {
      assert RecordDigests(recs) == {};
    } else {
      var n := |recs| - 1;
      BatchOfIs(clock, recs[..n]);
      assert Importable(clock, recs[n]);
      BatchStep(clock, recs, n, BatchOf(clock, recs[..n]), ParsedText(clock, recs[n].text).value);
      assert recs[..n + 1] == recs;
    }
  }

  /** parseImportBatch: refused iff some record is not a root or does not parse. */
  method ParseImportBatch(clock: Clock, recs: seq<Record>) returns (r: Option<seq<Candidate>>)
    ensures r.Some? <==> AllImportable(clock, recs)
    ensures r.Some? ==> r.value == BatchOf(clock, recs)
  {
    hide ParsedText;
    var seen: set<string> := {};
    var batch: seq<Candidate> := [];
    for i := 0 to |recs|
      invariant AllImportable(clock, recs[..i])
      invariant seen == Digests(batch) && batch == BatchOf(clock, recs[..i])
    {
      var rec := recs[i];
      assert recs[..i + 1][..i] == recs[..i];
      if !rec.root { return None; }
      var g := ParseCanonicalText(clock, rec.text);
      if g.None? { return None; }
      DigestsAppend(batch, Candidate(rec, g.value));
      if rec.digest !in seen {
        batch := batch + [Candidate(rec, g.value)];
        seen := seen + {rec.digest};
      }
    }
    assert recs[..|recs|] == recs;
    return Some(batch);
  }

  lemma BatchStep(clock: Clock, recs: seq<Record>, i: nat, batch: seq<Candidate>, g: Grant)
    requires i < |recs| && IsBatchOf(clock, recs[..i], batch)
    requires Importable(clock, recs[i]) && ParsedText(clock, recs[i].text) == Some(g)
    ensures recs[i].digest in Digests(batch) ==> IsBatchOf(clock, recs[..i + 1], batch)
    ensures recs[i].digest !in Digests(batch) ==> IsBatchOf(clock, recs[..i + 1], batch + [Candidate(recs[i], g)])
    ensures Digests(batch + [Candidate(recs[i], g)]) == Digests(batch) + {recs[i].digest}
  {
    hide ParsedText;
    var before, after := recs[..i], recs[..i + 1];
    var more := batch + [Candidate(recs[i], g)];
    DigestsAppend(batch, Candidate(recs[i], g));
    RecordDigestsAppend(before, recs[i]);
    assert after == before + [recs[i]];
    forall b | 0 <= b < |batch|
      ensures exists k | 0 <= k < |after| :: after[k] == batch[b].rec && forall l | 0 <= l < k :: after[l].digest != after[k].digest
    {
      var k :| 0 <= k < |before| && before[k] == batch[b].rec && forall l | 0 <= l < k :: before[l].digest != before[k].digest;
      assert after[k] == batch[b].rec && forall l | 0 <= l < k :: after[l] == before[l];
    }
    if recs[i].digest !in Digests(batch) {
      assert after[i] == recs[i];
      forall l | 0 <= l < i ensures after[l].digest != after[i].digest {
        assert after[l] == before[l];
        assert before[l].digest in RecordDigests(before);
      }
      forall b | 0 <= b < |batch| ensures batch[b].rec.digest != recs[i].digest {
        assert batch[b].rec.digest in Digests(batch);
      }
    }
  }

  lemma DigestsAppend(batch: seq<Candidate>, c: Candidate)
    ensures Digests(batch + [c]) == Digests(batch) + {c.rec.digest}
  {
    var more := batch + [c];
    forall d ensures d in Digests(more) <==> d in Digests(batch) + {c.rec.digest} {
      if d in Digests(batch) {
        var i :| 0 <= i < |batch| && batch[i].rec.digest == d;
        assert more[i].rec.digest == d;
      }
      assert more[|batch|].rec.digest == c.rec.digest;
    }
  }

  lemma RecordDigestsAppend(recs: seq<Record>, rec: Record)
    ensures RecordDigests(recs + [rec]) == RecordDigests(recs) + {rec.digest}
  {
    var more := recs + [rec];
    forall d ensures d in RecordDigests(more) <==> d in RecordDigests(recs) + {rec.digest} {
      if d in RecordDigests(recs) {
        var k :| 0 <= k < |recs| && recs[k].digest == d;
        assert more[k].digest == d;
      }
      assert more[|recs|].digest == rec.digest;
    }
  }

  // ------------------------------------------------------------------ ordering

  /** i is widened by none before it: what it widens, if in the batch, comes earlier. */
  ghost predicate WidenedFirst(ordered: seq<Candidate>, digests: set<string>) {
    forall i | 0 <= i < |ordered| && ordered[i].grant.widens in digests ::
      exists j | 0 <= j < i :: ordered[j].rec.digest == ordered[i].grant.widens
  }

  /** A ring of batch records, each widening the next. */
  ghost predicate IsCycle(batch: seq<Candidate>, ring: seq<nat>) {
    && ring != []
    && (forall k | 0 <= k < |ring| :: ring[k] < |batch|)
    && (forall k, l | 0 <= k < |ring| && l == (if k + 1 < |ring| then k + 1 else 0) ::
          batch[ring[k]].grant.widens == batch[ring[l]].rec.digest)
  }

  ghost predicate Acyclic(batch: seq<Candidate>) {
    !exists ring :: IsCycle(batch, ring)
  }

  /** What the passes keep: placed records are distinct records of the batch, each after what it widens. */
  ghost predicate Placing(batch: seq<Candidate>, ordered: seq<Candidate>, placed: set<string>) {
    && (forall i | 0 <= i < |ordered| :: ordered[i] in batch)
    && UniqueDigests(ordered) && placed == Digests(ordered)
    && WidenedFirst(ordered, Digests(batch))
  }

  /** orderWidenedFirst, by repeated passes: it succeeds iff the digests are
      unique and no records widen each other in a ring, and then permutes the
      batch so that each record follows the one it widens. */
  method OrderWidenedFirst(batch: seq<Candidate>) returns (r: Option<seq<Candidate>>)
    ensures r.Some? <==> UniqueDigests(batch) && Acyclic(batch)
    ensures r.Some? ==> multiset(r.value) == multiset(batch) && WidenedFirst(r.value, Digests(batch))
  {
    var digests := Digests(batch);
    var placed: set<string> := {};
    var ordered: seq<Candidate> := [];
    while |ordered| < |batch|
      invariant Placing(batch, ordered, placed)
      decreases |batch| - |ordered|
    {
      var progress := false;
      ghost var before := ordered;
      for i := 0 to |batch|
        invariant Placing(batch, ordered, placed) && |ordered| >= |before|
        invariant progress <==> |ordered| > |before|
        invariant !progress ==> Blocked(batch, i, placed)
      {
        var c := batch[i];
        if c.rec.digest in placed { continue; }
        var widened := c.grant.widens;
        if widened in digests && widened !in placed { continue; }
        PlaceOne(batch, ordered, placed, c);
        placed := placed + {c.rec.digest};
        ordered := ordered + [c];
        progress := true;
      }
      PlacedBound(batch, ordered, placed);
      if !progress {
        NoProgressMeansCycle(batch, ordered, placed);
        return None;
      }
    }
    PlacedAll(batch, ordered, placed);
    OrderedAcyclic(batch, ordered);
    return Some(ordered);
  }

  /** Nothing among the first n can be placed. */
  ghost predicate Blocked(batch: seq<Candidate>, n: nat, placed: set<string>)
    requires n <= |batch|
  {
    forall k | 0 <= k < n && batch[k].rec.digest !in placed ::
      batch[k].grant.widens in Digests(batch) && batch[k].grant.widens !in placed
  }

  lemma PlaceOne(batch: seq<Candidate>, ordered: seq<Candidate>, placed: set<string>, c: Candidate)
    requires Placing(batch, ordered, placed) && c in batch && c.rec.digest !in placed
    requires c.grant.widens in Digests(batch) ==> c.grant.widens in placed
    ensures Placing(batch, ordered + [c], placed + {c.rec.digest})
  {
    var more := ordered + [c];
    DigestsAppend(ordered, c);
    forall i | 0 <= i < |ordered| ensures ordered[i].rec.digest != c.rec.digest {
      assert ordered[i].rec.digest in Digests(ordered);
    }
    forall i | 0 <= i < |more| && more[i].grant.widens in Digests(batch)
      ensures exists j | 0 <= j < i :: more[j].rec.digest == more[i].grant.widens
    {
      if i < |ordered| {
        var j :| 0 <= j < i && ordered[j].rec.digest == ordered[i].grant.widens;
        assert more[j].rec.digest == more[i].grant.widens;
      } else {
        var j :| 0 <= j < |ordered| && ordered[j].rec.digest == c.grant.widens;
        assert more[j].rec.digest == more[i].grant.widens;
      }
    }
  }

  // ------------------------------------------------------- counting and rings

  lemma {:induction false} DigestsSize(batch: seq<Candidate>)
    ensures |Digests(batch)| <= |batch|
    ensures UniqueDigests(batch) <==> |Digests(batch)| == |batch|
  {
    if batch == [] {
      assert Digests(batch) == {};
    } else {
      hide IsCycle;
      var init, last := batch[..|batch| - 1], batch[|batch| - 1];
      assert batch == init + [last];
      DigestsSize(init);
      DigestsAppend(init, last);
      if last.rec.digest in Digests(init) {
        var i :| 0 <= i < |init| && init[i].rec.digest == last.rec.digest;
        assert batch[i].rec.digest == batch[|batch| - 1].rec.digest;
      } else {
        assert UniqueDigests(init) ==> UniqueDigests(batch) by {
          forall i | 0 <= i < |init| ensures init[i].rec.digest != last.rec.digest {
            assert init[i].rec.digest in Digests(init);
          }
        }
      }
    }
  }

  lemma PlacedBound(batch: seq<Candidate>, ordered: seq<Candidate>, placed: set<string>)
    requires Placing(batch, ordered, placed)
    ensures placed <= Digests(batch) && |ordered| == |placed| <= |Digests(batch)| <= |batch|
  {
    DigestsSize(batch);
    DigestsSize(ordered);
    forall d | d in placed ensures d in Digests(batch) {
      var i :| 0 <= i < |ordered| && ordered[i].rec.digest == d;
      var k :| 0 <= k < |batch| && batch[k] == ordered[i];
    }
    SubsetSize(placed, Digests(batch));
  }

  lemma SubsetSize<T>(a: set<T>, b: set<T>)
    requires a <= b
    ensures |a| <= |b| && (|a| == |b| ==> a == b)
  {
    assert b == a + (b - a);
  }

  lemma UniqueMultiset(batch: seq<Candidate>, c: Candidate)
    requires UniqueDigests(batch)
    ensures multiset(batch)[c] == if c in batch then 1 else 0
    decreases |batch|
  {
    if batch != [] {
      var init, last := batch[..|batch| - 1], batch[|batch| - 1];
      assert batch == init + [last];
      UniqueMultiset(init, c);
      assert last !in init;
    }
  }

  /** A full order is a permutation of a batch with unique digests. */
  lemma PlacedAll(batch: seq<Candidate>, ordered: seq<Candidate>, placed: set<string>)
    requires Placing(batch, ordered, placed) && |ordered| >= |batch|
    ensures UniqueDigests(batch) && multiset(ordered) == multiset(batch)
  {
    PlacedBound(batch, ordered, placed);
    DigestsSize(batch);
    SubsetSize(placed, Digests(batch));
    forall c ensures multiset(ordered)[c] == multiset(batch)[c] {
      UniqueMultiset(ordered, c);
      UniqueMultiset(batch, c);
      if c in batch {
        var k :| 0 <= k < |batch| && batch[k] == c;
        assert c.rec.digest in Digests(ordered);
        var i :| 0 <= i < |ordered| && ordered[i].rec.digest == c.rec.digest;
        var l :| 0 <= l < |batch| && batch[l] == ordered[i];
        assert k == l;
      }
    }
  }

  /** Where a batch record stands in the order. */
  ghost predicate StandsAt(batch: seq<Candidate>, ordered: seq<Candidate>, i: nat, pos: nat) {
    i < |batch| && pos < |ordered| && ordered[pos].rec.digest == batch[i].rec.digest
  }

  /** In a widened-first order a ring would have to climb forever. */
  lemma {:induction false} RingDescends(batch: seq<Candidate>, ordered: seq<Candidate>, ring: seq<nat>, k: nat, pos: nat)
    requires UniqueDigests(batch) && UniqueDigests(ordered) && WidenedFirst(ordered, Digests(batch))
    requires forall i | 0 <= i < |ordered| :: ordered[i] in batch
    requires IsCycle(batch, ring) && k < |ring| && StandsAt(batch, ordered, ring[k], pos)
    ensures false
    decreases pos
  {
    var l := if k + 1 < |ring| then k + 1 else 0;
    var c := batch[ring[k]];
    assert ordered[pos] in batch;
    var m :| 0 <= m < |batch| && batch[m] == ordered[pos];
    assert m == ring[k];
    assert batch[ring[l]].rec.digest in Digests(batch);
    var j :| 0 <= j < pos && ordered[j].rec.digest == ordered[pos].grant.widens;
    RingDescends(batch, ordered, ring, l, j);
  }

  lemma OrderedAcyclic(batch: seq<Candidate>, ordered: seq<Candidate>)
    requires UniqueDigests(batch) && UniqueDigests(ordered) && WidenedFirst(ordered, Digests(batch))
    requires multiset(ordered) == multiset(batch)
    ensures Acyclic(batch)
  {
    forall i | 0 <= i < |ordered| ensures ordered[i] in batch {
      assert ordered[i] in multiset(ordered);
    }
    if ring :| IsCycle(batch, ring) {
      assert batch[ring[0]] in multiset(batch);
      assert batch[ring[0]] in ordered;
      var pos :| 0 <= pos < |ordered| && ordered[pos] == batch[ring[0]];
      RingDescends(batch, ordered, ring, 0, pos);
    }
  }

  /** An unplaced record's target is unplaced again. */
  ghost predicate Leads(batch: seq<Candidate>, next: seq<nat>, open: set<nat>) {
    && |next| == |batch|
    && (forall i | i in open :: i < |batch| && next[i] < |batch| && next[i] in open && batch[i].grant.widens == batch[next[i]].rec.digest)
  }

  ghost predicate IsPath(next: seq<nat>, path: seq<nat>) {
    && (forall k | 0 <= k < |path| :: path[k] < |next|)
    && (forall k, l | 0 <= k < |path| && l == k + 1 && l < |path| :: path[l] == next[path[k]])
  }

  lemma {:induction false} LongPath(batch: seq<Candidate>, next: seq<nat>, open: set<nat>, start: nat, n: nat) returns (path: seq<nat>)
    requires Leads(batch, next, open) && start in open
    ensures |path| == n + 1 && IsPath(next, path) && path[0] == start && forall k | 0 <= k <= n :: path[k] in open
  {
    if n == 0 {
      path := [start];
    } else {
      hide Digests, UpTo;
      var shorter := LongPath(batch, next, open, start, n - 1);
      path := shorter + [next[shorter[n - 1]]];
    }
  }

  ghost function UpTo(n: nat): (r: set<nat>)
    ensures |r| == n && forall i :: i in r <==> 0 <= i < n
  {
    if n == 0 then {} else UpTo(n - 1) + {n - 1}
  }

  lemma {:induction false} DistinctSize(s: seq<nat>)
    requires forall i, j | 0 <= i < j < |s| :: s[i] != s[j]
    ensures |Elements(s)| == |s|
  {
    if s != [] {
      DistinctSize(s[1..]);
      assert s == [s[0]] + s[1..];
      assert Elements(s) == {s[0]} + Elements(s[1..]);
      assert s[0] !in Elements(s[1..]);
    }
  }

  /** More steps than records: some record comes up twice. */
  lemma Repeats(path: seq<nat>, n: nat) returns (i: nat, j: nat)
    requires |path| > n && forall k | 0 <= k < |path| :: path[k] < n
    ensures i < j < |path| && path[i] == path[j]
  {
    if !exists a, b :: 0 <= a < b < |path| && path[a] == path[b] {
      DistinctSize(path);
      assert Elements(path) <= UpTo(n);
      SubsetSize(Elements(path), UpTo(n));
      assert false;
    }
    i, j :| 0 <= i < j < |path| && path[i] == path[j];
  }

  lemma PathRing(batch: seq<Candidate>, next: seq<nat>, open: set<nat>, path: seq<nat>, i: nat, j: nat)
    requires Leads(batch, next, open) && IsPath(next, path) && i < j < |path| && path[i] == path[j]
    requires forall k | 0 <= k < |path| :: path[k] in open
    ensures IsCycle(batch, path[i..j])
  {
    var ring := path[i..j];
    forall k, l | 0 <= k < |ring| && l == (if k + 1 < |ring| then k + 1 else 0)
      ensures batch[ring[k]].grant.widens == batch[ring[l]].rec.digest
    {
      assert ring[k] == path[i + k] && path[i + k + 1] == next[path[i + k]];
      assert ring[l] == path[i + k + 1];
    }
  }

  /** The places of the records not placed yet. */
  ghost function Open(batch: seq<Candidate>, placed: set<string>): (open: set<nat>)
    ensures forall i: nat :: i in open <==> i < |batch| && batch[i].rec.digest !in placed
  {
    set i | i in UpTo(|batch|) && batch[i].rec.digest !in placed
  }

  lemma NoProgressMeansCycle(batch: seq<Candidate>, ordered: seq<Candidate>, placed: set<string>)
    requires Placing(batch, ordered, placed) && |ordered| < |batch| && Blocked(batch, |batch|, placed)
    ensures !(UniqueDigests(batch) && Acyclic(batch))
  {
    hide Digests, Acyclic;
    if Open(batch, placed) != {} {
      var start :| start in Open(batch, placed);
      BlockedRing(batch, placed, start);
    } else if UniqueDigests(batch) {
      forall i: nat | i < |batch| ensures batch[i].rec.digest in placed {
        assert i !in Open(batch, placed);
      }
      AllPlaced(batch, ordered, placed);
    }
  }

  lemma BlockedRing(batch: seq<Candidate>, placed: set<string>, start: nat)
    requires Blocked(batch, |batch|, placed) && start in Open(batch, placed)
    ensures !Acyclic(batch)
  {
    hide Digests, Blocked, IsCycle, IsPath, UpTo;
    var next := NextOpen(batch, placed, |batch|);
    var open := Open(batch, placed);
    assert Leads(batch, next, open);
    var path := LongPath(batch, next, open, start, |batch|);
    assert forall k | 0 <= k < |path| :: path[k] in open;
    var i, j := Repeats(path, |batch|);
    PathRing(batch, next, open, path, i, j);
  }

  lemma AllPlaced(batch: seq<Candidate>, ordered: seq<Candidate>, placed: set<string>)
    requires Placing(batch, ordered, placed) && UniqueDigests(batch)
    requires forall i: nat | i < |batch| :: batch[i].rec.digest in placed
    ensures |ordered| >= |batch|
  {
    DigestsSize(batch);
    DigestsSize(ordered);
    SubsetSize(Digests(batch), placed);
  }

  /** For each blocked record, the place of the record it widens. */
  lemma {:induction false} NextOpen(batch: seq<Candidate>, placed: set<string>, n: nat) returns (next: seq<nat>)
    requires n <= |batch| && Blocked(batch, n, placed)
    ensures |next| == n
    ensures forall i | 0 <= i < n && batch[i].rec.digest !in placed ::
              next[i] < |batch| && batch[next[i]].rec.digest == batch[i].grant.widens && batch[next[i]].rec.digest !in placed
  {
    if n == 0 {
      next := [];
    } else {
      var init := NextOpen(batch, placed, n - 1);
      var at: nat := 0;
      if batch[n - 1].rec.digest !in placed {
        at :| 0 <= at < |batch| && batch[at].rec.digest == batch[n - 1].grant.widens;
      }
      next := init + [at];
    }
  }
}
