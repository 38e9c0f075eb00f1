/** What an import asks of a batch, spelled out
    (cmd/spinclass/profilegrant_import_cmd.go). */
module ImportTheorems {
  import opened Text
  import opened Grants
  import opened Acts
  import opened Chain
  import opened ImportOrder
  import opened GrantStores
  import opened GrantImport

  /** No record of the batch widens c. */
  ghost predicate Unwidened(batch: seq<Candidate>, c: Candidate) {
    forall i | 0 <= i < |batch| :: batch[i].grant.widens != c.rec.digest
  }

  /** A record is found in the batch if one has the digest, else in the store. */
  ghost predicate Finds(t: Trust, records: map<string, Record>, batch: seq<Candidate>, digest: string, rec: Record) {
    if forall i | 0 <= i < |batch| :: batch[i].rec.digest != digest then Lookup(t, records, digest) == Some(rec)
    else exists i | 0 <= i < |batch| :: batch[i].rec.digest == digest && batch[i].rec == rec
  }

  /** The batch record is a live root the card signed, and what it widens is a
      live root of the same grantee that it drops no profile of. */
  ghost predicate Stands(t: Trust, verifyRoot: (string, Bytes) -> bool, now: int, records: map<string, Record>,
                         batch: seq<Candidate>, c: Candidate) {
    && t.digestOf(c.rec.text) == Some(c.rec.digest) && now < c.grant.expires && c.grant.prev == "-"
    && ActText(t.clock, c.grant, c.rec.digest).Some?
    && verifyRoot(ActText(t.clock, c.grant, c.rec.digest).value, c.rec.sig)
    && (c.grant.widens == "-" || exists e :: Finds(t, records, batch, c.grant.widens, e) && KeptBy(t, now, e, c.grant))
  }

  ghost predicate KeptBy(t: Trust, now: int, e: Record, g: Grant) {
    && e.root && e.digest == g.widens && t.digestOf(e.text) == Some(e.digest) && ParsedText(t.clock, e.text).Some?
    && var earlier := ParsedText(t.clock, e.text).value;
       && now < earlier.expires && earlier.grantee == g.grantee
       && forall name | name in earlier.profiles :: name in g.profiles
  }

  /** Every grantee the batch names a new record for has none now, or has that
      one, or has the one it widens. */
  ghost predicate NoneReplaced(t: Trust, records: map<string, Record>, index: map<string, string>, batch: seq<Candidate>) {
    forall i, cur: Record | 0 <= i < |batch| && Unwidened(batch, batch[i])
        && CurrentOf(t, records, index, batch[i].grant.grantee) == Some(cur) ::
      cur.digest == batch[i].rec.digest || cur.digest == batch[i].grant.widens
  }

  lemma TopIff(batch: seq<Candidate>, c: Candidate)
    ensures IsTop(batch, c) <==> c in batch && Unwidened(batch, c)
  {
    if c in batch && Unwidened(batch, c) {
      forall x | x in batch ensures x.grant.widens != c.rec.digest {
        var i :| 0 <= i < |batch| && batch[i] == x;
      }
    }
  }

  /** Where the other checks pass, an import without replace is admitted iff for
      every record the batch would bind and every record current for its grantee,
      the current one is that record or the one it widens. */
  lemma WithoutReplaceIff(t: Trust, verifyRoot: (string, Bytes) -> bool, now: int,
                          records: map<string, Record>, index: map<string, string>, batch: seq<Candidate>)
    ensures Admissible(t, verifyRoot, now, false, records, index, batch)
       <==> Admissible(t, verifyRoot, now, true, records, index, batch) && NoneReplaced(t, records, index, batch)
  {
    forall c ensures IsTop(batch, c) <==> c in batch && Unwidened(batch, c) { TopIff(batch, c); }
    hide CurrentOf, Acyclic, AllWalk, OneTopPerGrantee, IsTop, Unwidened;
    if AllSupersede(t, records, index, batch) {
      forall i, cur: Record | 0 <= i < |batch| && Unwidened(batch, batch[i])
          && CurrentOf(t, records, index, batch[i].grant.grantee) == Some(cur)
        ensures cur.digest == batch[i].rec.digest || cur.digest == batch[i].grant.widens
      {
        assert Supersedes(t, records, index, batch[i]);
      }
    }
    if NoneReplaced(t, records, index, batch) {
      forall c | c in batch && IsTop(batch, c) ensures Supersedes(t, records, index, c) {
        var i :| 0 <= i < |batch| && batch[i] == c;
      }
    }
  }

  /** A record that widens its grantee's current one needs no replace. */
  lemma WideningNeedsNoReplace(t: Trust, verifyRoot: (string, Bytes) -> bool, now: int,
                               records: map<string, Record>, index: map<string, string>, batch: seq<Candidate>)
    requires Admissible(t, verifyRoot, now, true, records, index, batch)
    requires forall i | 0 <= i < |batch| && CurrentOf(t, records, index, batch[i].grant.grantee).Some? ::
               CurrentOf(t, records, index, batch[i].grant.grantee).value.digest == batch[i].grant.widens
    ensures Admissible(t, verifyRoot, now, false, records, index, batch)
  {
    hide CurrentOf, Admissible, Unwidened;
    WithoutReplaceIff(t, verifyRoot, now, records, index, batch);
  }

  /** What is bound stands in the order of the batch: exactly the records that
      nothing in it widens. */
  lemma {:induction false} TopsKeepOrder(batch: seq<Candidate>, cs: seq<Candidate>) returns (at: seq<nat>)
    requires forall c | c in cs :: c in batch
    ensures Selects(cs, at, TopsOf(batch, cs))
    ensures forall k: nat | k < |cs| :: k in at <==> Unwidened(batch, cs[k])
  {
    hide Unwidened, Selects, IsTop;
    at := [];
    if cs != [] {
      var n := |cs| - 1;
      var rest := cs[..n];
      assert rest + [cs[n]] == cs && TopsOf(batch, rest) + [] == TopsOf(batch, rest);
      assert forall k | 0 <= k < n :: rest[k] == cs[k];
      at := TopsKeepOrder(batch, rest);
      TopIff(batch, cs[n]);
      SelectsMore(rest, at, TopsOf(batch, rest), cs[n], IsTop(batch, cs[n]));
      if IsTop(batch, cs[n]) { at := at + [n]; }
    } else {
      NothingSelected<Candidate>();
    }
  }

  lemma FindsIff(t: Trust, verifyRoot: (string, Bytes) -> bool, records: map<string, Record>, batch: seq<Candidate>,
                 digest: string, rec: Record)
    requires UniqueDigests(batch)
    ensures ImportWorld(t, verifyRoot, InBatch(batch), records).resolve(digest) == Some(rec)
       <==> Finds(t, records, batch, digest, rec)
  {
    hide Lookup, InBatch;
    if digest in Digests(batch) {
      var i :| 0 <= i < |batch| && batch[i].rec.digest == digest;
      InBatchAt(batch, batch[i]);
      assert forall j | 0 <= j < |batch| :: batch[j].rec.digest == digest ==> j == i;
    }
  }

  /** A root of the batch walks iff it stands on its own. */
  lemma WalksIff(t: Trust, verifyRoot: (string, Bytes) -> bool, now: int, records: map<string, Record>,
                 batch: seq<Candidate>, c: Candidate)
    requires UniqueDigests(batch) && c.rec.root && ParsedText(t.clock, c.rec.text) == Some(c.grant)
    ensures Walked(ImportWorld(t, verifyRoot, InBatch(batch), records), now, c.rec).Some?
       <==> Stands(t, verifyRoot, now, records, batch, c)
  {
    var w := ImportWorld(t, verifyRoot, InBatch(batch), records);
    forall e ensures w.resolve(c.grant.widens) == Some(e) <==> Finds(t, records, batch, c.grant.widens, e) {
      FindsIff(t, verifyRoot, records, batch, c.grant.widens, e);
    }
    WidensIff(t, w, now, records, batch, c);
    RootWalks(w, now, c.rec, c.grant);
    hide ParsedText, ActText, Finds, WidensOk, KeptBy, Walked, ImportWorld;
    assert w.clock == t.clock && w.digestOf == t.digestOf && w.verifyRoot == verifyRoot by { TrustKept(t, verifyRoot, records, batch); }
  }

  lemma TrustKept(t: Trust, verifyRoot: (string, Bytes) -> bool, records: map<string, Record>, batch: seq<Candidate>)
    ensures var w := ImportWorld(t, verifyRoot, InBatch(batch), records);
      w.clock == t.clock && w.digestOf == t.digestOf && w.verifyRoot == verifyRoot
  {
  }

  /** A root's walk ends with the root. */
  lemma RootWalks(w: World, now: int, rec: Record, g: Grant)
    requires rec.root && ParsedText(w.clock, rec.text) == Some(g)
    ensures Walked(w, now, rec).Some? <==>
      && w.digestOf(rec.text) == Some(rec.digest) && now < g.expires && g.prev == "-"
      && ActText(w.clock, g, rec.digest).Some? && w.verifyRoot(ActText(w.clock, g, rec.digest).value, rec.sig)
      && WidensOk(w, now, rec, g)
  {
    hide ParsedText, ActText, WidensOk;
  }

  lemma WidensIff(t: Trust, w: World, now: int, records: map<string, Record>, batch: seq<Candidate>, c: Candidate)
    requires w.clock == t.clock && w.digestOf == t.digestOf && c.rec.root
    requires forall e :: w.resolve(c.grant.widens) == Some(e) <==> Finds(t, records, batch, c.grant.widens, e)
    ensures WidensOk(w, now, c.rec, c.grant)
       <==> c.grant.widens == "-" || exists e :: Finds(t, records, batch, c.grant.widens, e) && KeptBy(t, now, e, c.grant)
  {
    hide ParsedText, Finds;
  }

  /** An import is admitted iff the batch has no ring of widenings, every record
      stands, no grantee would get two records, and nobody's current record would
      be replaced but by a record that widens it, unless replace is set. */
  lemma AdmittedIff(t: Trust, verifyRoot: (string, Bytes) -> bool, now: int, replace: bool, records: map<string, Record>,
                    index: map<string, string>, recs: seq<Record>, batch: seq<Candidate>)
    requires IsBatchOf(t.clock, recs, batch)
    ensures Admissible(t, verifyRoot, now, replace, records, index, batch) <==>
      && Acyclic(batch)
      && (forall i | 0 <= i < |batch| :: Stands(t, verifyRoot, now, records, batch, batch[i]))
      && (forall i, j | 0 <= i < j < |batch| && batch[i].grant.grantee == batch[j].grant.grantee ::
            !Unwidened(batch, batch[i]) || !Unwidened(batch, batch[j]))
      && (replace || NoneReplaced(t, records, index, batch))
  {
    WithoutReplaceIff(t, verifyRoot, now, records, index, batch);
    OneTopIff(batch);
    AllWalkIff(t, verifyRoot, now, records, batch);
    hide Acyclic, AllWalk, OneTopPerGrantee, NoneReplaced, Stands, Unwidened, AllSupersede, InBatch, ParsedText;
  }

  lemma AllWalkIff(t: Trust, verifyRoot: (string, Bytes) -> bool, now: int, records: map<string, Record>, batch: seq<Candidate>)
    requires UniqueDigests(batch)
    requires forall i | 0 <= i < |batch| :: batch[i].rec.root && ParsedText(t.clock, batch[i].rec.text) == Some(batch[i].grant)
    ensures AllWalk(ImportWorld(t, verifyRoot, InBatch(batch), records), now, batch)
       <==> forall i | 0 <= i < |batch| :: Stands(t, verifyRoot, now, records, batch, batch[i])
  {
    hide ParsedText, Walked, Stands, InBatch;
    forall i | 0 <= i < |batch|
      ensures Walked(ImportWorld(t, verifyRoot, InBatch(batch), records), now, batch[i].rec).Some?
         <==> Stands(t, verifyRoot, now, records, batch, batch[i])
    {
      WalksIff(t, verifyRoot, now, records, batch, batch[i]);
    }
  }

  lemma OneTopIff(batch: seq<Candidate>)
    requires UniqueDigests(batch)
    ensures OneTopPerGrantee(batch) <==>
      forall i, j | 0 <= i < j < |batch| && batch[i].grant.grantee == batch[j].grant.grantee ::
        !Unwidened(batch, batch[i]) || !Unwidened(batch, batch[j])
  {
    forall c ensures IsTop(batch, c) <==> c in batch && Unwidened(batch, c) { TopIff(batch, c); }
    hide IsTop, Unwidened;
    if OneTopPerGrantee(batch) {
      forall i, j | 0 <= i < j < |batch| && batch[i].grant.grantee == batch[j].grant.grantee
        ensures !Unwidened(batch, batch[i]) || !Unwidened(batch, batch[j])
      {
        assert batch[i] in batch && batch[j] in batch && batch[i] != batch[j];
      }
    }
  }

  /** The batch keeps the order of the input: it is the input's records at rising
      places, exactly those no earlier record shares its digest with. */
  lemma {:induction false} BatchKeepsOrder(clock: Clock, recs: seq<Record>) returns (at: seq<nat>)
    requires AllImportable(clock, recs)
    ensures var batch := BatchOf(clock, recs);
      && Places(recs, batch, at) && FirstOnes(recs, at)
      && forall i | 0 <= i < |batch| :: ParsedText(clock, batch[i].rec.text) == Some(batch[i].grant)
  {
    hide ParsedText, Places, FirstOnes, RecordDigests;
    at := [];
    BatchNone(clock);
    if recs != [] {
      var n := |recs| - 1;
      at := BatchKeepsOrder(clock, recs[..n]);
      BatchOfIs(clock, recs[..n]);
      DigestSeen(recs, n);
      KeepsOrderStep(recs, BatchOf(clock, recs[..n]), at);
      assert Importable(clock, recs[n]);
      BatchOfIs(clock, recs);
      if recs[n].digest !in RecordDigests(recs[..n]) { at := at + [n]; }
    }
  }

  lemma BatchNone(clock: Clock)
    ensures BatchOf(clock, []) == [] && Places([], [], []) && FirstOnes([], [])
  {
  }

  /** No earlier record has the digest of the k'th. */
  ghost predicate IsFirst(recs: seq<Record>, k: nat) {
    k < |recs| && forall l | 0 <= l < k :: recs[l].digest != recs[k].digest
  }

  ghost predicate FirstOnes(recs: seq<Record>, at: seq<nat>) {
    forall k: nat | k < |recs| :: k in at <==> IsFirst(recs, k)
  }

  ghost predicate Places(recs: seq<Record>, batch: seq<Candidate>, at: seq<nat>) {
    |at| == |batch| && Rises(at, |recs|) && forall i | 0 <= i < |at| :: recs[at[i]] == batch[i].rec
  }

  lemma KeepsOrderStep(recs: seq<Record>, batch: seq<Candidate>, at: seq<nat>)
    requires recs != []
    requires var before := recs[..|recs| - 1]; Places(before, batch, at) && FirstOnes(before, at)
    ensures var n := |recs| - 1;
      if recs[n].digest in RecordDigests(recs[..n]) then Places(recs, batch, at) && FirstOnes(recs, at)
      else FirstOnes(recs, at + [n]) && forall c: Candidate | c.rec == recs[n] :: Places(recs, batch + [c], at + [n])
  {
    var n := |recs| - 1;
    DigestSeen(recs, n);
    assert IsFirst(recs, n) <==> recs[n].digest !in RecordDigests(recs[..n]);
    forall k: nat | k < n ensures IsFirst(recs[..n], k) <==> IsFirst(recs, k) {
      assert forall l | 0 <= l <= k :: recs[..n][l] == recs[l];
    }
    PlacesKept(recs, batch, at);
    hide RecordDigests, IsFirst, Places;
  }

  lemma PlacesKept(recs: seq<Record>, batch: seq<Candidate>, at: seq<nat>)
    requires recs != [] && Places(recs[..|recs| - 1], batch, at)
    ensures Places(recs, batch, at) && |recs| - 1 !in at
    ensures forall c: Candidate | c.rec == recs[|recs| - 1] :: Places(recs, batch + [c], at + [|recs| - 1])
  {
    assert forall i | 0 <= i < |at| :: recs[..|recs| - 1][at[i]] == recs[at[i]];
  }

  lemma DigestSeen(recs: seq<Record>, n: nat)
    requires n < |recs|
    ensures recs[n].digest in RecordDigests(recs[..n]) <==> exists l | 0 <= l < n :: recs[l].digest == recs[n].digest
  {
    if l :| 0 <= l < n && recs[l].digest == recs[n].digest { assert recs[..n][l] == recs[l]; }
  }
}
