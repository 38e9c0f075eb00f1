/** The record store an import writes to: records by digest and each grantee's
    current record (internal/alfa/grantstore/grantstore.go). Every step that
    touches the disk may fail, and then changes nothing. */
module GrantStores {
  import opened Text
  import opened Grants
  import opened Chain

  const MAX_NAME_LEN := 200

  /** What a record is checked against on every read and write. */
  datatype Trust = Trust(clock: Clock, digestOf: string -> Option<string>)

  predicate NameRune(c: char) {
    'a' <= c <= 'z' || 'A' <= c <= 'Z' || '0' <= c <= '9' || c in "._@+-"
  }

  /** checkDigestName. */
  predicate ValidDigestName(d: string) {
    d != "" && |d| <= MAX_NAME_LEN && d[0] != '.' && forall c | c in d :: NameRune(c)
  }

  /** The length of the file name a grantee maps to, each '/' written as three characters. */
  function EscapedLen(grantee: string): nat {
    if grantee == "" then 0 else (if grantee[0] == '/' then 3 else 1) + EscapedLen(grantee[1..])
  }

  /** granteeFilename succeeds. */
  predicate ValidGrantee(grantee: string) {
    ValidIdentity(grantee) && EscapedLen(grantee) <= MAX_NAME_LEN && grantee[0] != '.'
  }

  /** verified: the digest names the text and the text parses. */
  function Verified(t: Trust, rec: Record): Option<Grant> {
    if t.digestOf(rec.text) == Some(rec.digest) then ParsedText(t.clock, rec.text) else None
  }

  predicate CardSigned(rec: Record) {
    rec.root && rec.sig != []
  }

  /** Get: what is under a digest, unless it fails verification. */
  function Lookup(t: Trust, records: map<string, Record>, digest: string): (r: Option<Record>)
    ensures r.Some? ==> r.value.digest == digest && ValidDigestName(digest) && Verified(t, r.value).Some?
  {
    if ValidDigestName(digest) && digest in records && records[digest].digest == digest && Verified(t, records[digest]).Some?
    then Some(records[digest]) else None
  }

  /** digest is stored and states a grant to grantee. */
  predicate IsGrantTo(t: Trust, records: map<string, Record>, digest: string, grantee: string) {
    var found := Lookup(t, records, digest);
    found.Some? && Verified(t, found.value).value.grantee == grantee
  }

  /** Current: the record bound to a grantee, ignoring a binding that does not check out. */
  function CurrentOf(t: Trust, records: map<string, Record>, index: map<string, string>, grantee: string): (r: Option<Record>)
    ensures r.Some? ==> grantee in index && index[grantee] == r.value.digest && r.value.digest != ""
    ensures r.Some? ==> ValidGrantee(grantee) && IsGrantTo(t, records, index[grantee], grantee)
  {
    if ValidGrantee(grantee) && grantee in index && IsGrantTo(t, records, index[grantee], grantee)
    then Lookup(t, records, index[grantee]) else None
  }

  /** Every binding checks out. */
  ghost predicate NoDangling(t: Trust, records: map<string, Record>, index: map<string, string>) {
    forall g | g in index :: CurrentOf(t, records, index, g).Some?
  }

  /** Put may store rec: new, identical, replacing what does not verify, or upgrading to a card-signed root. */
  predicate Storable(t: Trust, records: map<string, Record>, rec: Record) {
    && ValidDigestName(rec.digest) && Verified(t, rec).Some?
    && var existing := Lookup(t, records, rec.digest);
       existing.Some? ==> existing.value == rec || (CardSigned(rec) && !CardSigned(existing.value))
  }

  class GrantStore {
    const trust: Trust
    /** No step fails on the disk. */
    const reliable: bool
    var records: map<string, Record>
    var index: map<string, string>

    constructor (trust: Trust, reliable: bool, records: map<string, Record>, index: map<string, string>)
      ensures this.trust == trust && this.reliable == reliable && this.records == records && this.index == index
    {
      this.trust, this.reliable, this.records, this.index := trust, reliable, records, index;
    }

    method Put(rec: Record) returns (ok: bool)
      modifies this`records
      ensures ok ==> Storable(trust, old(records), rec) && records == old(records)[rec.digest := rec]
      ensures !ok ==> records == old(records)
      ensures reliable && Storable(trust, old(records), rec) ==> ok
    {
      if !Storable(trust, records, rec) { return false; }
      var diskOk: bool := *;
      diskOk := diskOk || reliable;
      if diskOk { records := records[rec.digest := rec]; }
      return diskOk;
    }

    method Bind(grantee: string, digest: string) returns (ok: bool)
      modifies this`index
      ensures ok ==> ValidGrantee(grantee) && IsGrantTo(trust, records, digest, grantee)
      ensures ok ==> index == old(index)[grantee := digest]
      ensures !ok ==> index == old(index)
      ensures reliable && ValidGrantee(grantee) && IsGrantTo(trust, records, digest, grantee) ==> ok
    {
      if !ValidGrantee(grantee) || !IsGrantTo(trust, records, digest, grantee) { return false; }
      var diskOk: bool := *;
      diskOk := diskOk || reliable;
      if diskOk { index := index[grantee := digest]; }
      return diskOk;
    }

    method Unbind(grantee: string) returns (ok: bool)
      modifies this`index
      ensures ok ==> index == old(index) - {grantee}
      ensures !ok ==> index == old(index)
      ensures reliable && ValidGrantee(grantee) ==> ok
    {
      if !ValidGrantee(grantee) { return false; }
      var diskOk: bool := *;
      diskOk := diskOk || reliable;
      if diskOk { index := index - {grantee}; }
      return diskOk;
    }

    method Get(digest: string) returns (r: Option<Record>)
      ensures r == Lookup(trust, records, digest)
    {
      r := Lookup(trust, records, digest);
    }

    method Current(grantee: string) returns (r: Option<Record>)
      ensures r == CurrentOf(trust, records, index, grantee)
    {
      r := CurrentOf(trust, records, index, grantee);
    }
  }

  // ------------------------------------------------------------------ theorems

  /** Storing never loses a record or the grant it states: what resolved under a
      digest still does, as the same text, and a card signature is never replaced. */
  lemma PutKeeps(t: Trust, records: map<string, Record>, rec: Record, digest: string)
    requires Storable(t, records, rec) && Lookup(t, records, digest).Some? && CollisionFree(t.digestOf)
    ensures var after := Lookup(t, records[rec.digest := rec], digest);
            && after.Some? && after.value.text == Lookup(t, records, digest).value.text
            && (CardSigned(Lookup(t, records, digest).value) ==> after == Lookup(t, records, digest))
  {
    hide ParsedText, ValidDigestName;
  }

  /** So a store used only through Put, Bind and Unbind has no dangling binding. */
  lemma StoreStaysConsistent(t: Trust, records: map<string, Record>, index: map<string, string>,
                             rec: Record, grantee: string, digest: string)
    requires NoDangling(t, records, index) && CollisionFree(t.digestOf)
    ensures Storable(t, records, rec) ==> NoDangling(t, records[rec.digest := rec], index)
    ensures ValidGrantee(grantee) && IsGrantTo(t, records, digest, grantee) ==> NoDangling(t, records, index[grantee := digest])
    ensures NoDangling(t, records, index - {grantee})
  {
    hide ParsedText, ValidDigestName, ValidGrantee;
    if Storable(t, records, rec) {
      forall g | g in index ensures CurrentOf(t, records[rec.digest := rec], index, g).Some? {
        assert CurrentOf(t, records, index, g).Some?;
        PutKeeps(t, records, rec, index[g]);
      }
    }
    forall g | g in index ensures CurrentOf(t, records, index - {grantee}, g).Some? || g == grantee {
      assert CurrentOf(t, records, index, g).Some?;
    }
    forall g | g in index ensures g != grantee ==> CurrentOf(t, records, index[grantee := digest], g).Some? {
      assert CurrentOf(t, records, index, g).Some?;
    }
  }

  // ------------------------------------------------ what the store holds, spelled out

  predicate IsNameCode(code: int) {
    0x61 <= code <= 0x7a || 0x41 <= code <= 0x5a || 0x30 <= code <= 0x39 || code in {0x2e, 0x5f, 0x40, 0x2b, 0x2d}
  }

  /** A digest can be stored under when it is 1 to 200 letters, digits and
      ". _ @ + -", by code point, and does not start with a dot. */
  lemma DigestNameIff(d: string)
    ensures ValidDigestName(d) <==> 1 <= |d| <= 200 && d[0] as int != 0x2e && forall i | 0 <= i < |d| :: IsNameCode(d[i] as int)
  {
    if forall i | 0 <= i < |d| :: IsNameCode(d[i] as int) {
      forall c | c in d ensures NameRune(c) {
        var i :| 0 <= i < |d| && d[i] == c;
      }
    }
    if ValidDigestName(d) {
      forall i | 0 <= i < |d| ensures IsNameCode(d[i] as int) {
        assert d[i] in d;
      }
    }
  }

  /** A grantee's file name spends three characters on a '/' and one on any other. */
  lemma {:induction false} EscapedLenIs(grantee: string)
    ensures EscapedLen(grantee) == |grantee| + 2 * multiset(grantee)['/']
  {
    if grantee != "" {
      EscapedLenIs(grantee[1..]);
      assert grantee == [grantee[0]] + grantee[1..];
    }
  }

  /** A record is found under a digest iff it is the one stored there, names that
      digest, and its digest names its text, which parses. */
  lemma LookupIff(t: Trust, records: map<string, Record>, digest: string, rec: Record)
    ensures Lookup(t, records, digest) == Some(rec) <==>
      && ValidDigestName(digest) && digest in records && records[digest] == rec && rec.digest == digest
      && t.digestOf(rec.text) == Some(digest) && ParsedText(t.clock, rec.text).Some?
  {
    hide ParsedText, ValidDigestName;
  }

  /** A record is a grantee's current one iff the grantee is bound to its digest,
      it is found there and grants to that very grantee. */
  lemma CurrentIff(t: Trust, records: map<string, Record>, index: map<string, string>, grantee: string, rec: Record)
    ensures CurrentOf(t, records, index, grantee) == Some(rec) <==>
      && ValidGrantee(grantee) && grantee in index && Lookup(t, records, index[grantee]) == Some(rec)
      && ParsedText(t.clock, rec.text).value.grantee == grantee
  {
    hide ParsedText, ValidDigestName, ValidGrantee;
  }

  /** What may be stored over what: anything over nothing, the same again, and a
      card-signed root over a record of the same digest that is not one. */
  lemma StorableIff(t: Trust, records: map<string, Record>, rec: Record)
    ensures Storable(t, records, rec) <==>
      && ValidDigestName(rec.digest) && t.digestOf(rec.text) == Some(rec.digest) && ParsedText(t.clock, rec.text).Some?
      && forall held: Record | Lookup(t, records, rec.digest) == Some(held) ::
           held == rec || (rec.root && rec.sig != [] && (!held.root || held.sig == []))
  {
    hide ParsedText, ValidDigestName, Lookup;
  }

  /** What was stored is found, and a grantee bound to it has it as its current record. */
  lemma StoredIsFound(t: Trust, records: map<string, Record>, index: map<string, string>, rec: Record, grantee: string)
    requires Storable(t, records, rec)
    ensures Lookup(t, records[rec.digest := rec], rec.digest) == Some(rec)
    ensures ValidGrantee(grantee) && ParsedText(t.clock, rec.text).value.grantee == grantee
        ==> CurrentOf(t, records[rec.digest := rec], index[grantee := rec.digest], grantee) == Some(rec)
  {
    hide ParsedText, ValidDigestName, ValidGrantee;
  }
}
