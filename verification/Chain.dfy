/** The narrowing relation between grants and the walk from a presented grant up
    to a card-signed root (internal/0/profilegrant/grant.go). */
module Chain {
  import opened Text
  import opened Grants
  import opened Acts

  const MAX_BASE_DEPTH := 8
  const MAX_CHAIN_DEPTH := 32

  type Bytes = seq<bv8>

  /** A stored grant: its content address, canonical text and signature. */
  datatype Record = Record(digest: string, text: string, sig: Bytes, root: bool)

  /** One step up a profile's base chain, and how the step below it widens it. */
  datatype BaseLink = BaseLink(name: string, digest: string, widenings: seq<string>)

  /** What the walk is given: the calendar, the digest, the record store, the two
      signature checks, and the optional session mapping and base chains. */
  datatype World = World(
    clock: Clock,
    digestOf: string -> Option<string>,
    resolve: string -> Option<Record>,
    verifyRoot: (string, Bytes) -> bool,
    verifyLink: (Grant, Bytes) -> bool,
    sessionOf: Option<string -> Option<string>>,
    baseChain: Option<(string, string) -> Option<seq<BaseLink>>>)

  // ---------------------------------------------------------------- narrowing

  /** bindsGrantor. */
  predicate BindsGrantor(w: World, parent: Grant, child: Grant) {
    child.grantor == parent.grantee || (w.sessionOf.Some? && w.sessionOf.value(child.grantor) == Some(parent.grantee))
  }

  /** The climb of reachesHeldBase along a base chain. */
  predicate ClimbsToHeld(chain: seq<BaseLink>, held: map<string, string>) {
    if chain == [] || chain[0].widenings != [] then false
    else if chain[0].name in held then held[chain[0].name] == chain[0].digest
    else ClimbsToHeld(chain[1..], held)
  }

  /** reachesHeldBase. */
  predicate ReachesHeldBase(w: World, parent: Grant, name: string, digest: string) {
    && w.baseChain.Some?
    && var chain := w.baseChain.value(name, digest);
       chain.Some? && |chain.value| <= MAX_BASE_DEPTH && ClimbsToHeld(chain.value, parent.profiles)
  }

  predicate EntryNarrows(w: World, parent: Grant, name: string, digest: string) {
    if name in parent.profiles then digest == parent.profiles[name] else ReachesHeldBase(w, parent, name, digest)
  }

  /** Narrows. */
  predicate Narrows(w: World, parent: Grant, parentDigest: string, child: Grant) {
    && child.prev == parentDigest && BindsGrantor(w, parent, child)
    && parent.onward == ONWARD_GRANT && child.expires <= parent.expires
    && forall name | name in child.profiles :: EntryNarrows(w, parent, name, child.profiles[name])
  }

  method CheckNarrows(w: World, parent: Grant, parentDigest: string, child: Grant) returns (ok: bool)
    ensures ok == Narrows(w, parent, parentDigest, child)
  {
    hide Sorted, Ascending, BindsGrantor, EntryNarrows;
    if child.prev != parentDigest || !BindsGrantor(w, parent, child) { return false; }
    if parent.onward != ONWARD_GRANT || child.expires > parent.expires { return false; }
    var names := SortNames(child.profiles.Keys);
    assert forall n :: n in names <==> n in Elements(names);
    for i := 0 to |names|
      invariant forall k | 0 <= k < i :: EntryNarrows(w, parent, names[k], child.profiles[names[k]])
    {
      assert names[i] in child.profiles;
      if !EntryNarrows(w, parent, names[i], child.profiles[names[i]]) { return false; }
    }
    return true;
  }

  ghost predicate HeldAt(chain: seq<BaseLink>, held: map<string, string>, k: nat) {
    && k < |chain| && chain[k].name in held && held[chain[k].name] == chain[k].digest
    && (forall i | 0 <= i <= k :: chain[i].widenings == [])
    && (forall i | 0 <= i < k :: chain[i].name !in held)
  }

  lemma {:induction false} ClimbHolds(chain: seq<BaseLink>, held: map<string, string>, k: nat)
    requires HeldAt(chain, held, k)
    ensures ClimbsToHeld(chain, held)
  {
    if k > 0 {
      ClimbHolds(chain[1..], held, k - 1);
    }
  }

  /** A base chain climbs to what the parent holds iff some link does, at the
      digest held, with no widening up to it and nothing held before it. */
  lemma {:induction false} ClimbExact(chain: seq<BaseLink>, held: map<string, string>)
    ensures ClimbsToHeld(chain, held) <==> exists k: nat :: HeldAt(chain, held, k)
  {
    if ClimbsToHeld(chain, held) {
      if chain[0].name in held {
        assert HeldAt(chain, held, 0);
      } else {
        ClimbExact(chain[1..], held);
        var k: nat :| HeldAt(chain[1..], held, k);
        assert forall i | 0 < i < |chain| :: chain[i] == chain[1..][i - 1];
        assert HeldAt(chain, held, k + 1);
      }
    }
    if k: nat :| HeldAt(chain, held, k) {
      ClimbHolds(chain, held, k);
    }
  }

  // ------------------------------------------------------------ record checks

  /** What verifyRecord returns. */
  function VerifiedGrant(w: World, now: int, rec: Record): (r: Option<Grant>)
    ensures r.Some? ==> w.digestOf(rec.text) == Some(rec.digest) && ParsedText(w.clock, rec.text) == r
  {
    if w.digestOf(rec.text) != Some(rec.digest) then None
    else match ParsedText(w.clock, rec.text)
      case None => None
      case Some(g) =>
        if now >= g.expires || rec.root != (g.prev == NO_VALUE) then None
        else if SignatureOk(w, rec, g) then Some(g) else None
  }

  predicate SignatureOk(w: World, rec: Record, g: Grant) {
    if rec.root then ActText(w.clock, g, rec.digest).Some? && w.verifyRoot(ActText(w.clock, g, rec.digest).value, rec.sig)
    else w.verifyLink(g, rec.sig)
  }

  method VerifyRecord(w: World, now: int, rec: Record) returns (r: Option<Grant>)
    ensures r == VerifiedGrant(w, now, rec)
    ensures r.Some? <==>
      && w.digestOf(rec.text) == Some(rec.digest) && ParsedText(w.clock, rec.text).Some?
      && var g := ParsedText(w.clock, rec.text).value;
         && now < g.expires && (rec.root <==> g.prev == "-")
         && if rec.root then ActText(w.clock, g, rec.digest).Some? && w.verifyRoot(ActText(w.clock, g, rec.digest).value, rec.sig)
            else w.verifyLink(g, rec.sig)
    ensures r.Some? ==> r == ParsedText(w.clock, rec.text)
  {
    hide ActText, ParsedText;
    if w.digestOf(rec.text) != Some(rec.digest) { return None; }
    var g := ParseCanonicalText(w.clock, rec.text);
    if g.None? || now >= g.value.expires { return None; }
    if rec.root && g.value.prev != NO_VALUE { return None; }
    if !rec.root && g.value.prev == NO_VALUE { return None; }
    if rec.root {
      var act := RenderActText(w.clock, g.value, rec.digest);
      if act.None? || !w.verifyRoot(act.value, rec.sig) { return None; }
    } else if !w.verifyLink(g.value, rec.sig) {
      return None;
    }
    return g;
  }

  /** checkWidens. */
  predicate WidensOk(w: World, now: int, rec: Record, g: Grant) {
    g.widens == NO_VALUE || (rec.root && w.resolve(g.widens).Some? && WidenedBy(w, now, w.resolve(g.widens).value, g))
  }

  /** The widened record is a live root for the same grantee whose profile names are all kept. */
  predicate WidenedBy(w: World, now: int, widened: Record, g: Grant) {
    && widened.digest == g.widens && w.digestOf(widened.text) == Some(widened.digest) && widened.root
    && var earlier := ParsedText(w.clock, widened.text);
       && earlier.Some? && now < earlier.value.expires
       && earlier.value.profiles.Keys <= g.profiles.Keys && earlier.value.grantee == g.grantee
  }

  method CheckWidens(w: World, now: int, rec: Record, g: Grant) returns (ok: bool)
    ensures ok == WidensOk(w, now, rec, g)
  {
    hide ParsedText, Sorted, Ascending;
    if g.widens == NO_VALUE { return true; }
    if !rec.root { return false; }
    var found := w.resolve(g.widens);
    if found.None? { return false; }
    var widened := found.value;
    if widened.digest != g.widens || w.digestOf(widened.text) != Some(widened.digest) || !widened.root { return false; }
    var earlier := ParseCanonicalText(w.clock, widened.text);
    if earlier.None? || now >= earlier.value.expires { return false; }
    var names := SortNames(earlier.value.profiles.Keys);
    assert forall n :: n in names <==> n in Elements(names);
    for i := 0 to |names|
      invariant forall k | 0 <= k < i :: names[k] in g.profiles
    {
      if names[i] !in g.profiles { return false; }
    }
    assert earlier.value.profiles.Keys <= g.profiles.Keys;
    return earlier.value.grantee == g.grantee;
  }

  // --------------------------------------------------------------------- walk

  /** Whether the walk accepts from rec on, below which child was accepted. */
  predicate WalkFrom(w: World, now: int, rec: Record, child: Option<Grant>, visited: set<string>, depth: nat)
    decreases MAX_CHAIN_DEPTH + 1 - depth
  {
    if depth > MAX_CHAIN_DEPTH || rec.digest in visited then false
    else match VerifiedGrant(w, now, rec)
      case None => false
      case Some(g) =>
        if !WidensOk(w, now, rec, g) || (child.Some? && !Narrows(w, g, rec.digest, child.value)) then false
        else rec.root || match w.resolve(g.prev)
          case None => false
          case Some(parent) =>
            parent.digest == g.prev && WalkFrom(w, now, parent, Some(g), visited + {rec.digest}, depth + 1)
  }

  function Walked(w: World, now: int, start: Record): Option<Grant> {
    if WalkFrom(w, now, start, None, {}, 1) then VerifiedGrant(w, now, start) else None
  }

  method Walk(w: World, now: int, start: Record) returns (r: Option<Grant>)
    ensures r == Walked(w, now, start)
  {
    hide VerifiedGrant, WidensOk, Narrows, ParsedText;
    var effective: Option<Grant> := None;
    var child: Option<Grant> := None;
    var visited: set<string> := {};
    var rec := start;
    var depth := 1;
    while true
      invariant 1 <= depth <= MAX_CHAIN_DEPTH + 1
      invariant depth == 1 ==> rec == start && child.None?
      invariant depth > 1 ==> child.Some? && effective == VerifiedGrant(w, now, start) && effective.Some?
      invariant WalkFrom(w, now, start, None, {}, 1) == WalkFrom(w, now, rec, child, visited, depth)
      decreases MAX_CHAIN_DEPTH + 1 - depth
    {
      if depth > MAX_CHAIN_DEPTH || rec.digest in visited { return None; }
      var g := VerifyRecord(w, now, rec);
      if g.None? { return None; }
      var widensOk := CheckWidens(w, now, rec, g.value);
      if !widensOk { return None; }
      if depth == 1 {
        effective := g;
      } else {
        var narrows := CheckNarrows(w, g.value, rec.digest, child.value);
        if !narrows { return None; }
      }
      if rec.root { return effective; }
      var parent := w.resolve(g.value.prev);
      if parent.None? || parent.value.digest != g.value.prev { return None; }
      visited := visited + {rec.digest};
      child, rec, depth := g, parent.value, depth + 1;
    }
    assert false;
  }
}
