/** What an accepted walk means: a declarative chain, attenuation along it, and
    independence from what the store returns. */
module ChainTheorems {
  import opened Text
  import opened Grants
  import opened Acts
  import opened Chain

  /** The grant a record's text states. */
  ghost predicate Parses(w: World, rec: Record) {
    ParsedText(w.clock, rec.text).Some?
  }

  ghost function GrantOf(w: World, rec: Record): Grant
    requires Parses(w, rec)
  {
    ParsedText(w.clock, rec.text).value
  }

  /** The profile entries a record's text states, none when it does not parse. */
  ghost function ProfilesOf(w: World, rec: Record): map<string, string> {
    if Parses(w, rec) then GrantOf(w, rec).profiles else map[]
  }

  /** The card signed the act text of the grant a record states. */
  ghost predicate CardSigned(w: World, rec: Record) {
    && Parses(w, rec) && ActText(w.clock, GrantOf(w, rec), rec.digest).Some?
    && w.verifyRoot(ActText(w.clock, GrantOf(w, rec), rec.digest).value, rec.sig)
  }

  /** What g widens is a live root of the same grantee, none of whose profiles g drops. */
  ghost predicate WidensLiveRoot(w: World, now: int, g: Grant) {
    && w.resolve(g.widens).Some?
    && var e := w.resolve(g.widens).value;
       && e.digest == g.widens && w.digestOf(e.text) == Some(g.widens) && e.root && Parses(w, e)
       && now < GrantOf(w, e).expires && GrantOf(w, e).grantee == g.grantee
       && forall name | name in GrantOf(w, e).profiles :: name in g.profiles
  }

  /** A record that passes every check of its own: its digest names its text, the
      text states a live grant, a root and only a root has no parent, the card
      signed a root and the link verifier accepts a link, and only a root widens. */
  ghost predicate Sound(w: World, now: int, rec: Record) {
    && w.digestOf(rec.text) == Some(rec.digest) && Parses(w, rec)
    && var g := GrantOf(w, rec);
       && now < g.expires && (rec.root <==> g.prev == "-")
       && (if rec.root then CardSigned(w, rec) else w.verifyLink(g, rec.sig))
       && (g.widens == "-" || (rec.root && WidensLiveRoot(w, now, g)))
  }

  /** A profile entry rests on what the parent holds: the same entry, or, for a
      name the parent does not hold, a base chain of at most eight links. */
  ghost predicate RestsOn(w: World, held: map<string, string>, name: string, digest: string) {
    if name in held then held[name] == digest
    else
      && w.baseChain.Some? && w.baseChain.value(name, digest).Some? && |w.baseChain.value(name, digest).value| <= 8
      && exists k: nat :: HeldAt(w.baseChain.value(name, digest).value, held, k)
  }

  /** The grant g narrows h: h's grantee made it, directly or as its session, from
      rights it may pass on, for no longer, and every profile rests on h's. */
  ghost predicate NarrowsFrom(w: World, h: Grant, g: Grant) {
    && (g.grantor == h.grantee || (w.sessionOf.Some? && w.sessionOf.value(g.grantor) == Some(h.grantee)))
    && h.onward == "grant" && g.expires <= h.expires
    && forall name | name in g.profiles :: RestsOn(w, h.profiles, name, g.profiles[name])
  }

  /** parent is what child's prev resolves to, and child narrows it. */
  ghost predicate Edge(w: World, child: Record, parent: Record) {
    && Parses(w, child) && Parses(w, parent)
    && var g, h := GrantOf(w, child), GrantOf(w, parent);
       w.resolve(g.prev) == Some(parent) && parent.digest == g.prev && NarrowsFrom(w, h, g)
  }

  /** Those are the checks the walk makes on one record ... */
  lemma SoundIff(w: World, now: int, rec: Record)
    ensures Sound(w, now, rec) <==> VerifiedGrant(w, now, rec).Some? && WidensOk(w, now, rec, VerifiedGrant(w, now, rec).value)
    ensures Sound(w, now, rec) ==> VerifiedGrant(w, now, rec) == Some(GrantOf(w, rec))
  {
    hide ParsedText, ActText;
  }

  /** ... and on one edge. */
  lemma NarrowsIff(w: World, h: Grant, digest: string, g: Grant)
    ensures Narrows(w, h, digest, g) <==> g.prev == digest && NarrowsFrom(w, h, g)
  {
    forall name | name in g.profiles
      ensures EntryNarrows(w, h, name, g.profiles[name]) <==> RestsOn(w, h.profiles, name, g.profiles[name])
    {
      RestsIff(w, h, name, g.profiles[name]);
    }
    hide EntryNarrows, RestsOn;
  }

  lemma RestsIff(w: World, h: Grant, name: string, digest: string)
    ensures EntryNarrows(w, h, name, digest) <==> RestsOn(w, h.profiles, name, digest)
  {
    if w.baseChain.Some? && w.baseChain.value(name, digest).Some? {
      ClimbExact(w.baseChain.value(name, digest).value, h.profiles);
    }
    hide ClimbsToHeld, HeldAt;
  }

  /** A chain of sound records with distinct digests, each edge narrowing, up to its one root. */
  ghost predicate IsChain(w: World, now: int, chain: seq<Record>) {
    && |chain| >= 1 && (forall i | 0 <= i < |chain| :: chain[i].root <==> i == |chain| - 1)
    && (forall i | 0 <= i < |chain| :: Sound(w, now, chain[i]))
    && (forall i, j | 0 <= i < j < |chain| :: chain[i].digest != chain[j].digest)
    && (forall i, j | 0 <= i < |chain| && j == i + 1 && j < |chain| :: Edge(w, chain[i], chain[j]))
  }

  ghost predicate AvoidsAll(chain: seq<Record>, visited: set<string>) {
    forall i | 0 <= i < |chain| :: chain[i].digest !in visited
  }

  lemma {:induction false} WalkSound(w: World, now: int, rec: Record, child: Option<Grant>, visited: set<string>, depth: nat)
      returns (chain: seq<Record>)
    requires WalkFrom(w, now, rec, child, visited, depth)
    ensures IsChain(w, now, chain) && chain[0] == rec && |chain| + depth <= MAX_CHAIN_DEPTH + 1
    ensures AvoidsAll(chain, visited)
    ensures child.Some? ==> Narrows(w, GrantOf(w, rec), rec.digest, child.value)
    decreases MAX_CHAIN_DEPTH + 1 - depth
  {
    hide ParsedText, ActText, Narrows, NarrowsFrom, VerifiedGrant, WidensOk, Sound;
    SoundIff(w, now, rec);
    if child.Some? { NarrowsIff(w, GrantOf(w, rec), rec.digest, child.value); }
    if rec.root {
      chain := [rec];
    } else {
      var g := VerifiedGrant(w, now, rec).value;
      var parent := w.resolve(g.prev).value;
      var rest := WalkSound(w, now, parent, Some(g), visited + {rec.digest}, depth + 1);
      chain := [rec] + rest;
      EdgeFromWalk(w, now, rec, rest[0]);
      ChainCons(w, now, rec, rest);
      assert AvoidsAll(chain, visited);
    }
  }

  lemma EdgeFromWalk(w: World, now: int, rec: Record, parent: Record)
    requires Parses(w, rec) && Parses(w, parent)
    requires w.resolve(GrantOf(w, rec).prev) == Some(parent) && parent.digest == GrantOf(w, rec).prev
    requires Narrows(w, GrantOf(w, parent), parent.digest, GrantOf(w, rec))
    ensures Edge(w, rec, parent)
  {
    NarrowsIff(w, GrantOf(w, parent), parent.digest, GrantOf(w, rec));
    hide ParsedText, Narrows, NarrowsFrom;
  }

  lemma ChainCons(w: World, now: int, rec: Record, rest: seq<Record>)
    requires IsChain(w, now, rest) && Sound(w, now, rec) && !rec.root && Edge(w, rec, rest[0]) && AvoidsAll(rest, {rec.digest})
    ensures IsChain(w, now, [rec] + rest)
  {
    hide ParsedText, ActText, Sound, Edge, Narrows;
    var chain := [rec] + rest;
    assert forall i | 0 < i < |chain| :: chain[i] == rest[i - 1];
    forall i, j | 0 <= i < |chain| && j == i + 1 && j < |chain| ensures Edge(w, chain[i], chain[j]) {
      if i > 0 { assert chain[i] == rest[i - 1] && chain[j] == rest[i]; }
    }
  }

  lemma ChainTail(w: World, now: int, chain: seq<Record>)
    requires IsChain(w, now, chain) && |chain| > 1
    ensures IsChain(w, now, chain[1..]) && Edge(w, chain[0], chain[1])
  {
    var rest := chain[1..];
    assert forall i | 0 <= i < |rest| :: rest[i] == chain[i + 1];
  }

  lemma {:induction false} WalkComplete(w: World, now: int, chain: seq<Record>, child: Option<Grant>, visited: set<string>, depth: nat)
    requires IsChain(w, now, chain) && |chain| + depth <= MAX_CHAIN_DEPTH + 1 && AvoidsAll(chain, visited)
    requires Parses(w, chain[0])
    requires child.Some? ==> Narrows(w, GrantOf(w, chain[0]), chain[0].digest, child.value)
    ensures WalkFrom(w, now, chain[0], child, visited, depth)
    decreases |chain|
  {
    hide ParsedText, ActText, Narrows, NarrowsFrom, VerifiedGrant, WidensOk, Sound;
    assert Sound(w, now, chain[0]);
    SoundIff(w, now, chain[0]);
    if !chain[0].root {
      ChainTail(w, now, chain);
      NarrowsIff(w, GrantOf(w, chain[1]), chain[1].digest, GrantOf(w, chain[0]));
      var rest := chain[1..];
      assert AvoidsAll(rest, visited + {chain[0].digest});
      WalkComplete(w, now, rest, Some(GrantOf(w, chain[0])), visited + {chain[0].digest}, depth + 1);
    }
  }

  /** The walk accepts exactly the declared chains: it returns g iff a chain of at
      most 32 records runs from start to a root and g is what start states. */
  lemma WalkExact(w: World, now: int, start: Record, g: Grant)
    ensures Walked(w, now, start) == Some(g)
       <==> ParsedText(w.clock, start.text) == Some(g)
            && exists chain :: IsChain(w, now, chain) && chain[0] == start && |chain| <= 32
  {
    hide ParsedText, VerifiedGrant, WidensOk, Sound, Narrows, WalkFrom;
    if WalkFrom(w, now, start, None, {}, 1) {
      var chain := WalkSound(w, now, start, None, {}, 1);
      SoundAt(w, now, chain, 0);
    }
    if chain :| IsChain(w, now, chain) && chain[0] == start && |chain| <= 32 {
      SoundAt(w, now, chain, 0);
      WalkComplete(w, now, chain, None, {}, 1);
    }
  }

  lemma SoundAt(w: World, now: int, chain: seq<Record>, i: nat)
    requires IsChain(w, now, chain) && i < |chain|
    ensures Sound(w, now, chain[i]) && Parses(w, chain[i])
    ensures VerifiedGrant(w, now, chain[i]) == Some(GrantOf(w, chain[i]))
  {
    hide ParsedText, VerifiedGrant, WidensOk;
    assert Sound(w, now, chain[i]);
    SoundIff(w, now, chain[i]);
  }

  /** Nothing gets past the link verifier: every record of an accepted walk below
      its root carries a signature the verifier accepts for what the record states. */
  lemma EveryLinkIsSigned(w: World, now: int, start: Record) returns (chain: seq<Record>)
    requires Walked(w, now, start).Some?
    ensures IsChain(w, now, chain) && chain[0] == start && |chain| <= 32
    ensures forall i | 0 <= i < |chain| - 1 :: Parses(w, chain[i]) && w.verifyLink(GrantOf(w, chain[i]), chain[i].sig)
    ensures CardSigned(w, chain[|chain| - 1])
  {
    hide ParsedText, CardSigned, VerifiedGrant, WidensOk;
    chain := WalkSound(w, now, start, None, {}, 1);
    forall i | 0 <= i < |chain| ensures Sound(w, now, chain[i]) {
      SoundAt(w, now, chain, i);
    }
  }

  /** A link whose signature fails is refused, and so is a root the card did not sign. */
  lemma UnsignedIsRefused(w: World, now: int, start: Record)
    requires Parses(w, start) && (if start.root then !CardSigned(w, start) else !w.verifyLink(GrantOf(w, start), start.sig))
    ensures Walked(w, now, start).None?
  {
    hide ParsedText, CardSigned, VerifiedGrant, WidensOk;
    SoundIff(w, now, start);
  }

  // --------------------------------------------------------------- attenuation

  /** Along a chain nothing lasts longer than what it came from, nothing has
      expired, and whoever passed a grant on was allowed to. */
  lemma {:induction false} ChainAttenuates(w: World, now: int, chain: seq<Record>, i: nat, j: nat)
    requires IsChain(w, now, chain) && i <= j < |chain|
    ensures now < GrantOf(w, chain[i]).expires <= GrantOf(w, chain[j]).expires
    ensures i < j ==> GrantOf(w, chain[j]).onward == "grant"
    decreases j - i
  {
    hide ParsedText, ActText;
    assert Sound(w, now, chain[i]) && Sound(w, now, chain[j]);
    if i < j {
      assert Edge(w, chain[i], chain[i + 1]);
      ChainAttenuates(w, now, chain, i + 1, j);
    }
  }

  /** One profile entry comes from another: the same, or a base reached by a
      non-widening climb of at most eight links. */
  ghost predicate Derives(w: World, name: string, digest: string, baseName: string, baseDigest: string) {
    || (name == baseName && digest == baseDigest)
    || (w.baseChain.Some? && w.baseChain.value(name, digest).Some?
        && var links := w.baseChain.value(name, digest).value;
           |links| <= 8
           && exists k: nat | k < |links| ::
                && links[k].name == baseName && links[k].digest == baseDigest
                && forall i | 0 <= i <= k :: links[i].widenings == [])
  }

  lemma EntryDerives(w: World, parent: Grant, name: string, digest: string) returns (base: string)
    requires RestsOn(w, parent.profiles, name, digest)
    ensures base in parent.profiles && Derives(w, name, digest, base, parent.profiles[base])
    ensures w.baseChain.None? ==> base == name
  {
    if name in parent.profiles {
      base := name;
    } else {
      var links := w.baseChain.value(name, digest).value;
      var k: nat :| HeldAt(links, parent.profiles, k);
      base := links[k].name;
    }
  }

  /** A trail of profile names, one held by each record of the chain, each
      deriving from the next. */
  ghost predicate Trail(w: World, chain: seq<Record>, names: seq<string>) {
    && |names| == |chain|
    && (forall i | 0 <= i < |names| :: names[i] in ProfilesOf(w, chain[i]))
    && (forall i, j | 0 <= i < |names| && j == i + 1 && j < |names| ::
          Derives(w, names[i], ProfilesOf(w, chain[i])[names[i]], names[j], ProfilesOf(w, chain[j])[names[j]]))
  }

  lemma ChainParses(w: World, now: int, chain: seq<Record>)
    requires IsChain(w, now, chain)
    ensures forall i | 0 <= i < |chain| :: Parses(w, chain[i])
  {
    hide ParsedText, ActText;
    forall i | 0 <= i < |chain| ensures Parses(w, chain[i]) {
      assert Sound(w, now, chain[i]);
    }
  }

  /** Every profile of the presented grant is traceable, record by record, to one
      the card-signed root carries. */
  lemma {:induction false} ProfilesTraceToRoot(w: World, now: int, chain: seq<Record>, name: string) returns (names: seq<string>)
    requires IsChain(w, now, chain) && name in ProfilesOf(w, chain[0])
    ensures Trail(w, chain, names) && names[0] == name
    ensures w.baseChain.None? ==> forall i | 0 <= i < |names| :: names[i] == name
    decreases |chain|
  {
    hide ParsedText, ActText, Sound, Derives;
    if |chain| == 1 {
      names := [name];
    } else {
      ChainTail(w, now, chain);
      var base := EntryDerives(w, GrantOf(w, chain[1]), name, ProfilesOf(w, chain[0])[name]);
      var rest := ProfilesTraceToRoot(w, now, chain[1..], base);
      names := [name] + rest;
      TrailCons(w, chain, name, rest);
    }
  }

  lemma TrailCons(w: World, chain: seq<Record>, name: string, rest: seq<string>)
    requires |chain| >= 1 && Trail(w, chain[1..], rest) && name in ProfilesOf(w, chain[0])
    requires rest != [] ==> Derives(w, name, ProfilesOf(w, chain[0])[name], rest[0], ProfilesOf(w, chain[1])[rest[0]])
    ensures Trail(w, chain, [name] + rest)
  {
    hide ProfilesOf, Derives;
    var names := [name] + rest;
    forall i | 0 <= i < |names| ensures names[i] in ProfilesOf(w, chain[i]) {
      if i > 0 { assert names[i] == rest[i - 1] && chain[i] == chain[1..][i - 1]; }
    }
    forall i, j | 0 <= i < |names| && j == i + 1 && j < |names|
      ensures Derives(w, names[i], ProfilesOf(w, chain[i])[names[i]], names[j], ProfilesOf(w, chain[j])[names[j]])
    {
      assert names[j] == rest[i] && chain[j] == chain[1..][i];
      if i > 0 { assert names[i] == rest[i - 1] && chain[i] == chain[1..][i - 1]; }
    }
  }

  /** Without base chains the presented profiles are a part of the root's, at the same digests. */
  lemma {:induction false} ProfilesWithinRoot(w: World, now: int, chain: seq<Record>, name: string)
    requires IsChain(w, now, chain) && w.baseChain.None? && name in ProfilesOf(w, chain[0])
    ensures var root := ProfilesOf(w, chain[|chain| - 1]);
            name in root && root[name] == ProfilesOf(w, chain[0])[name]
    decreases |chain|
  {
    hide ParsedText, ActText, Sound;
    if |chain| > 1 {
      ChainTail(w, now, chain);
      assert RestsOn(w, GrantOf(w, chain[1]).profiles, name, ProfilesOf(w, chain[0])[name]);
      ProfilesWithinRoot(w, now, chain[1..], name);
    }
  }

  /** The two results for a caller of Walk: what it returns is backed by a live
      root that outlives it, carries every profile and was signed by the card. */
  lemma AcceptedGrantIsBacked(w: World, now: int, start: Record) returns (chain: seq<Record>)
    requires Walked(w, now, start).Some?
    ensures IsChain(w, now, chain) && chain[0] == start && |chain| <= 32
    ensures (ChainParses(w, now, chain);
             var g, root := Walked(w, now, start).value, chain[|chain| - 1];
             var r := GrantOf(w, root);
             && g == GrantOf(w, start) && now < g.expires <= r.expires
             && (|chain| > 1 ==> r.onward == "grant")
             && r.prev == "-" && ActText(w.clock, r, root.digest).Some?
             && w.verifyRoot(ActText(w.clock, r, root.digest).value, root.sig)
             && (w.baseChain.None? ==> forall n | n in g.profiles :: n in r.profiles && r.profiles[n] == g.profiles[n]))
  {
    hide ParsedText, ActText, Narrows, WidenedBy, ValidProfiles;
    chain := WalkSound(w, now, start, None, {}, 1);
    ChainParses(w, now, chain);
    ChainAttenuates(w, now, chain, 0, |chain| - 1);
    assert Sound(w, now, chain[|chain| - 1]) && Sound(w, now, start);
    if w.baseChain.None? {
      forall n | n in GrantOf(w, start).profiles
        ensures n in GrantOf(w, chain[|chain| - 1]).profiles
        ensures GrantOf(w, chain[|chain| - 1]).profiles[n] == GrantOf(w, start).profiles[n]
      {
        ProfilesWithinRoot(w, now, chain, n);
      }
    }
  }

  // --------------------------------------------------- what a store cannot change

  /** With a collision-free digest the presented digest fixes the texts of the
      whole chain: no record store, and no pair of them, can present another. */
  lemma {:induction false} StoreCannotSubstitute(w: World, now: int, chain: seq<Record>, w': World, now': int, chain': seq<Record>)
    requires IsChain(w, now, chain) && IsChain(w', now', chain') && chain[0].digest == chain'[0].digest
    requires w.clock == w'.clock && w.digestOf == w'.digestOf && CollisionFree(w.digestOf)
    ensures |chain| == |chain'|
    ensures forall i | 0 <= i < |chain| ::
              chain[i].digest == chain'[i].digest && chain[i].text == chain'[i].text && chain[i].root == chain'[i].root
    decreases |chain|
  {
    hide ParsedText, ActText, WidenedBy;
    ChainParses(w, now, chain);
    ChainParses(w', now', chain');
    assert Sound(w, now, chain[0]) && Sound(w', now', chain'[0]);
    assert chain[0].text == chain'[0].text;
    if |chain| > 1 { ChainTail(w, now, chain); }
    if |chain'| > 1 { ChainTail(w', now', chain'); }
    if |chain| > 1 && |chain'| > 1 {
      StoreCannotSubstitute(w, now, chain[1..], w', now', chain'[1..]);
      forall i | 1 <= i < |chain|
        ensures chain[i].digest == chain'[i].digest && chain[i].text == chain'[i].text && chain[i].root == chain'[i].root
      {
        assert chain[i] == chain[1..][i - 1] && chain'[i] == chain'[1..][i - 1];
      }
    }
  }
}
