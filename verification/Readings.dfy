/** What the texts of a grant and a transition say, line by line, to a verifier
    and to the operator who is asked to sign (internal/0/profilegrant/grant.go,
    internal/0/profilegrant/act.go, internal/0/profilegrant/transition.go). */
module Readings {
  import opened Text
  import opened Grants
  import opened GrantText
  import opened Acts
  import opened Transitions

  /** The names of a map, in ascending order. */
  ghost predicate Lists(names: seq<string>, profiles: map<string, string>) {
    Ascending(names) && Elements(names) == profiles.Keys && |names| == |profiles|
  }

  lemma NamesList(profiles: map<string, string>)
    ensures Lists(Names(profiles), profiles) && forall n | n in Names(profiles) :: n in profiles
  {
    AscendingSize(Names(profiles));
    assert |profiles| == |profiles.Keys|;
  }

  /** A name comes before another when it is the start of it, or has the smaller
      character where they first differ. */
  lemma {:induction false} LessIff(a: string, b: string)
    ensures Less(a, b) <==> a != b && (a <= b || exists k :: FirstDifference(a, b, k) && a[k] < b[k])
    decreases |a|
  {
    if a != "" && b != "" {
      if a[0] == b[0] {
        LessIff(a[1..], b[1..]);
        assert a == [a[0]] + a[1..] && b == [b[0]] + b[1..];
        if k :| FirstDifference(a[1..], b[1..], k) && a[1..][k] < b[1..][k] {
          assert FirstDifference(a, b, k + 1);
        }
        if k :| FirstDifference(a, b, k) && a[k] < b[k] {
          assert FirstDifference(a[1..], b[1..], k - 1);
        }
      } else {
        assert FirstDifference(a, b, 0);
        assert forall k | FirstDifference(a, b, k) :: k == 0;
      }
    }
  }

  ghost predicate FirstDifference(a: string, b: string, k: int) {
    0 <= k < |a| && k < |b| && a[k] != b[k] && forall i | 0 <= i < k :: a[i] == b[i]
  }

  /** Identity values are letters, digits and ". _ : / @ + -", by code point. */
  lemma IdentityIff(v: string)
    ensures ValidIdentity(v) <==> v != "" && forall i | 0 <= i < |v| :: IsIdentityCode(v[i] as int)
  {
    if forall i | 0 <= i < |v| :: IsIdentityCode(v[i] as int) {
      forall c | c in v ensures IdentityRune(c) {
        var i :| 0 <= i < |v| && v[i] == c;
      }
    }
    if ValidIdentity(v) {
      forall i | 0 <= i < |v| ensures IsIdentityCode(v[i] as int) {
        assert v[i] in v;
      }
    }
  }

  predicate IsIdentityCode(code: int) {
    0x61 <= code <= 0x7a || 0x41 <= code <= 0x5a || 0x30 <= code <= 0x39 || code in {0x2e, 0x5f, 0x3a, 0x2f, 0x40, 0x2b, 0x2d}
  }

  /** A line takes as many rows as it takes to hold it at 80 columns each, at least one. */
  lemma WrappedIs(line: string)
    ensures 1 <= Wrapped(line) && |line| <= 80 * Wrapped(line)
    ensures Wrapped(line) > 1 ==> |line| > 80 * (Wrapped(line) - 1)
  {
  }

  /** A character takes 1 to 4 bytes in UTF-8, by code point. */
  lemma RuneBytesAre(c: char)
    ensures var code := c as int;
      RuneBytes(c) == if code < 0x80 then 1 else if code < 0x800 then 2 else if code < 0x1_0000 then 3 else 4
  {
  }

  // ------------------------------------------------------------ canonical texts

  /** A grant the parser reads back: identities in every field, at least one
      profile, an onward right it knows, and an expiry on a whole second of the
      years 0000 to 9999. */
  lemma WellFormedIff(g: Grant)
    ensures WellFormed(g) <==>
      && (forall v | v in [g.grantor, g.grantee, g.session, g.nonce, g.widens, g.prev] :: ValidIdentity(v))
      && |g.profiles| > 0 && (forall n | n in g.profiles :: ValidIdentity(n) && ValidIdentity(g.profiles[n]))
      && (g.onward == "none" || g.onward == "grant") && g.expires % 1_000_000_000 == 0
      && -62_167_219_200_000_000_000 <= g.expires < 253_402_300_800_000_000_000
  {
    hide ValidIdentity;
  }

  /** A transition the parser reads back: identities, a change, and such an expiry. */
  lemma TransitionWellFormedIff(tr: Transition)
    ensures TransitionWellFormed(tr) <==>
      && (forall v | v in [tr.profile, tr.oldDigest, tr.newDigest, tr.nonce] :: ValidIdentity(v))
      && tr.oldDigest != tr.newDigest && tr.expires % 1_000_000_000 == 0
      && -62_167_219_200_000_000_000 <= tr.expires < 253_402_300_800_000_000_000
  {
    hide ValidIdentity;
  }

  /** What a verifier reads in a grant's canonical text. */
  lemma CanonicalTextReads(clock: Clock, g: Grant) returns (names: seq<string>, fields: seq<string>, rights: seq<string>)
    requires ValidClock(clock) && WellFormed(g)
    ensures Lists(names, g.profiles) && |fields| == |rights| == |names|
    ensures forall i | 0 <= i < |names| :: names[i] in g.profiles
              && fields[i] == names[i] + "=" + g.profiles[names[i]] && rights[i] == "spinclass:profile:" + names[i]
    ensures var lines := Lines(CanonicalText(clock, g));
      && |lines| == 11 && lines[0] == "spinclass profile-grant v1"
      && lines[1] == "grantor: " + g.grantor && lines[2] == "grantee: " + g.grantee
      && lines[3] == "session: " + g.session && lines[4] == "profiles: " + Join(fields, ' ')
      && lines[5] == "rights: " + Join(rights, ' ') && lines[6] == "onward: " + g.onward
      && lines[7] == "expires: " + clock.format(g.expires) && lines[8] == "nonce: " + g.nonce
      && lines[9] == "widens: " + g.widens && lines[10] == "prev: " + g.prev
  {
    NamesList(g.profiles);
    names := Names(g.profiles);
    fields, rights := Fields(names, g.profiles), Rights(names);
    assert RIGHT_PREFIX == "spinclass:profile:";
    hide *;
    hide RIGHT_PREFIX, LINE_KEYS, HEADER;
    ElevenLines(clock, g);
    ValuesAre(clock, g);
  }

  lemma ElevenLines(clock: Clock, g: Grant)
    requires ValidClock(clock) && WellFormed(g)
    ensures var lines := Lines(CanonicalText(clock, g)); var v := Values(clock, g);
      && |lines| == 11 && lines[0] == "spinclass profile-grant v1"
      && lines[1] == "grantor: " + v[0] && lines[2] == "grantee: " + v[1] && lines[3] == "session: " + v[2]
      && lines[4] == "profiles: " + v[3] && lines[5] == "rights: " + v[4] && lines[6] == "onward: " + v[5]
      && lines[7] == "expires: " + v[6] && lines[8] == "nonce: " + v[7] && lines[9] == "widens: " + v[8]
      && lines[10] == "prev: " + v[9]
  {
    CanonicalLines(clock, g);
    hide *;
    TenLines(Values(clock, g));
  }

  lemma ValuesAre(clock: Clock, g: Grant)
    ensures var v := Values(clock, g); var names := Names(g.profiles);
      && v[0] == g.grantor && v[1] == g.grantee && v[2] == g.session && v[3] == Join(Fields(names, g.profiles), ' ')
      && v[4] == Join(Rights(names), ' ') && v[5] == g.onward && v[6] == clock.format(g.expires) && v[7] == g.nonce
      && v[8] == g.widens && v[9] == g.prev
  {
  }

  lemma TenLabels()
    ensures "grantor" + ": " == "grantor: " && "grantee" + ": " == "grantee: " && "session" + ": " == "session: "
    ensures "profiles" + ": " == "profiles: " && "rights" + ": " == "rights: " && "onward" + ": " == "onward: "
    ensures "widens" + ": " == "widens: " && "prev" + ": " == "prev: "
  {
  }

  lemma SharedLabels()
    ensures "expires" + ": " == "expires: " && "nonce" + ": " == "nonce: "
  {
  }

  lemma ThreeLabels()
    ensures "profile" + ": " == "profile: " && "from" + ": " == "from: " && "to" + ": " == "to: "
  {
  }

  /** The lines after the header, one by one. */
  lemma TenLines(v: seq<string>)
    requires |v| == 10
    ensures var body := Body(LINE_KEYS, v);
      && |body| == 10 && body[0] == "grantor: " + v[0] && body[1] == "grantee: " + v[1] && body[2] == "session: " + v[2]
      && body[3] == "profiles: " + v[3] && body[4] == "rights: " + v[4] && body[5] == "onward: " + v[5]
      && body[6] == "expires: " + v[6] && body[7] == "nonce: " + v[7] && body[8] == "widens: " + v[8]
      && body[9] == "prev: " + v[9]
  {
    TenLabels();
    SharedLabels();
  }

  lemma FiveLines(v: seq<string>)
    requires |v| == 5
    ensures Body(TRANSITION_KEYS, v) == [
      "profile: " + v[0], "from: " + v[1], "to: " + v[2], "expires: " + v[3], "nonce: " + v[4]]
  {
    ThreeLabels();
    SharedLabels();
  }

  /** What a verifier reads in a transition's text. */
  lemma TransitionTextReads(clock: Clock, tr: Transition)
    requires ValidClock(clock) && TransitionWellFormed(tr)
    ensures Lines(TransitionText(clock, tr)) == ["spinclass profile-transition v1"] + [
      "profile: " + tr.profile, "from: " + tr.oldDigest, "to: " + tr.newDigest,
      "expires: " + clock.format(tr.expires), "nonce: " + tr.nonce]
  {
    TransitionLines(clock, tr);
    FiveLines(TransitionValues(clock, tr));
    hide Lines, TransitionText, ValidClock, TransitionWellFormed, Body, TRANSITION_KEYS;
  }

  // ------------------------------------------------------------------ act texts

  /** What the operator reads before signing a grant: what it widens, the record,
      who grants to whom and in which session, each profile with the digest it is
      pinned to, whether it may be passed on, and until when. */
  lemma ActTextReads(clock: Clock, g: Grant, digest: string) returns (names: seq<string>)
    requires ValidClock(clock) && ActText(clock, g, digest).Some?
    ensures Lists(names, g.profiles)
    ensures var lines := Lines(ActText(clock, g, digest).value); var n := |lines|;
      && n == 8 + |g.profiles|
      && lines[0] == "spinclass profile grant (escalation): " + (if g.widens == "-" then "initial grant" else "widening of " + g.widens)
      && lines[1] == "record: " + digest && lines[2] == "from: " + g.grantor
      && lines[3] == "allow: " + (g.grantee + " (" + (if g.session == "-" then "no session" else "session " + g.session) + ")")
      && lines[4] == "to spawn workers with these" + (" profiles, each pinned to" + " its content digest:")
      && (forall i | 0 <= i < |names| :: names[i] in g.profiles
            && lines[5 + i] == "  " + (names[i] + " = " + g.profiles[names[i]]))
      && lines[n - 3] == "may pass these on: " + (if g.onward == "grant" then "yes" else "no")
      && lines[n - 2] == "until: " + clock.format(g.expires)
      && lines[n - 1] == "Signing this is an operator" + (" grant of these rights," + " bounded as stated above.")
  {
    names := Names(g.profiles);
    ActTextPlaces(clock, g, digest);
    HeadReads(g, digest);
    TailReads(clock, g);
    hide Lines, ActText, Names, ValidClock, ActHead, ActTail, PinnedLines, Lists;
  }

  /** Where the lines of the act text stand. */
  lemma ActTextPlaces(clock: Clock, g: Grant, digest: string)
    requires ValidClock(clock) && ActText(clock, g, digest).Some?
    ensures var lines := Lines(ActText(clock, g, digest).value); var n := |lines|; var names := Names(g.profiles);
      && Lists(names, g.profiles) && n == 8 + |g.profiles|
      && lines[0] == ActHead(g, digest)[0] && lines[1] == ActHead(g, digest)[1] && lines[2] == ActHead(g, digest)[2]
      && lines[3] == ActHead(g, digest)[3] && lines[4] == ActHead(g, digest)[4]
      && (forall i | 0 <= i < |names| :: names[i] in g.profiles
            && lines[5 + i] == "  " + (names[i] + " = " + g.profiles[names[i]]))
      && lines[n - 3] == ActTail(clock, g)[0] && lines[n - 2] == ActTail(clock, g)[1] && lines[n - 1] == ActTail(clock, g)[2]
  {
    NamesList(g.profiles);
    ActTextLines(clock, g, digest);
    var names := Names(g.profiles);
    var head, pinned, tail := ActHead(g, digest), PinnedLines(names, g.profiles), ActTail(clock, g);
    AscendingSize(names);
    hide *;
    Pieces(head, pinned, tail);
  }

  lemma Pieces<T>(a: seq<T>, b: seq<T>, c: seq<T>)
    requires |a| == 5 && |c| == 3
    ensures var s := a + b + c; var n := |s|;
      && n == 8 + |b| && s[0] == a[0] && s[1] == a[1] && s[2] == a[2] && s[3] == a[3] && s[4] == a[4]
      && s[n - 3] == c[0] && s[n - 2] == c[1] && s[n - 1] == c[2]
      && forall i | 0 <= i < |b| :: s[5 + i] == b[i]
  {
  }

  lemma ActTextLines(clock: Clock, g: Grant, digest: string)
    requires ValidClock(clock) && ActText(clock, g, digest).Some?
    ensures Lines(ActText(clock, g, digest).value)
      == ActHead(g, digest) + PinnedLines(Names(g.profiles), g.profiles) + ActTail(clock, g)
  {
    ActLinesPrintable(clock, g, digest);
    LinesUnlines(ActLines(clock, g, digest));
  }

  lemma HeadReads(g: Grant, digest: string)
    ensures ActHead(g, digest) == [
      "spinclass profile grant (escalation): " + (if g.widens == "-" then "initial grant" else "widening of " + g.widens),
      "record: " + digest, "from: " + g.grantor,
      "allow: " + (g.grantee + " (" + (if g.session == "-" then "no session" else "session " + g.session) + ")"),
      "to spawn workers with these" + (" profiles, each pinned to" + " its content digest:")]
  {
  }

  lemma TailReads(clock: Clock, g: Grant)
    ensures ActTail(clock, g) == [
      "may pass these on: " + (if g.onward == "grant" then "yes" else "no"),
      "until: " + clock.format(g.expires),
      "Signing this is an operator" + (" grant of these rights," + " bounded as stated above.")]
  {
  }

  /** When the card may be asked to sign a grant at all. */
  lemma ActTextGivenIff(clock: Clock, g: Grant, digest: string)
    ensures var text := Unlines(ActLines(clock, g, digest));
      ActText(clock, g, digest) == if ActIsValid(g, digest) && FitsThePrompt(text) then Some(text) else None
  {
    hide Unlines, ActLines, ValidIdentity, ByteLen, Rows, Lines;
  }

  predicate ActIsValid(g: Grant, digest: string) {
    && |g.profiles| > 0 && (g.onward == "none" || g.onward == "grant")
    && g.expires != -62_135_596_800_000_000_000
    && (forall v | v in [digest, g.grantor, g.grantee, g.session, g.widens] :: ValidIdentity(v))
    && (forall n | n in g.profiles :: ValidIdentity(n) && ValidIdentity(g.profiles[n]))
  }

  predicate FitsThePrompt(text: string) {
    ByteLen(text) <= 4096 && Rows(Lines(text)) <= 15 && |text| <= 1200
  }

  /** What the operator reads before signing a transition. */
  lemma TransitionActReads(clock: Clock, tr: Transition, digest: string, diff: seq<string>)
    requires ValidClock(clock) && TransitionActText(clock, tr, digest, diff).Some?
    ensures Lines(TransitionActText(clock, tr, digest, diff).value)
      == ["spinclass profile transition (escalation): " + tr.profile, "record: " + digest, "from: " + tr.oldDigest,
          "to: " + tr.newDigest, "redeemable until: " + clock.format(tr.expires)] + diff
         + ["Signing this approves the" + (" change for every session" + " pinned to \"from\".")]
  {
    CheckedTransition(clock, tr);
    TransitionActFree(clock, tr, digest, diff);
    LinesUnlines(TransitionActLines(clock, tr, digest, diff));
  }

  /** When the card may be asked to sign a transition at all. */
  lemma TransitionActGivenIff(clock: Clock, tr: Transition, digest: string, diff: seq<string>)
    ensures var text := Unlines(TransitionActLines(clock, tr, digest, diff));
      TransitionActText(clock, tr, digest, diff)
      == if ParsedTransition(clock, TransitionText(clock, tr)).Some? && ValidIdentity(digest) && ShowsOnThePrompt(diff)
            && FitsThePrompt(text)
         then Some(text) else None
  {
    hide Unlines, TransitionActLines, ValidIdentity, ByteLen, Rows, Lines, ParsedTransition, TransitionText;
    assert ValidDiff(diff) <==> ShowsOnThePrompt(diff);
  }

  /** At most six lines, none empty, at most 80 runes of printable ASCII or the elision mark. */
  predicate ShowsOnThePrompt(diff: seq<string>) {
    |diff| <= 6 && forall i | 0 <= i < |diff| ::
      0 < |diff[i]| <= 80 && forall c | c in diff[i] :: 0x20 <= c as int <= 0x7e || c as int == 0x2026
  }

  /** When a transition may be redeemed: its digest names its text, the text is its
      canonical one, it has not run out, and the card signed what the operator read. */
  lemma RedeemableIff(clock: Clock, digestOf: string -> Option<string>, verifyRoot: (string, seq<bv8>) -> bool,
                      now: int, rec: TransitionRecord, tr: Transition)
    requires ValidClock(clock)
    ensures VerifyTransition(clock, digestOf, verifyRoot, now, rec) == Some(tr) <==>
      && digestOf(rec.text) == Some(rec.digest) && now < tr.expires && rec.sig != []
      && TransitionWellFormed(tr) && rec.text == TransitionText(clock, tr) && ByteLen(rec.text) <= 4096
      && TransitionActText(clock, tr, rec.digest, rec.diff).Some?
      && verifyRoot(TransitionActText(clock, tr, rec.digest, rec.diff).value, rec.sig)
  {
    TransitionParseExact(clock, rec.text, tr);
    hide ParsedTransition, TransitionActText, ValidClock, TransitionWellFormed, TransitionText, ByteLen;
  }
}
