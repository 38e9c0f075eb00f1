/** Profile transitions: a card-signed approval of one profile change, its strict
    text and the text the card signs (internal/0/profilegrant/transition.go). */
module Transitions {
  import opened Text
  import opened Grants
  import opened GrantText
  import opened Acts

  const TRANSITION_HEADER := "spinclass profile-transition v1"
  const TRANSITION_KEYS := ["profile", "from", "to", "expires", "nonce"]
  const MAX_DIFF_LINES := 6
  const ELISION_MARK := 0x2026 as char

  datatype Transition = Transition(profile: string, oldDigest: string, newDigest: string, expires: int, nonce: string)

  ghost predicate TransitionFields(tr: Transition) {
    && ValidIdentity(tr.profile) && ValidIdentity(tr.oldDigest) && ValidIdentity(tr.newDigest) && ValidIdentity(tr.nonce)
    && tr.oldDigest != tr.newDigest && Renderable(tr.expires)
  }

  ghost predicate TransitionWellFormed(tr: Transition) {
    TransitionFields(tr) && WholeSecond(tr.expires)
  }

  function TransitionValues(clock: Clock, tr: Transition): (v: seq<string>)
    ensures |v| == |TRANSITION_KEYS|
  {
    [tr.profile, tr.oldDigest, tr.newDigest, clock.format(tr.expires), tr.nonce]
  }

  function TransitionText(clock: Clock, tr: Transition): string {
    Unlines([TRANSITION_HEADER] + Body(TRANSITION_KEYS, TransitionValues(clock, tr)))
  }

  // ------------------------------------------------------------------ parsing

  predicate TransitionLineOk(key: string, line: string) {
    key + ": " <= line && (key == "expires" || ValidIdentity(ValueOf(key, line)))
  }

  predicate TransitionBodyOk(keys: seq<string>, body: seq<string>) {
    |body| == |keys| && forall i | 0 <= i < |body| :: TransitionLineOk(keys[i], body[i])
  }

  function ParseTransitionValues(clock: Clock, v: seq<string>): Option<Transition>
    requires |v| == |TRANSITION_KEYS|
  {
    match clock.parse(v[3])
    case None => None
    case Some(expires) => if v[1] == v[2] then None else Some(Transition(v[0], v[1], v[2], expires, v[4]))
  }

  function ParsedTransition(clock: Clock, s: string): Option<Transition> {
    if ByteLen(s) > MAX_TEXT_BYTES || !EndsInNewline(s) then None
    else
      var lines := Lines(s);
      if lines[0] != TRANSITION_HEADER || !TransitionBodyOk(TRANSITION_KEYS, lines[1..]) then None
      else match ParseTransitionValues(clock, ValuesOf(TRANSITION_KEYS, lines[1..]))
        case None => None
        case Some(tr) => if TransitionText(clock, tr) == s then Some(tr) else None
  }

  lemma TransitionKeysDistinct()
    ensures Distinct(TRANSITION_KEYS)
  {
    assert |TRANSITION_KEYS[0]| == 7 == |TRANSITION_KEYS[3]| && TRANSITION_KEYS[0][0] == 'p' && TRANSITION_KEYS[3][0] == 'e';
    assert |TRANSITION_KEYS[1]| == 4 && |TRANSITION_KEYS[2]| == 2 && |TRANSITION_KEYS[4]| == 5;
  }

  method ReadTransitionValues(body: seq<string>) returns (r: Option<map<string, string>>)
    ensures r.Some? <==> TransitionBodyOk(TRANSITION_KEYS, body)
    ensures r.Some? ==> Tabulates(TRANSITION_KEYS, r.value, ValuesOf(TRANSITION_KEYS, body))
  {
    if |body| != |TRANSITION_KEYS| { return None; }
    var values: map<string, string> := map[];
    ghost var v := ValuesOf(TRANSITION_KEYS, body);
    for i := 0 to |TRANSITION_KEYS|
      invariant forall k | 0 <= k < i :: TransitionLineOk(TRANSITION_KEYS[k], body[k])
      invariant Tabulates(TRANSITION_KEYS, values, v[..i])
    {
      var key := TRANSITION_KEYS[i];
      if !TransitionLineOk(key, body[i]) { return None; }
      TransitionKeysDistinct();
      TabulateOne(TRANSITION_KEYS, values, v, i);
      values := values[key := ValueOf(key, body[i])];
    }
    assert v[..|TRANSITION_KEYS|] == v;
    return Some(values);
  }

  /** ParseTransitionText. */
  method ParseTransitionText(clock: Clock, s: string) returns (r: Option<Transition>)
    ensures r == ParsedTransition(clock, s)
  {
    if ByteLen(s) > MAX_TEXT_BYTES || !EndsInNewline(s) { return None; }
    var lines := Lines(s);
    if lines[0] != TRANSITION_HEADER { return None; }
    var table := ReadTransitionValues(lines[1..]);
    if table.None? { return None; }
    var values := table.value;
    ghost var v := ValuesOf(TRANSITION_KEYS, lines[1..]);
    assert values[TRANSITION_KEYS[0]] == v[0] && values[TRANSITION_KEYS[1]] == v[1] && values[TRANSITION_KEYS[2]] == v[2];
    assert values[TRANSITION_KEYS[3]] == v[3] && values[TRANSITION_KEYS[4]] == v[4];
    var expires := clock.parse(values["expires"]);
    if expires.None? { return None; }
    var tr := Transition(values["profile"], values["from"], values["to"], expires.value, values["nonce"]);
    if tr.oldDigest == tr.newDigest { return None; }
    return if TransitionText(clock, tr) == s then Some(tr) else None;
  }

  // --------------------------------------------------------------- round trip

  /** The values, but for the expiry, are identities; a rendered body of such values is accepted. */
  ghost predicate TransitionFits(keys: seq<string>, v: seq<string>) {
    |keys| == |v| && forall i | 0 <= i < |v| :: GoodValue(v[i]) && (keys[i] == "expires" || ValidIdentity(v[i]))
  }

  lemma TransitionBodyReads(keys: seq<string>, v: seq<string>)
    requires TransitionFits(keys, v) && AllPrintable(keys)
    ensures TransitionBodyOk(keys, Body(keys, v)) && ValuesOf(keys, Body(keys, v)) == v
    ensures Free([TRANSITION_HEADER] + Body(keys, v), '\n')
  {
    var body := Body(keys, v);
    forall i | 0 <= i < |body| ensures Printable(body[i]) && TransitionLineOk(keys[i], body[i]) && ValueOf(keys[i], body[i]) == v[i] {
      assert body[i] == keys[i] + ": " + v[i];
      assert body[i][|keys[i]| + 2..] == v[i];
    }
    assert Printable(TRANSITION_HEADER);
    PrintableFree([TRANSITION_HEADER] + body, '\n');
  }

  lemma TransitionKeysPrintable()
    ensures AllPrintable(TRANSITION_KEYS) && TRANSITION_KEYS[3] == "expires"
    ensures forall i | 0 <= i < |TRANSITION_KEYS| :: TRANSITION_KEYS[i] == "expires" ==> i == 3
  {
    TransitionKeysDistinct();
  }

  lemma TransitionValuesFit(clock: Clock, tr: Transition)
    requires ValidClock(clock) && TransitionFields(tr)
    ensures TransitionFits(TRANSITION_KEYS, TransitionValues(clock, tr))
  {
    TransitionKeysPrintable();
    DateGood(clock, tr.expires);
    IdentityPrintable(tr.profile);
    IdentityPrintable(tr.oldDigest);
    IdentityPrintable(tr.newDigest);
    IdentityPrintable(tr.nonce);
  }

  lemma TransitionLines(clock: Clock, tr: Transition)
    requires ValidClock(clock) && TransitionFields(tr)
    ensures var s := TransitionText(clock, tr);
            EndsInNewline(s) && Lines(s) == [TRANSITION_HEADER] + Body(TRANSITION_KEYS, TransitionValues(clock, tr))
    ensures var body := Body(TRANSITION_KEYS, TransitionValues(clock, tr));
            TransitionBodyOk(TRANSITION_KEYS, body) && ValuesOf(TRANSITION_KEYS, body) == TransitionValues(clock, tr)
  {
    TransitionValuesFit(clock, tr);
    TransitionKeysPrintable();
    var v := TransitionValues(clock, tr);
    TransitionBodyReads(TRANSITION_KEYS, v);
    LinesUnlines([TRANSITION_HEADER] + Body(TRANSITION_KEYS, v));
  }

  lemma TransitionBodyIsRendered(keys: seq<string>, body: seq<string>)
    requires TransitionBodyOk(keys, body)
    ensures body == Body(keys, ValuesOf(keys, body))
    ensures forall i | 0 <= i < |keys| :: keys[i] == "expires" || ValidIdentity(ValuesOf(keys, body)[i])
  {
    forall i | 0 <= i < |body| ensures body[i] == Body(keys, ValuesOf(keys, body))[i] {
      assert TransitionLineOk(keys[i], body[i]);
    }
  }

  lemma ParsedTransitionFields(clock: Clock, s: string)
    requires ValidClock(clock) && ParsedTransition(clock, s).Some?
    ensures var tr := ParsedTransition(clock, s).value;
            TransitionFields(tr) && ValuesOf(TRANSITION_KEYS, Lines(s)[1..]) == TransitionValues(clock, tr)
  {
    var tr := ParsedTransition(clock, s).value;
    var v := ValuesOf(TRANSITION_KEYS, Lines(s)[1..]);
    TransitionBodyIsRendered(TRANSITION_KEYS, Lines(s)[1..]);
    TransitionKeysPrintable();
    assert ValidIdentity(v[0]) && ValidIdentity(v[1]) && ValidIdentity(v[2]) && ValidIdentity(v[4]);
    TransitionLines(clock, tr);
    assert Lines(s)[1..] == Body(TRANSITION_KEYS, TransitionValues(clock, tr));
  }

  lemma TransitionParseReads(clock: Clock, tr: Transition)
    requires ValidClock(clock) && TransitionWellFormed(tr) && ByteLen(TransitionText(clock, tr)) <= MAX_TEXT_BYTES
    ensures ParsedTransition(clock, TransitionText(clock, tr)) == Some(tr)
  {
    hide ValidIdentity, Lines, TransitionBodyOk;
    TransitionLines(clock, tr);
    var v := TransitionValues(clock, tr);
    assert Lines(TransitionText(clock, tr))[1..] == Body(TRANSITION_KEYS, v);
    assert clock.parse(v[3]) == Some(tr.expires);
  }

  /** The transition parser is exact, as the grant parser is. */
  lemma TransitionParseExact(clock: Clock, s: string, tr: Transition)
    requires ValidClock(clock)
    ensures ParsedTransition(clock, s) == Some(tr)
       <==> TransitionWellFormed(tr) && s == TransitionText(clock, tr) && ByteLen(s) <= 4096
  {
    if ParsedTransition(clock, s) == Some(tr) {
      ParsedTransitionFields(clock, s);
      var v := TransitionValues(clock, tr);
      assert clock.parse(v[3]) == Some(tr.expires);
    } else if TransitionWellFormed(tr) && s == TransitionText(clock, tr) && ByteLen(s) <= MAX_TEXT_BYTES {
      TransitionParseReads(clock, tr);
    }
  }

  /** A transition never parses as a grant, nor a grant as a transition, so it
      can never be a link in a grant chain. */
  lemma TransitionIsNoGrant(clock: Clock, s: string)
    ensures !(ParsedText(clock, s).Some? && ParsedTransition(clock, s).Some?)
  {
    assert HEADER[18] == 'g' && TRANSITION_HEADER[18] == 't';
  }

  // ------------------------------------------------------------------ act text

  predicate DiffRune(c: char) {
    ' ' <= c <= '~' || c == ELISION_MARK
  }

  /** checkDiffLine. */
  predicate ValidDiffLine(line: string) {
    line != "" && |line| <= WRAP_COLUMNS && forall c | c in line :: DiffRune(c)
  }

  predicate ValidDiff(diff: seq<string>) {
    |diff| <= MAX_DIFF_LINES && forall i | 0 <= i < |diff| :: ValidDiffLine(diff[i])
  }

  const APPROVE_LINE := "Signing this approves the" + (" change for every session" + " pinned to \"from\".")

  function TransitionHead(clock: Clock, tr: Transition, digest: string): (lines: seq<string>)
    ensures |lines| == 5
  {
    [ "spinclass profile transition (escalation): " + tr.profile,
      "record: " + digest,
      "from: " + tr.oldDigest,
      "to: " + tr.newDigest,
      "redeemable until: " + clock.format(tr.expires)]
  }

  function TransitionActLines(clock: Clock, tr: Transition, digest: string, diff: seq<string>): seq<string> {
    TransitionHead(clock, tr, digest) + diff + [APPROVE_LINE]
  }

  function TransitionActText(clock: Clock, tr: Transition, digest: string, diff: seq<string>): Option<string> {
    var text := Unlines(TransitionActLines(clock, tr, digest, diff));
    if && ParsedTransition(clock, TransitionText(clock, tr)).Some? && ValidIdentity(digest) && ValidDiff(diff)
       && WithinBudget(text)
    then Some(text) else None
  }

  method CheckDiff(diff: seq<string>) returns (ok: bool)
    ensures ok == ValidDiff(diff)
  {
    if |diff| > MAX_DIFF_LINES { return false; }
    for i := 0 to |diff|
      invariant forall k | 0 <= k < i :: ValidDiffLine(diff[k])
    {
      if !ValidDiffLine(diff[i]) { return false; }
    }
    return true;
  }

  method AppendLines(head: seq<string>, lines: seq<string>) returns (text: string)
    ensures text == Unlines(head + lines)
  {
    assert head + lines[..0] == head;
    text := Unlines(head);
    for i := 0 to |lines|
      invariant text == Unlines(head + lines[..i])
    {
      text := text + lines[i] + "\n";
      UnlinesAppend(head + lines[..i], [lines[i]]);
      assert head + lines[..i] + [lines[i]] == head + lines[..i + 1];
    }
    assert lines[..|lines|] == lines;
  }

  method RenderTransitionActText(clock: Clock, tr: Transition, digest: string, diff: seq<string>)
      returns (r: Option<string>)
    ensures r == TransitionActText(clock, tr, digest, diff)
  {
    var parsed := ParseTransitionText(clock, TransitionText(clock, tr));
    if parsed.None? || !ValidIdentity(digest) { return None; }
    var diffOk := CheckDiff(diff);
    if !diffOk { return None; }
    var text := AppendLines(TransitionHead(clock, tr, digest), diff);
    UnlinesAppend(TransitionHead(clock, tr, digest) + diff, [APPROVE_LINE]);
    text := text + Unlines([APPROVE_LINE]);
    var ok := CheckBudget(text);
    return if ok then Some(text) else None;
  }

  lemma ApproveLinePrintable()
    ensures Printable(APPROVE_LINE) && |APPROVE_LINE| == 68
  {
    PrintableAppend(" change for every session", " pinned to \"from\".");
    PrintableAppend("Signing this approves the", " change for every session" + " pinned to \"from\".");
  }

  lemma TransitionHeadPrintable(clock: Clock, tr: Transition, digest: string)
    requires ValidClock(clock) && TransitionFields(tr) && ValidIdentity(digest)
    ensures AllPrintable(TransitionHead(clock, tr, digest))
  {
    hide ValidIdentity;
    DateGood(clock, tr.expires);
    IdentityPrintable(tr.profile);
    IdentityPrintable(tr.oldDigest);
    IdentityPrintable(tr.newDigest);
    IdentityPrintable(digest);
    TransitionHeadLines(tr, digest, clock.format(tr.expires));
  }

  lemma TransitionHeaderPrintable(profile: string)
    requires Printable(profile)
    ensures Printable("spinclass profile transition (escalation): " + profile)
  {
    PrintableAppend("spinclass profile ", "transition (escalation): ");
    assert "spinclass profile " + "transition (escalation): " == "spinclass profile transition (escalation): ";
    PrintableAppend("spinclass profile transition (escalation): ", profile);
  }

  lemma TransitionHeadLines(tr: Transition, digest: string, date: string)
    requires Printable(tr.profile) && Printable(digest) && Printable(tr.oldDigest) && Printable(tr.newDigest) && Printable(date)
    ensures Printable("spinclass profile transition (escalation): " + tr.profile) && Printable("record: " + digest)
    ensures Printable("from: " + tr.oldDigest) && Printable("to: " + tr.newDigest) && Printable("redeemable until: " + date)
  {
    TransitionHeaderPrintable(tr.profile);
    PrintableAppend("record: ", digest);
    PrintableAppend("from: ", tr.oldDigest);
    PrintableAppend("to: ", tr.newDigest);
    PrintableAppend("redeemable until: ", date);
  }

  /** A record whose text parses has the fields that were read, so no field can
      smuggle in a line: the approval covers what was checked. */
  lemma CheckedTransition(clock: Clock, tr: Transition)
    requires ValidClock(clock) && ParsedTransition(clock, TransitionText(clock, tr)).Some?
    ensures ParsedTransition(clock, TransitionText(clock, tr)) == Some(tr.(expires := Seconds(tr.expires) * NANOS))
    ensures TransitionFields(tr)
  {
    var s := TransitionText(clock, tr);
    var u := ParsedTransition(clock, s).value;
    LinesWritten([TRANSITION_HEADER] + Body(TRANSITION_KEYS, TransitionValues(clock, tr)));
    ParsedTransitionFields(clock, s);
    BodyInjective(TRANSITION_KEYS, TransitionValues(clock, tr), TransitionValues(clock, u));
    SameValues(clock, tr, u);
    TransitionParseExact(clock, s, u);
  }

  lemma SameValues(clock: Clock, tr: Transition, u: Transition)
    requires ValidClock(clock) && TransitionValues(clock, tr) == TransitionValues(clock, u)
    ensures tr.(expires := 0) == u.(expires := 0) && Seconds(tr.expires) == Seconds(u.expires)
  {
    var v, w := TransitionValues(clock, tr), TransitionValues(clock, u);
    assert v[0] == w[0] && v[1] == w[1] && v[2] == w[2] && v[3] == w[3] && v[4] == w[4];
  }

  lemma BodyInjective(keys: seq<string>, v: seq<string>, w: seq<string>)
    requires |keys| == |v| == |w| && Body(keys, v) == Body(keys, w)
    ensures v == w
  {
    forall i | 0 <= i < |keys| ensures v[i] == w[i] {
      assert Body(keys, v)[i] == Body(keys, w)[i];
      PrefixCancel(keys[i] + ": ", v[i], w[i]);
    }
  }

  // ------------------------------------------------------- act text theorems

  lemma {:induction false} RowsOfShortLines(lines: seq<string>)
    requires forall i | 0 <= i < |lines| :: |lines[i]| <= WRAP_COLUMNS
    ensures Rows(lines) == |lines|
  {
    if lines != [] {
      RowsOfShortLines(lines[1..]);
    }
  }

  lemma MulSteps(n: nat, width: nat, k: nat, first: nat, rest: nat)
    requires n >= 1
    ensures n * width == (n - 1) * width + width
    ensures k * (first + rest) == k * first + k * rest && k * first == k * (first - 1) + k
  {
  }

  lemma {:induction false} SizeOfLines(lines: seq<string>, width: nat, runeBytes: nat)
    requires forall i | 0 <= i < |lines| :: |lines[i]| <= width && forall c | c in lines[i] :: RuneBytes(c) <= runeBytes
    requires 1 <= runeBytes <= 4
    ensures |Unlines(lines)| <= |lines| * (width + 1)
    ensures ByteLen(Unlines(lines)) <= runeBytes * |Unlines(lines)|
  {
    if lines != [] {
      SizeOfLines(lines[1..], width, runeBytes);
      ByteLenBound(lines[0], runeBytes);
      ByteLenAppend(lines[0] + "\n", Unlines(lines[1..]));
      ByteLenAppend(lines[0], "\n");
      MulSteps(|lines|, width + 1, runeBytes, |lines[0]| + 1, |Unlines(lines[1..])|);
    }
  }

  lemma DiffSize(diff: seq<string>)
    requires ValidDiff(diff)
    ensures Rows(diff) == |diff|
    ensures |Unlines(diff)| <= 486 && ByteLen(Unlines(diff)) <= 1458
    ensures Free(diff, '\n')
  {
    forall i | 0 <= i < |diff|
      ensures |diff[i]| <= WRAP_COLUMNS && '\n' !in diff[i]
      ensures forall c | c in diff[i] :: RuneBytes(c) <= 3
    {
      assert ValidDiffLine(diff[i]);
    }
    RowsOfShortLines(diff);
    SizeOfLines(diff, WRAP_COLUMNS, 3);
  }

  lemma PrintableBytes(lines: seq<string>)
    requires AllPrintable(lines)
    ensures ByteLen(Unlines(lines)) == |Unlines(lines)|
  {
    UnlinesNoControl(lines);
    UnlinesAscii(lines);
    ByteLenBound(Unlines(lines), 1);
  }

  lemma {:induction false} UnlinesAscii(lines: seq<string>)
    requires AllPrintable(lines)
    ensures forall c | c in Unlines(lines) :: RuneBytes(c) == 1
  {
    if lines != [] {
      UnlinesAscii(lines[1..]);
      assert Printable(lines[0]);
    }
  }

  /** The widths the fixed part is budgeted for: the header on one rendered line,
      each digest-bearing line on two. */
  predicate FixedPartFits(tr: Transition, digest: string) {
    |tr.profile| + 43 <= 80 && |digest| + 8 <= 160 && |tr.oldDigest| + 6 <= 160 && |tr.newDigest| + 4 <= 160
  }

  lemma HeadWidths(clock: Clock, tr: Transition, digest: string)
    requires ValidClock(clock) && TransitionFields(tr) && FixedPartFits(tr, digest)
    ensures var h := TransitionHead(clock, tr, digest);
            |h[0]| <= 80 && |h[1]| <= 160 && |h[2]| <= 160 && |h[3]| <= 160 && |h[4]| == 38
  {
    assert |"spinclass profile transition (escalation): "| == 43;
    assert |clock.format(tr.expires)| == 20;
  }

  lemma FiveLines(h: seq<string>)
    requires |h| == 5
    requires |h[0]| <= 80 && |h[1]| <= 160 && |h[2]| <= 160 && |h[3]| <= 160 && |h[4]| == 38
    ensures Rows(h) <= 8 && |Unlines(h)| <= 603
  {
    hide Unlines, Rows, Wrapped;
    assert h == [h[0]] + ([h[1]] + ([h[2]] + ([h[3]] + [h[4]])));
    forall i | 0 <= i < 5
      ensures Rows([h[i]]) == Wrapped(h[i]) && |Unlines([h[i]])| == |h[i]| + 1
      ensures |h[i]| <= 160 ==> Wrapped(h[i]) <= 2
      ensures |h[i]| <= 80 ==> Wrapped(h[i]) == 1
    {
      UnlinesOne(h[i]);
      RowsOne(h[i]);
    }
    RowsAppend([h[3]], [h[4]]);
    RowsAppend([h[2]], [h[3]] + [h[4]]);
    RowsAppend([h[1]], [h[2]] + ([h[3]] + [h[4]]));
    RowsAppend([h[0]], [h[1]] + ([h[2]] + ([h[3]] + [h[4]])));
    UnlinesAppend([h[3]], [h[4]]);
    UnlinesAppend([h[2]], [h[3]] + [h[4]]);
    UnlinesAppend([h[1]], [h[2]] + ([h[3]] + [h[4]]));
    UnlinesAppend([h[0]], [h[1]] + ([h[2]] + ([h[3]] + [h[4]])));
  }

  lemma RowsOne(line: string)
    ensures Rows([line]) == Wrapped(line)
    ensures |line| <= 160 ==> Wrapped(line) <= 2
  {
    assert Rows([line][1..]) == 0;
  }

  lemma TransitionActFree(clock: Clock, tr: Transition, digest: string, diff: seq<string>)
    requires ValidClock(clock) && TransitionFields(tr) && ValidIdentity(digest) && ValidDiff(diff)
    ensures Free(TransitionActLines(clock, tr, digest, diff), '\n')
  {
    TransitionHeadPrintable(clock, tr, digest);
    DiffSize(diff);
    ApproveLinePrintable();
    PrintableFree(TransitionHead(clock, tr, digest), '\n');
    PrintableFree([APPROVE_LINE], '\n');
  }

  /** A full diff always fits: a checked transition with at most six valid diff
      lines and a fixed part of the budgeted widths is never refused for size. */
  lemma FullDiffFits(clock: Clock, tr: Transition, digest: string, diff: seq<string>)
    requires ValidClock(clock) && ParsedTransition(clock, TransitionText(clock, tr)).Some?
    requires ValidIdentity(digest) && ValidDiff(diff) && FixedPartFits(tr, digest)
    ensures TransitionActText(clock, tr, digest, diff).Some?
  {
    hide TransitionText, ParsedTransition, ValidIdentity, ValidDiffLine, Unlines, ByteLen, Lines, Rows, APPROVE_LINE, TransitionHead;
    CheckedTransition(clock, tr);
    var head, lines := TransitionHead(clock, tr, digest), TransitionActLines(clock, tr, digest, diff);
    HeadWidths(clock, tr, digest);
    FiveLines(head);
    DiffSize(diff);
    ApproveLinePrintable();
    TransitionHeadPrintable(clock, tr, digest);
    TransitionActFree(clock, tr, digest, diff);
    LinesUnlines(lines);
    RowsAppend(head + diff, [APPROVE_LINE]);
    RowsAppend(head, diff);
    RowsOfShortLines([APPROVE_LINE]);
    UnlinesAppend(head + diff, [APPROVE_LINE]);
    UnlinesAppend(head, diff);
    ByteLenAppend(Unlines(head) + Unlines(diff), Unlines([APPROVE_LINE]));
    ByteLenAppend(Unlines(head), Unlines(diff));
    PrintableBytes(head);
    PrintableBytes([APPROVE_LINE]);
    UnlinesOne(APPROVE_LINE);
  }

  lemma UnlinesOne(line: string)
    ensures Unlines([line]) == line + "\n"
  {
    assert Unlines([line][1..]) == "";
  }

  lemma TransitionHeadInjective(clock: Clock, tr: Transition, d: string, u: Transition, e: string)
    requires ValidClock(clock) && TransitionHead(clock, tr, d) == TransitionHead(clock, u, e)
    ensures d == e && tr.(expires := 0, nonce := "") == u.(expires := 0, nonce := "") && Seconds(tr.expires) == Seconds(u.expires)
  {
    var x, y := TransitionHead(clock, tr, d), TransitionHead(clock, u, e);
    assert x[0] == y[0] && x[1] == y[1] && x[2] == y[2] && x[3] == y[3] && x[4] == y[4];
    PrefixCancel("spinclass profile transition (escalation): ", tr.profile, u.profile);
    PrefixCancel("record: ", d, e);
    PrefixCancel("from: ", tr.oldDigest, u.oldDigest);
    PrefixCancel("to: ", tr.newDigest, u.newDigest);
    PrefixCancel("redeemable until: ", clock.format(tr.expires), clock.format(u.expires));
  }

  /** What the card signs for a transition determines everything but the nonce,
      down to each diff line, to the second. */
  lemma TransitionActTextInjective(clock: Clock, tr: Transition, d: string, diff: seq<string>,
                                   u: Transition, e: string, diff': seq<string>)
    requires ValidClock(clock) && TransitionActText(clock, tr, d, diff).Some?
    requires TransitionActText(clock, tr, d, diff) == TransitionActText(clock, u, e, diff')
    ensures d == e && diff == diff' && tr.(expires := 0, nonce := "") == u.(expires := 0, nonce := "")
    ensures Seconds(tr.expires) == Seconds(u.expires)
  {
    CheckedTransition(clock, tr);
    CheckedTransition(clock, u);
    TransitionActFree(clock, tr, d, diff);
    TransitionActFree(clock, u, e, diff');
    UnlinesInjective(TransitionActLines(clock, tr, d, diff), TransitionActLines(clock, u, e, diff'));
    PartsEqual(TransitionHead(clock, tr, d), diff, [APPROVE_LINE], TransitionHead(clock, u, e), diff', [APPROVE_LINE]);
    TransitionHeadInjective(clock, tr, d, u, e);
  }

  /** No card act is both a grant and a transition. */
  lemma ActTextsDisjoint(clock: Clock, g: Grant, d: string, tr: Transition, e: string, diff: seq<string>)
    requires ActText(clock, g, d).Some? && TransitionActText(clock, tr, e, diff).Some?
    ensures ActText(clock, g, d) != TransitionActText(clock, tr, e, diff)
  {
    var a, b := Unlines(ActLines(clock, g, d)), Unlines(TransitionActLines(clock, tr, e, diff));
    ActStart(clock, g, d);
    TransitionActStart(clock, tr, e, diff);
  }

  lemma ActStart(clock: Clock, g: Grant, d: string)
    ensures var a := Unlines(ActLines(clock, g, d)); |a| > 18 && a[18] == 'g'
  {
    hide FormPart, ActTail, PinnedLines, Names;
    ByteEighteen("grant (escalation): " + FormPart(g.widens));
    assert ActHead(g, d)[0] == "spinclass profile grant (escalation): " + FormPart(g.widens);
  }

  lemma TransitionActStart(clock: Clock, tr: Transition, e: string, diff: seq<string>)
    ensures var b := Unlines(TransitionActLines(clock, tr, e, diff)); |b| > 18 && b[18] == 't'
  {
    ByteEighteen("transition (escalation): " + tr.profile);
    assert TransitionHead(clock, tr, e)[0] == "spinclass profile transition (escalation): " + tr.profile;
  }

  lemma ByteEighteen(rest: string)
    requires rest != ""
    ensures ("spinclass profile " + rest)[18] == rest[0]
  {
  }

  // -------------------------------------------------------------- verification

  datatype TransitionRecord = TransitionRecord(digest: string, text: string, diff: seq<string>, sig: seq<bv8>)

  /** CheckTransitionRecord. */
  function CheckedRecord(clock: Clock, digestOf: string -> Option<string>, rec: TransitionRecord): Option<Transition> {
    if digestOf(rec.text) != Some(rec.digest) then None else ParsedTransition(clock, rec.text)
  }

  /** VerifyTransition, with the card's root verifier. */
  function VerifyTransition(clock: Clock, digestOf: string -> Option<string>, verifyRoot: (string, seq<bv8>) -> bool,
                                  now: int, rec: TransitionRecord): (r: Option<Transition>)
  {
    match CheckedRecord(clock, digestOf, rec)
    case None => None
    case Some(tr) =>
      if now >= tr.expires || rec.sig == [] then None
      else match TransitionActText(clock, tr, rec.digest, rec.diff)
        case None => None
        case Some(act) => if verifyRoot(act, rec.sig) then Some(tr) else None
  }

  /** A verifier for which a signature speaks for at most one text. */
  ghost predicate Binding(verifyRoot: (string, seq<bv8>) -> bool) {
    forall a, b, sig :: verifyRoot(a, sig) && verifyRoot(b, sig) ==> a == b
  }

  /** Under a binding verifier one signature approves one change: two verified
      records that carry it agree on everything, diff included, but the nonce, and
      with a collision-free digest on the nonce too. */
  lemma SignatureApprovesOneChange(clock: Clock, digestOf: string -> Option<string>,
                                   verifyRoot: (string, seq<bv8>) -> bool, now: int, now': int,
                                   rec: TransitionRecord, rec': TransitionRecord)
    requires ValidClock(clock) && Binding(verifyRoot) && rec.sig == rec'.sig
    requires VerifyTransition(clock, digestOf, verifyRoot, now, rec).Some?
    requires VerifyTransition(clock, digestOf, verifyRoot, now', rec').Some?
    ensures rec.digest == rec'.digest && rec.diff == rec'.diff
    ensures VerifyTransition(clock, digestOf, verifyRoot, now, rec).value.(nonce := "")
         == VerifyTransition(clock, digestOf, verifyRoot, now', rec').value.(nonce := "")
    ensures CollisionFree(digestOf) ==> rec == rec'
    ensures now < VerifyTransition(clock, digestOf, verifyRoot, now, rec).value.expires
  {
    var tr, tr' := CheckedRecord(clock, digestOf, rec).value, CheckedRecord(clock, digestOf, rec').value;
    TransitionActTextInjective(clock, tr, rec.digest, rec.diff, tr', rec'.digest, rec'.diff);
    TransitionParseExact(clock, rec.text, tr);
    TransitionParseExact(clock, rec'.text, tr');
    assert tr.expires == Seconds(tr.expires) * NANOS && tr'.expires == Seconds(tr'.expires) * NANOS;
  }
}
