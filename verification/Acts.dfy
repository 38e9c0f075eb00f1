/** The text an operator's card signs for a grant, and its line and character
    budgets (internal/0/profilegrant/act.go). */
module Acts {
  import opened Text
  import opened Grants
  import opened GrantText

  const MAX_ACT_LINES := 15
  const MAX_ACT_CHARS := 1200
  const ACT_FIXED_LINES := 8
  const WRAP_COLUMNS := 80

  // ---------------------------------------------------------------- rendering

  /** Lines a line takes on the prompt. */
  function Wrapped(line: string): (n: nat)
    ensures n >= 1
    ensures n == 1 <==> |line| <= WRAP_COLUMNS
  {
    var n := (|line| + WRAP_COLUMNS - 1) / WRAP_COLUMNS;
    if n < 1 then 1 else n
  }

  function Rows(lines: seq<string>): (n: nat)
    ensures n >= |lines|
  {
    if lines == [] then 0 else Wrapped(lines[0]) + Rows(lines[1..])
  }

  lemma {:induction false} RowsAppend(a: seq<string>, b: seq<string>)
    ensures Rows(a + b) == Rows(a) + Rows(b)
  {
    if a == [] {
      assert a + b == b;
    } else {
      RowsAppend(a[1..], b);
      assert (a + b)[1..] == a[1..] + b;
    }
  }

  /** renderedLines. */
  method RenderedLines(text: string) returns (total: nat)
    ensures total == Rows(Lines(text))
  {
    total := 0;
    var lines := Lines(text);
    for i := 0 to |lines|
      invariant total == Rows(lines[..i])
    {
      total := total + Wrapped(lines[i]);
      RowsAppend(lines[..i], [lines[i]]);
      assert lines[..i] + [lines[i]] == lines[..i + 1];
    }
    assert lines[..|lines|] == lines;
  }

  /** Rendered lines add up over newline-terminated texts. */
  lemma RenderedLinesAdditive(a: string, b: string)
    requires EndsInNewline(a) && EndsInNewline(b)
    ensures Rows(Lines(a + b)) == Rows(Lines(a)) + Rows(Lines(b))
  {
    UnlinesLines(a);
    UnlinesLines(b);
    UnlinesAppend(Lines(a), Lines(b));
    LinesUnlines(Lines(a) + Lines(b));
    RowsAppend(Lines(a), Lines(b));
  }

  predicate WithinBudget(text: string) {
    ByteLen(text) <= MAX_TEXT_BYTES && Rows(Lines(text)) <= MAX_ACT_LINES && |text| <= MAX_ACT_CHARS
  }

  method CheckBudget(text: string) returns (ok: bool)
    ensures ok <==> WithinBudget(text)
  {
    if ByteLen(text) > MAX_TEXT_BYTES { return false; }
    var rows := RenderedLines(text);
    return rows <= MAX_ACT_LINES && |text| <= MAX_ACT_CHARS;
  }

  // --------------------------------------------------------------- grant acts

  /** validateForAct. */
  predicate ValidForAct(g: Grant, digest: string) {
    && g.profiles != map[] && g.onward in {ONWARD_NONE, ONWARD_GRANT} && g.expires != ZERO_TIME
    && ValidIdentity(digest) && ValidIdentity(g.grantor) && ValidIdentity(g.grantee)
    && ValidIdentity(g.session) && ValidIdentity(g.widens) && ValidProfiles(g.profiles)
  }

  function SessionPart(session: string): string {
    if session == NO_VALUE then "no session" else "session " + session
  }

  function FormPart(widens: string): string {
    if widens == NO_VALUE then "initial grant" else "widening of " + widens
  }

  function OnwardPart(onward: string): string {
    if onward == ONWARD_GRANT then "yes" else "no"
  }

  function PinnedLines(names: seq<string>, profiles: map<string, string>): (lines: seq<string>)
    requires forall n | n in names :: n in profiles
    ensures |lines| == |names|
    ensures forall i | 0 <= i < |names| :: lines[i] == "  " + (names[i] + " = " + profiles[names[i]])
  {
    seq(|names|, i requires 0 <= i < |names| => "  " + (names[i] + " = " + profiles[names[i]]))
  }

  const SPAWN_LINE := "to spawn workers with these" + (" profiles, each pinned to" + " its content digest:")
  const SIGN_LINE := "Signing this is an operator" + (" grant of these rights," + " bounded as stated above.")

  function ActHead(g: Grant, digest: string): (lines: seq<string>)
    ensures |lines| == 5
  {
    [ "spinclass profile grant (escalation): " + FormPart(g.widens),
      "record: " + digest,
      "from: " + g.grantor,
      "allow: " + (g.grantee + " (" + SessionPart(g.session) + ")"),
      SPAWN_LINE]
  }

  function ActTail(clock: Clock, g: Grant): (lines: seq<string>)
    ensures |lines| == 3
  {
    [ "may pass these on: " + OnwardPart(g.onward),
      "until: " + clock.format(g.expires),
      SIGN_LINE]
  }

  function ActLines(clock: Clock, g: Grant, digest: string): seq<string> {
    ActHead(g, digest) + PinnedLines(Names(g.profiles), g.profiles) + ActTail(clock, g)
  }

  function ActText(clock: Clock, g: Grant, digest: string): (r: Option<string>) {
    var text := Unlines(ActLines(clock, g, digest));
    if ValidForAct(g, digest) && WithinBudget(text) then Some(text) else None
  }

  method CheckProfiles(profiles: map<string, string>) returns (ok: bool)
    ensures ok <==> ValidProfiles(profiles)
  {
    var rest := profiles.Keys;
    while rest != {}
      invariant rest <= profiles.Keys
      invariant forall n | n in profiles && n !in rest :: ValidIdentity(n) && ValidIdentity(profiles[n])
    {
      var n :| n in rest;
      if !ValidIdentity(n) || !ValidIdentity(profiles[n]) { return false; }
      rest := rest - {n};
    }
    return true;
  }

  method AppendPinned(head: seq<string>, names: seq<string>, profiles: map<string, string>) returns (text: string)
    requires forall n | n in names :: n in profiles
    ensures text == Unlines(head + PinnedLines(names, profiles))
  {
    ghost var pinned := PinnedLines(names, profiles);
    assert head + pinned[..0] == head;
    text := Unlines(head);
    for i := 0 to |names|
      invariant text == Unlines(head + pinned[..i])
    {
      text := text + ("  " + (names[i] + " = " + profiles[names[i]]) + "\n");
      UnlinesAppend(head + pinned[..i], [pinned[i]]);
      assert head + pinned[..i] + [pinned[i]] == head + pinned[..i + 1];
    }
    assert pinned[..|names|] == pinned;
  }

  /** ActText, appending to a builder. */
  method RenderActText(clock: Clock, g: Grant, digest: string) returns (r: Option<string>)
    ensures r == ActText(clock, g, digest)
  {
    if g.profiles == map[] || g.onward !in {ONWARD_NONE, ONWARD_GRANT} || g.expires == ZERO_TIME { return None; }
    if !ValidIdentity(digest) || !ValidIdentity(g.grantor) || !ValidIdentity(g.grantee) { return None; }
    if !ValidIdentity(g.session) || !ValidIdentity(g.widens) { return None; }
    var profilesOk := CheckProfiles(g.profiles);
    if !profilesOk { return None; }
    var names := SortNames(g.profiles.Keys);
    assert forall n | n in names :: n in Elements(names);
    var text := AppendPinned(ActHead(g, digest), names, g.profiles);
    UnlinesAppend(ActHead(g, digest) + PinnedLines(names, g.profiles), ActTail(clock, g));
    text := text + Unlines(ActTail(clock, g));
    var ok := CheckBudget(text);
    return if ok then Some(text) else None;
  }

  // ------------------------------------------------------------------ theorems

  lemma CutCancel(a: string, x: string, b: string, y: string, sep: char)
    requires sep !in a && sep !in b && a + [sep] + x == b + [sep] + y
    ensures a == b && x == y
  {
    CutExact(a + [sep] + x, sep, a, x);
    CutExact(b + [sep] + y, sep, b, y);
  }

  lemma PrefixCancel(p: string, a: string, b: string)
    requires p + a == p + b
    ensures a == b
  {
    assert (p + a)[|p|..] == a && (p + b)[|p|..] == b;
  }

  lemma FormInjective(w: string, x: string)
    requires FormPart(w) == FormPart(x)
    ensures w == x
  {
    assert FormPart(w)[0] == if w == NO_VALUE then 'i' else 'w';
    assert FormPart(x)[0] == if x == NO_VALUE then 'i' else 'w';
    if w != NO_VALUE && x != NO_VALUE { PrefixCancel("widening of ", w, x); }
  }

  lemma AllowInjective(grantee: string, session: string, grantee': string, session': string)
    requires ' ' !in grantee && ' ' !in grantee'
    requires grantee + " (" + SessionPart(session) + ")" == grantee' + " (" + SessionPart(session') + ")"
    ensures grantee == grantee' && session == session'
  {
    var p, p' := SessionPart(session), SessionPart(session');
    assert grantee + " (" + p + ")" == grantee + [' '] + ("(" + p + ")");
    assert grantee' + " (" + p' + ")" == grantee' + [' '] + ("(" + p' + ")");
    CutCancel(grantee, "(" + p + ")", grantee', "(" + p' + ")", ' ');
    assert ("(" + p + ")")[1..|p| + 1] == p && ("(" + p' + ")")[1..|p'| + 1] == p';
    assert p == p';
    assert p[0] == if session == NO_VALUE then 'n' else 's';
    assert p'[0] == if session' == NO_VALUE then 'n' else 's';
    if session != NO_VALUE && session' != NO_VALUE { PrefixCancel("session ", session, session'); }
  }

  lemma PinnedInjective(names: seq<string>, profiles: map<string, string>, names': seq<string>, profiles': map<string, string>)
    requires (forall n | n in names :: n in profiles) && (forall n | n in names' :: n in profiles')
    requires (forall n | n in names :: ' ' !in n) && (forall n | n in names' :: ' ' !in n)
    requires PinnedLines(names, profiles) == PinnedLines(names', profiles')
    ensures names == names' && forall n | n in names :: profiles[n] == profiles'[n]
  {
    forall i | 0 <= i < |names| ensures names[i] == names'[i] && profiles[names[i]] == profiles'[names'[i]] {
      var n, d, n', d' := names[i], profiles[names[i]], names'[i], profiles'[names'[i]];
      assert PinnedLines(names, profiles)[i] == PinnedLines(names', profiles')[i];
      PrefixCancel("  ", n + " = " + d, n' + " = " + d');
      assert n + " = " + d == n + [' '] + ("= " + d) && n' + " = " + d' == n' + [' '] + ("= " + d');
      CutCancel(n, "= " + d, n', "= " + d', ' ');
      PrefixCancel("= ", d, d');
    }
  }

  lemma PrintableAppend(a: string, b: string)
    requires Printable(a) && Printable(b)
    ensures Printable(a + b)
  {
  }

  lemma SpawnLinePrintable()
    ensures Printable(SPAWN_LINE)
  {
    PrintableAppend(" profiles, each pinned to", " its content digest:");
    PrintableAppend("to spawn workers with these", " profiles, each pinned to" + " its content digest:");
  }

  lemma SignLinePrintable()
    ensures Printable(SIGN_LINE)
  {
    PrintableAppend(" grant of these rights,", " bounded as stated above.");
    PrintableAppend("Signing this is an operator", " grant of these rights," + " bounded as stated above.");
  }

  lemma SessionPrintable(session: string)
    requires Printable(session)
    ensures Printable(SessionPart(session))
  {
    PrintableAppend("session ", session);
  }

  lemma FormPrintable(widens: string)
    requires Printable(widens)
    ensures Printable(FormPart(widens))
  {
    PrintableAppend("widening of ", widens);
  }

  lemma HeadPrintable(g: Grant, digest: string)
    requires Printable(digest) && Printable(g.grantor) && Printable(g.grantee) && Printable(g.session) && Printable(g.widens)
    ensures AllPrintable(ActHead(g, digest))
  {
    hide FormPart, SessionPart;
    SpawnLinePrintable();
    SessionPrintable(g.session);
    FormPrintable(g.widens);
    PrintableAppend("spinclass profile grant (escalation): ", FormPart(g.widens));
    PrintableAppend("record: ", digest);
    PrintableAppend("from: ", g.grantor);
    PrintableAppend(g.grantee, " (");
    PrintableAppend(g.grantee + " (", SessionPart(g.session));
    PrintableAppend(g.grantee + " (" + SessionPart(g.session), ")");
    PrintableAppend("allow: ", g.grantee + " (" + SessionPart(g.session) + ")");
  }

  lemma TailPrintable(clock: Clock, g: Grant)
    requires ValidClock(clock)
    ensures AllPrintable(ActTail(clock, g))
  {
    SignLinePrintable();
    DateGood(clock, g.expires);
    PrintableAppend("may pass these on: ", OnwardPart(g.onward));
    PrintableAppend("until: ", clock.format(g.expires));
  }

  lemma PinnedPrintable(names: seq<string>, profiles: map<string, string>)
    requires ValidProfiles(profiles) && forall n | n in names :: n in profiles
    ensures AllPrintable(PinnedLines(names, profiles))
    ensures forall n | n in names :: ' ' !in n
  {
    forall i | 0 <= i < |names| ensures Printable(PinnedLines(names, profiles)[i]) && ' ' !in names[i] {
      assert names[i] in names;
      IdentityPrintable(names[i]);
      IdentityPrintable(profiles[names[i]]);
      PrintableAppend(names[i], " = ");
    }
  }

  lemma ActLinesPrintable(clock: Clock, g: Grant, digest: string)
    requires ValidClock(clock) && ValidForAct(g, digest)
    ensures Free(ActLines(clock, g, digest), '\n')
    ensures forall n | n in Names(g.profiles) :: ' ' !in n
  {
    IdentityPrintable(digest);
    IdentityPrintable(g.grantor);
    IdentityPrintable(g.grantee);
    IdentityPrintable(g.session);
    IdentityPrintable(g.widens);
    HeadPrintable(g, digest);
    PinnedPrintable(Names(g.profiles), g.profiles);
    TailPrintable(clock, g);
    PrintableFree(ActLines(clock, g, digest), '\n');
  }

  lemma PartsEqual<T>(a: seq<T>, b: seq<T>, c: seq<T>, a': seq<T>, b': seq<T>, c': seq<T>)
    requires a + b + c == a' + b' + c' && |a| == |a'| && |c| == |c'|
    ensures a == a' && b == b' && c == c'
  {
    var s, s' := a + b + c, a' + b' + c';
    assert a == s[..|a|] && a' == s'[..|a|];
    assert b == s[|a|..|a| + |b|] && b' == s'[|a|..|a| + |b|];
    assert c == s[|a| + |b|..] && c' == s'[|a| + |b|..];
  }

  lemma HeadInjective(g: Grant, d: string, h: Grant, e: string)
    requires ' ' !in g.grantee && ' ' !in h.grantee && ActHead(g, d) == ActHead(h, e)
    ensures d == e && g.grantor == h.grantor && g.grantee == h.grantee && g.session == h.session && g.widens == h.widens
  {
    var x, y := ActHead(g, d), ActHead(h, e);
    assert x[0] == y[0] && x[1] == y[1] && x[2] == y[2] && x[3] == y[3];
    PrefixCancel("spinclass profile grant (escalation): ", FormPart(g.widens), FormPart(h.widens));
    FormInjective(g.widens, h.widens);
    PrefixCancel("record: ", d, e);
    PrefixCancel("from: ", g.grantor, h.grantor);
    PrefixCancel("allow: ", g.grantee + " (" + SessionPart(g.session) + ")", h.grantee + " (" + SessionPart(h.session) + ")");
    AllowInjective(g.grantee, g.session, h.grantee, h.session);
  }

  lemma TailInjective(clock: Clock, g: Grant, h: Grant)
    requires ValidClock(clock) && ActTail(clock, g) == ActTail(clock, h)
    requires g.onward in {ONWARD_NONE, ONWARD_GRANT} && h.onward in {ONWARD_NONE, ONWARD_GRANT}
    ensures g.onward == h.onward && Seconds(g.expires) == Seconds(h.expires)
  {
    var x, y := ActTail(clock, g), ActTail(clock, h);
    assert x[0] == y[0] && x[1] == y[1];
    PrefixCancel("may pass these on: ", OnwardPart(g.onward), OnwardPart(h.onward));
    assert "yes" != "no" by { assert |"yes"| == 3 && |"no"| == 2; }
    PrefixCancel("until: ", clock.format(g.expires), clock.format(h.expires));
  }

  /** What the card signs determines everything in the grant but its nonce and
      prev, to the second. */
  lemma ActTextInjective(clock: Clock, g: Grant, d: string, h: Grant, e: string)
    requires ValidClock(clock)
    requires ActText(clock, g, d).Some? && ActText(clock, g, d) == ActText(clock, h, e)
    ensures d == e && g.(expires := 0, nonce := "", prev := "") == h.(expires := 0, nonce := "", prev := "")
    ensures Seconds(g.expires) == Seconds(h.expires)
  {
    ActLinesPrintable(clock, g, d);
    ActLinesPrintable(clock, h, e);
    UnlinesInjective(ActLines(clock, g, d), ActLines(clock, h, e));
    var m, n := Names(g.profiles), Names(h.profiles);
    PartsEqual(ActHead(g, d), PinnedLines(m, g.profiles), ActTail(clock, g), ActHead(h, e), PinnedLines(n, h.profiles), ActTail(clock, h));
    IdentityPrintable(g.grantee);
    IdentityPrintable(h.grantee);
    HeadInjective(g, d, h, e);
    PinnedInjective(m, g.profiles, n, h.profiles);
    TailInjective(clock, g, h);
    assert forall p :: p in g.profiles <==> p in Elements(m);
    assert g.profiles == h.profiles;
  }

  /** Every act text obeys both budgets, so it pins at most seven profiles. */
  lemma ActTextBudget(clock: Clock, g: Grant, d: string)
    requires ValidClock(clock) && ActText(clock, g, d).Some?
    ensures var text := ActText(clock, g, d).value;
      ByteLen(text) <= 4096 && Rows(Lines(text)) <= 15 && |text| <= 1200
    ensures |g.profiles| <= 7
  {
    ActLinesPrintable(clock, g, d);
    var lines := ActLines(clock, g, d);
    LinesUnlines(lines);
    AscendingSize(Names(g.profiles));
    assert |g.profiles| == |g.profiles.Keys|;
  }

  /** An ascending list has as many entries as names. */
  lemma {:induction false} AscendingSize(names: seq<string>)
    requires Ascending(names)
    ensures |names| == |Elements(names)|
  {
    if names != [] {
      AscendingTail(names);
      AscendingSize(names[1..]);
      assert names == [names[0]] + names[1..];
      assert Elements(names) == {names[0]} + Elements(names[1..]);
    }
  }
}
