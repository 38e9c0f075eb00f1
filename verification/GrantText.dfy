/** The strict parser and the canonical rendering of a grant are inverse. */
module GrantText {
  import opened Text
  import opened Grants

  // ------------------------------------------------------- printable characters

  predicate Printable(s: string) {
    forall c | c in s :: ' ' <= c <= '~'
  }

  ghost predicate AllPrintable(lines: seq<string>) {
    forall i | 0 <= i < |lines| :: Printable(lines[i])
  }

  lemma PrintableFree(lines: seq<string>, sep: char)
    requires AllPrintable(lines) && (sep < ' ' || sep > '~')
    ensures Free(lines, sep)
  {
  }

  lemma IdentityPrintable(v: string)
    requires ValidIdentity(v)
    ensures Printable(v) && Trimmed(v) && ' ' !in v && '=' !in v && '\n' !in v
    ensures RuneBytes(v[0]) == 1
  {
    assert v[0] in v && v[|v| - 1] in v;
  }

  lemma {:induction false} JoinPrintable(parts: seq<string>, sep: char)
    requires AllPrintable(parts) && ' ' <= sep <= '~'
    ensures Printable(Join(parts, sep))
  {
    if |parts| > 1 {
      JoinPrintable(parts[1..], sep);
    }
  }

  lemma {:induction false} JoinEnds(parts: seq<string>, sep: char)
    requires |parts| >= 1 && forall i | 0 <= i < |parts| :: parts[i] != ""
    ensures var s := Join(parts, sep);
            && s != "" && s[0] == parts[0][0]
            && s[|s| - 1] == parts[|parts| - 1][|parts[|parts| - 1]| - 1]
  {
    if |parts| > 1 {
      JoinEnds(parts[1..], sep);
    }
  }

  lemma {:induction false} UnlinesNoControl(lines: seq<string>)
    requires AllPrintable(lines)
    ensures forall c | c in Unlines(lines) :: !ControlRune(c)
  {
    if lines != [] {
      UnlinesNoControl(lines[1..]);
      assert Printable(lines[0]);
    }
  }

  // ------------------------------------------------------------ profile fields

  lemma FieldParses(name: string, digest: string, previous: string)
    requires ValidIdentity(name) && ValidIdentity(digest) && Less(previous, name)
    ensures ParseField(name + "=" + digest, previous) == Some((name, digest))
  {
    IdentityPrintable(name);
    CutExact(name + "=" + digest, '=', name, digest);
  }

  /** The map read from entries with these names, on top of what was seen before. */
  ghost function Added(seen: map<string, string>, names: seq<string>, profiles: map<string, string>): (r: map<string, string>)
    requires forall n | n in names :: n in profiles
    ensures forall n :: n in r <==> n in seen || n in names
    ensures forall n | n in r :: r[n] == if n in names then profiles[n] else seen[n]
    decreases names
  {
    if names == [] then seen else
      assert names == [names[0]] + names[1..];
      Added(seen[names[0] := profiles[names[0]]], names[1..], profiles)
  }

  /** Rendered profile entries parse back, whatever was read before them. */
  lemma {:induction false} FieldsParse(names: seq<string>, profiles: map<string, string>, previous: string,
                                       seen: map<string, string>)
    requires Ascending(names) && ValidProfiles(profiles)
    requires forall n | n in names :: n in profiles && Less(previous, n)
    ensures ParseFields(Fields(names, profiles), previous, seen) == Some(Added(seen, names, profiles))
  {
    if names != [] {
      var n, rest := names[0], names[1..];
      assert n in names;
      FieldParses(n, profiles[n], previous);
      AscendingTail(names);
      FieldsParse(rest, profiles, n, seen[n := profiles[n]]);
      assert Fields(names, profiles)[1..] == Fields(rest, profiles);
    }
  }

  ghost predicate Renders(names: seq<string>, fields: seq<string>, r: map<string, string>) {
    && (forall n | n in names :: n in r && ValidIdentity(n) && ValidIdentity(r[n]))
    && fields == Fields(names, r)
  }

  /** Parsed profile entries are exactly the rendering of some ascending names. */
  lemma {:induction false} FieldsRender(fields: seq<string>, previous: string, seen: map<string, string>)
      returns (names: seq<string>)
    requires ParseFields(fields, previous, seen).Some?
    ensures Ascending(names) && forall n | n in names :: Less(previous, n)
    ensures Renders(names, fields, ParseFields(fields, previous, seen).value)
    ensures ParseFields(fields, previous, seen).value == Added(seen, names, ParseFields(fields, previous, seen).value)
  {
    if fields == [] {
      names := [];
    } else {
      var r := ParseFields(fields, previous, seen).value;
      var (name, digest) := ParseField(fields[0], previous).value;
      var rest := FieldsRender(fields[1..], name, seen[name := digest]);
      names := [name] + rest;
      assert name !in rest by { LessTotal(name, name); }
      assert r[name] == digest;
      FieldsRenderOne(fields, previous, name, digest, rest, r);
      assert names[1..] == rest;
    }
  }

  lemma FieldsRenderOne(fields: seq<string>, previous: string, name: string, digest: string, rest: seq<string>,
                        r: map<string, string>)
    requires fields != [] && ParseField(fields[0], previous) == Some((name, digest))
    requires Ascending(rest) && (forall n | n in rest :: Less(name, n)) && Renders(rest, fields[1..], r)
    requires name in r && r[name] == digest
    ensures var names := [name] + rest;
            Ascending(names) && (forall n | n in names :: Less(previous, n)) && Renders(names, fields, r)
  {
    hide ValidIdentity, Less, Ascending, Cut;
    CutExact(fields[0], '=', name, digest);
    forall n | n in rest ensures Less(previous, n) {
      LessTransitive(previous, name, n);
    }
    AscendingCons(name, rest);
    FieldsCons(name, rest, r);
    assert fields == [fields[0]] + fields[1..];
  }

  lemma FieldsCons(name: string, rest: seq<string>, r: map<string, string>)
    requires name in r && forall n | n in rest :: n in r
    ensures Fields([name] + rest, r) == [name + "=" + r[name]] + Fields(rest, r)
  {
  }

  lemma FieldsFree(names: seq<string>, profiles: map<string, string>)
    requires ValidProfiles(profiles) && forall n | n in names :: n in profiles
    ensures Free(Fields(names, profiles), ' ')
  {
    hide ValidIdentity;
    forall i | 0 <= i < |names| ensures ' ' !in Fields(names, profiles)[i] {
      assert names[i] in names;
      IdentityPrintable(names[i]);
      IdentityPrintable(profiles[names[i]]);
    }
  }

  lemma ProfilesParse(profiles: map<string, string>)
    requires profiles != map[] && ValidProfiles(profiles)
    ensures var fields := Fields(Names(profiles), profiles);
            && |fields| >= 1 && Free(fields, ' ')
            && ParseFields(Split(Join(fields, ' '), ' '), "", map[]) == Some(profiles)
  {
    hide Join, Split, ParseFields, Names, ValidIdentity, ValidProfiles;
    var names := Names(profiles);
    var fields := Fields(names, profiles);
    assert Elements(names) != {};
    FieldsFree(names, profiles);
    SplitJoin(fields, ' ');
    NamesParse(names, profiles);
    AddedAll(names, profiles);
  }

  lemma NamesParse(names: seq<string>, profiles: map<string, string>)
    requires Ascending(names) && ValidProfiles(profiles) && forall n | n in names :: n in profiles
    ensures ParseFields(Fields(names, profiles), "", map[]) == Some(Added(map[], names, profiles))
  {
    hide ParseFields, Ascending;
    assert forall n | n in names :: n != "" && Less("", n);
    FieldsParse(names, profiles, "", map[]);
  }

  lemma AddedAll(names: seq<string>, profiles: map<string, string>)
    requires Elements(names) == profiles.Keys && forall n | n in names :: n in profiles
    ensures Added(map[], names, profiles) == profiles
  {
    hide Added;
    assert forall n :: n in names <==> n in Elements(names);
  }

  lemma ProfilesRender(value: string)
    requires ParseFields(Split(value, ' '), "", map[]).Some?
    ensures var r := ParseFields(Split(value, ' '), "", map[]).value;
            r != map[] && ValidProfiles(r) && value == Join(Fields(Names(r), r), ' ')
  {
    var r := ParseFields(Split(value, ' '), "", map[]).value;
    var names := FieldsRender(Split(value, ' '), "", map[]);
    assert names[0] in names;
    assert Elements(names) == r.Keys;
    AscendingUnique(names, Names(r));
    JoinSplit(value, ' ');
  }

  // ------------------------------------------------------------ canonical lines

  /** Well formed but for a fraction of a second in the expiry. */
  ghost predicate FieldsWellFormed(g: Grant) {
    WellFormed(g.(expires := Seconds(g.expires) * NANOS)) && Renderable(g.expires)
  }

  /** A value as the parser wants it on a line. */
  predicate GoodValue(v: string) {
    v != "" && Printable(v) && Trimmed(v)
  }

  lemma ListValueGood(parts: seq<string>)
    requires |parts| >= 1 && forall i | 0 <= i < |parts| :: GoodValue(parts[i])
    ensures GoodValue(Join(parts, ' '))
  {
    JoinPrintable(parts, ' ');
    JoinEnds(parts, ' ');
  }

  lemma EntryGood(prefix: string, name: string, infix: string, digest: string)
    requires ValidIdentity(name) && (digest == "" || ValidIdentity(digest))
    requires Printable(prefix) && Trimmed(prefix) && Printable(infix) && (digest == "" ==> infix == "")
    ensures GoodValue(prefix + name + infix + digest)
  {
    IdentityPrintable(name);
    if digest != "" { IdentityPrintable(digest); }
  }

  lemma FieldGood(name: string, digest: string)
    requires ValidIdentity(name) && ValidIdentity(digest)
    ensures GoodValue(name + "=" + digest)
  {
    EntryGood("", name, "=", digest);
    assert "" + name + "=" + digest == name + "=" + digest;
  }

  lemma RightGood(name: string)
    requires ValidIdentity(name)
    ensures GoodValue(RIGHT_PREFIX + name)
  {
    assert Printable(RIGHT_PREFIX) && Trimmed(RIGHT_PREFIX);
    EntryGood(RIGHT_PREFIX, name, "", "");
    assert RIGHT_PREFIX + name + "" + "" == RIGHT_PREFIX + name;
  }

  lemma ProfileValuesGood(profiles: map<string, string>)
    requires profiles != map[] && ValidProfiles(profiles)
    ensures GoodValue(Join(Fields(Names(profiles), profiles), ' '))
    ensures GoodValue(Join(Rights(Names(profiles)), ' '))
  {
    hide ValidIdentity, GoodValue, Join, Split, ParseFields, Ascending;
    var names := Names(profiles);
    ProfilesParse(profiles);
    forall i | 0 <= i < |names| ensures GoodValue(Fields(names, profiles)[i]) && GoodValue(Rights(names)[i]) {
      assert names[i] in names;
      FieldGood(names[i], profiles[names[i]]);
      RightGood(names[i]);
    }
    ListValueGood(Fields(names, profiles));
    ListValueGood(Rights(names));
  }

  lemma DateGood(clock: Clock, t: int)
    requires ValidClock(clock)
    ensures GoodValue(clock.format(t))
  {
    var date := clock.format(t);
    assert date[0] in date && date[|date| - 1] in date;
  }

  /** A value fit for the line with this key. */
  predicate Fits(key: string, v: string) {
    GoodValue(v) && (CheckedStructurally(key) || ValidIdentity(v))
  }

  ghost predicate AllFit(keys: seq<string>, v: seq<string>) {
    |keys| == |v| && forall i | 0 <= i < |v| :: Fits(keys[i], v[i])
  }

  lemma ValuesFit(clock: Clock, g: Grant)
    requires ValidClock(clock) && FieldsWellFormed(g)
    ensures AllFit(LINE_KEYS, Values(clock, g))
  {
    hide Join, Less, Ascending, Sorted, Names;
    ProfileValuesGood(g.profiles);
    DateGood(clock, g.expires);
    IdentityPrintable(g.grantor);
    IdentityPrintable(g.grantee);
    IdentityPrintable(g.session);
    IdentityPrintable(g.nonce);
    IdentityPrintable(g.widens);
    IdentityPrintable(g.prev);
  }

  /** Any header and key: value lines read back as written. */
  lemma BodyReads(header: string, keys: seq<string>, v: seq<string>)
    requires Printable(header) && AllPrintable(keys) && AllFit(keys, v)
    ensures var s := Unlines([header] + Body(keys, v));
            && EndsInNewline(s) && Lines(s) == [header] + Body(keys, v)
            && (forall c | c in s :: !ControlRune(c))
    ensures BodyOk(keys, Body(keys, v)) && ValuesOf(keys, Body(keys, v)) == v
  {
    var body := Body(keys, v);
    forall i | 0 <= i < |body| ensures Printable(body[i]) && LineOk(keys[i], body[i]) && ValueOf(keys[i], body[i]) == v[i] {
      assert body[i] == keys[i] + ": " + v[i];
      assert body[i][|keys[i]| + 2..] == v[i];
      assert Fits(keys[i], v[i]);
    }
    PrintableFree([header] + body, '\n');
    LinesUnlines([header] + body);
    UnlinesNoControl([header] + body);
  }

  lemma KeysPrintable()
    ensures AllPrintable(LINE_KEYS) && Printable(HEADER)
  {
  }

  lemma CanonicalLines(clock: Clock, g: Grant)
    requires ValidClock(clock) && FieldsWellFormed(g)
    ensures var s := CanonicalText(clock, g);
            && EndsInNewline(s) && Lines(s) == [HEADER] + Body(LINE_KEYS, Values(clock, g))
            && (forall c | c in s :: !ControlRune(c))
    ensures BodyOk(LINE_KEYS, Body(LINE_KEYS, Values(clock, g)))
    ensures ValuesOf(LINE_KEYS, Body(LINE_KEYS, Values(clock, g))) == Values(clock, g)
  {
    ValuesFit(clock, g);
    KeysPrintable();
    BodyReads(HEADER, LINE_KEYS, Values(clock, g));
  }

  // ----------------------------------------------------------------- theorems

  lemma ValuesRead(clock: Clock, g: Grant)
    requires ValidClock(clock) && WellFormed(g)
    ensures ParseValues(clock, Values(clock, g)) == Some(g)
  {
    hide ParseFields, Split, Join, Ascending, ValidIdentity;
    ProfilesParse(g.profiles);
    assert clock.parse(clock.format(g.expires)) == Some(Seconds(g.expires) * NANOS);
  }

  /** Reading: every well-formed grant whose text fits parses back to itself. */
  lemma ParseReadsCanonical(clock: Clock, g: Grant)
    requires ValidClock(clock) && WellFormed(g) && ByteLen(CanonicalText(clock, g)) <= MAX_TEXT_BYTES
    ensures ParsedText(clock, CanonicalText(clock, g)) == Some(g)
  {
    hide ParseValues, Values, CanonicalText, BodyOk, ValidIdentity, Lines;
    assert g.(expires := Seconds(g.expires) * NANOS) == g;
    CanonicalLines(clock, g);
    ValuesRead(clock, g);
    assert Lines(CanonicalText(clock, g))[1..] == Body(LINE_KEYS, Values(clock, g));
  }

  /** What passes every check before the last one is well formed but for a fraction of a second. */
  lemma ValuesWellFormed(clock: Clock, v: seq<string>)
    requires ValidClock(clock) && AllLineOk(LINE_KEYS, v) && ParseValues(clock, v).Some?
    ensures var g := ParseValues(clock, v).value;
            FieldsWellFormed(g) && Values(clock, g) == v[6 := clock.format(g.expires)]
  {
    hide ParseFields, Split, Join, Ascending, ValidIdentity;
    ProfilesRender(v[3]);
    assert !CheckedStructurally(LINE_KEYS[0]) && !CheckedStructurally(LINE_KEYS[1]) && !CheckedStructurally(LINE_KEYS[2]);
    assert !CheckedStructurally(LINE_KEYS[7]) && !CheckedStructurally(LINE_KEYS[8]) && !CheckedStructurally(LINE_KEYS[9]);
  }

  ghost predicate AllLineOk(keys: seq<string>, v: seq<string>) {
    |keys| == |v| && forall i | 0 <= i < |v| :: CheckedStructurally(keys[i]) || ValidIdentity(v[i])
  }

  lemma BodyIsRendered(keys: seq<string>, body: seq<string>)
    requires BodyOk(keys, body)
    ensures body == Body(keys, ValuesOf(keys, body)) && AllLineOk(keys, ValuesOf(keys, body))
  {
    forall i | 0 <= i < |body| ensures body[i] == Body(keys, ValuesOf(keys, body))[i] {
      assert LineOk(keys[i], body[i]);
    }
  }

  /** The closing comparison with the canonical text refuses exactly the texts
      that spell the expiry instant in another way. */
  lemma LastCheckIsAboutTheExpiry(clock: Clock, s: string)
    requires ValidClock(clock) && EndsInNewline(s) && Lines(s)[0] == HEADER && BodyOk(LINE_KEYS, Lines(s)[1..])
    requires ParseValues(clock, ValuesOf(LINE_KEYS, Lines(s)[1..])).Some?
    ensures var v := ValuesOf(LINE_KEYS, Lines(s)[1..]);
            var g := ParseValues(clock, v).value;
            && FieldsWellFormed(g)
            && (CanonicalText(clock, g) == s <==> v[6] == clock.format(g.expires))
  {
    hide Values, ParseValues, BodyOk, ValidIdentity, Lines;
    var v := ValuesOf(LINE_KEYS, Lines(s)[1..]);
    var g := ParseValues(clock, v).value;
    BodyIsRendered(LINE_KEYS, Lines(s)[1..]);
    ValuesWellFormed(clock, v);
    CanonicalLines(clock, g);
    UnlinesLines(s);
    assert Lines(s) == [HEADER] + Body(LINE_KEYS, v);
    if v[6] == clock.format(g.expires) {
      assert Values(clock, g) == v;
    }
  }

  /** The parser is exact: a text is accepted as g iff it is the canonical text
      of g, g is well formed, and the text is within the size limit. */
  lemma ParseExact(clock: Clock, s: string, g: Grant)
    requires ValidClock(clock)
    ensures ParsedText(clock, s) == Some(g)
       <==> WellFormed(g) && s == CanonicalText(clock, g) && ByteLen(s) <= 4096
  {
    if ParsedText(clock, s) == Some(g) {
      LastCheckIsAboutTheExpiry(clock, s);
      assert clock.parse(clock.format(g.expires)) == Some(Seconds(g.expires) * NANOS);
      assert g.(expires := Seconds(g.expires) * NANOS) == g;
    } else if WellFormed(g) && s == CanonicalText(clock, g) && ByteLen(s) <= MAX_TEXT_BYTES {
      ParseReadsCanonical(clock, g);
    }
  }

  /** Two well-formed grants never share a canonical text, so a digest of the
      text names one grant, whatever its size. */
  lemma CanonicalTextInjective(clock: Clock, g: Grant, h: Grant)
    requires ValidClock(clock) && WellFormed(g) && WellFormed(h)
    requires CanonicalText(clock, g) == CanonicalText(clock, h)
    ensures g == h
  {
    assert g.(expires := Seconds(g.expires) * NANOS) == g && h.(expires := Seconds(h.expires) * NANOS) == h;
    CanonicalLines(clock, g);
    CanonicalLines(clock, h);
    var v, w := Values(clock, g), Values(clock, h);
    assert v == w;
    ProfilesParse(g.profiles);
    ProfilesParse(h.profiles);
    assert v[3] == w[3];
    assert Some(g.profiles) == Some(h.profiles);
    assert v[6] == w[6];
    assert v[0] == w[0] && v[1] == w[1] && v[2] == w[2] && v[5] == w[5] && v[7] == w[7] && v[8] == w[8] && v[9] == w[9];
  }
}
