/** Grant records: the canonical text, its strict parser, and the proof that the
    two are inverse (internal/0/profilegrant/grant.go). */
module Grants {
  import opened Text

  const HEADER := "spinclass profile-grant v1"
  const RIGHT_PREFIX := "spinclass:profile:"
  const NO_VALUE := "-"
  const MAX_TEXT_BYTES := 4096
  const LINE_KEYS := [
    "grantor", "grantee", "session", "profiles", "rights",
    "onward", "expires", "nonce", "widens", "prev"]

  const ONWARD_NONE := "none"
  const ONWARD_GRANT := "grant"

  // -------------------------------------------------------------------- time

  /** Instants are nanoseconds since the Unix epoch. */
  const NANOS := 1_000_000_000
  /** time.Time's zero value, the start of year 1. */
  const ZERO_TIME := -62_135_596_800 * NANOS
  /** The years 0000 to 9999 that a four-digit layout can carry. */
  const FIRST_SECOND := -62_167_219_200
  const LAST_SECOND := 253_402_300_799

  function Seconds(t: int): int { t / NANOS }

  predicate Renderable(t: int) {
    FIRST_SECOND <= Seconds(t) <= LAST_SECOND
  }

  predicate WholeSecond(t: int) {
    t % NANOS == 0
  }

  /** Time.UTC().Format and time.Parse under the one layout the package uses. */
  datatype Clock = Clock(format: int -> string, parse: string -> Option<int>)

  predicate ClockRune(c: char) {
    '0' <= c <= '9' || c in "-:TZ"
  }

  /** What the calendar is trusted for: formatting drops the fraction of a second
      and nothing else, and parsing reads a formatted instant back. A parser may
      accept other spellings too, as Go's accepts fractional seconds. */
  ghost predicate ValidClock(clock: Clock) {
    && (forall t :: clock.format(t) != "" && forall c | c in clock.format(t) :: ClockRune(c))
    && (forall t, u :: clock.format(t) == clock.format(u) <==> Seconds(t) == Seconds(u))
    && (forall t | Renderable(t) :: |clock.format(t)| == 20 && clock.parse(clock.format(t)) == Some(Seconds(t) * NANOS))
    && (forall s :: clock.parse(s).Some? ==> Renderable(clock.parse(s).value))
  }

  // ------------------------------------------------------------------ records

  datatype Grant = Grant(
    grantor: string, grantee: string, session: string, profiles: map<string, string>,
    onward: string, expires: int, nonce: string, widens: string, prev: string)

  predicate IdentityRune(c: char) {
    'a' <= c <= 'z' || 'A' <= c <= 'Z' || '0' <= c <= '9' || c in "._:/@+-"
  }

  /** checkIdentityValue. */
  predicate ValidIdentity(v: string) {
    v != "" && forall c | c in v :: IdentityRune(c)
  }

  predicate ValidProfiles(profiles: map<string, string>) {
    forall n | n in profiles :: ValidIdentity(n) && ValidIdentity(profiles[n])
  }

  /** The grants whose canonical text the parser promises to read back. */
  predicate WellFormed(g: Grant) {
    && ValidIdentity(g.grantor) && ValidIdentity(g.grantee) && ValidIdentity(g.session)
    && ValidIdentity(g.nonce) && ValidIdentity(g.widens) && ValidIdentity(g.prev)
    && g.profiles != map[] && ValidProfiles(g.profiles)
    && g.onward in {ONWARD_NONE, ONWARD_GRANT}
    && Renderable(g.expires) && WholeSecond(g.expires)
  }

  // ---------------------------------------------------------------- rendering

  function Fields(names: seq<string>, profiles: map<string, string>): (r: seq<string>)
    requires forall n | n in names :: n in profiles
    ensures |r| == |names|
    ensures forall i | 0 <= i < |names| :: r[i] == names[i] + "=" + profiles[names[i]]
  {
    seq(|names|, i requires 0 <= i < |names| => names[i] + "=" + profiles[names[i]])
  }

  function Rights(names: seq<string>): (r: seq<string>)
    ensures |r| == |names|
    ensures forall i | 0 <= i < |names| :: r[i] == RIGHT_PREFIX + names[i]
  {
    seq(|names|, i requires 0 <= i < |names| => RIGHT_PREFIX + names[i])
  }

  function Names(profiles: map<string, string>): (names: seq<string>)
    ensures Ascending(names) && Elements(names) == profiles.Keys
    ensures forall n | n in names :: n in profiles
  {
    var names := Sorted(profiles.Keys);
    assert forall n | n in names :: n in Elements(names);
    names
  }

  /** The value after "key: " on each body line, in the order of LINE_KEYS. */
  function Values(clock: Clock, g: Grant): (v: seq<string>)
    ensures |v| == |LINE_KEYS|
  {
    var names := Names(g.profiles);
    [ g.grantor, g.grantee, g.session, Join(Fields(names, g.profiles), ' '), Join(Rights(names), ' '),
      g.onward, clock.format(g.expires), g.nonce, g.widens, g.prev]
  }

  function Body(keys: seq<string>, values: seq<string>): (lines: seq<string>)
    requires |keys| == |values|
    ensures |lines| == |keys|
    ensures forall i | 0 <= i < |keys| :: lines[i] == keys[i] + ": " + values[i]
  {
    seq(|keys|, i requires 0 <= i < |keys| => keys[i] + ": " + values[i])
  }

  function CanonicalText(clock: Clock, g: Grant): string {
    Unlines([HEADER] + Body(LINE_KEYS, Values(clock, g)))
  }

  method ProfileFields(names: seq<string>, profiles: map<string, string>) returns (fields: seq<string>)
    requires forall n | n in names :: n in profiles
    ensures fields == Fields(names, profiles)
  {
    fields := [];
    for i := 0 to |names|
      invariant fields == Fields(names[..i], profiles)
    {
      fields := fields + [names[i] + "=" + profiles[names[i]]];
    }
    assert names[..|names|] == names;
  }

  /** Grant.CanonicalText, writing one line after the other into a builder. */
  method RenderCanonicalText(clock: Clock, g: Grant) returns (text: string)
    ensures text == CanonicalText(clock, g)
  {
    hide Unlines, Join, Body, Fields, Rights;
    var names := SortNames(g.profiles.Keys);
    assert names == Names(g.profiles);
    var profiles := ProfileFields(names, g.profiles);
    var values := [ g.grantor, g.grantee, g.session, Join(profiles, ' '), Join(Rights(names), ' '),
                    g.onward, clock.format(g.expires), g.nonce, g.widens, g.prev];
    assert values == Values(clock, g);
    text := WriteBody(HEADER, LINE_KEYS, values);
  }

  /** The header line, then a "key: value" line for each key. */
  method WriteBody(header: string, keys: seq<string>, values: seq<string>) returns (text: string)
    requires |keys| == |values|
    ensures text == Unlines([header] + Body(keys, values))
  {
    ghost var body := Body(keys, values);
    text := header + "\n";
    assert text == Unlines([header]) && [header] + body[..0] == [header];
    for i := 0 to |keys|
      invariant text == Unlines([header] + body[..i])
    {
      text := text + (keys[i] + ": " + values[i] + "\n");
      UnlinesAppend([header] + body[..i], [body[i]]);
      assert [header] + body[..i] + [body[i]] == [header] + body[..i + 1];
    }
    assert body[..|keys|] == body;
  }

  // ------------------------------------------------------------------ parsing

  /** strings.Cut at the first separator. */
  function Cut(s: string, sep: char): (r: Option<(string, string)>) {
    if s == "" then None
    else if s[0] == sep then Some(("", s[1..]))
    else match Cut(s[1..], sep)
      case None => None
      case Some((before, after)) => Some(([s[0]] + before, after))
  }

  lemma {:induction false} CutExact(s: string, sep: char, before: string, after: string)
    ensures Cut(s, sep) == Some((before, after)) <==> sep !in before && s == before + [sep] + after
  {
    if s == "" {
    } else if s[0] == sep {
      if s == before + [sep] + after && before != "" {
        assert s[0] == before[0];
      }
      if before == "" {
        assert (before + [sep] + after)[1..] == after && s == [sep] + s[1..];
      }
    } else {
      if before == "" {
        assert (before + [sep] + after)[0] == sep;
      } else {
        CutExact(s[1..], sep, before[1..], after);
        assert before == [before[0]] + before[1..];
        assert s == [s[0]] + s[1..];
        assert (before + [sep] + after)[1..] == before[1..] + [sep] + after;
        if s == before + [sep] + after {
          assert s[1..] == before[1..] + [sep] + after;
        }
      }
    }
  }

  /** One "name=digest" field that may follow previous. */
  function ParseField(field: string, previous: string): Option<(string, string)> {
    match Cut(field, '=')
    case None => None
    case Some((name, digest)) =>
      if ValidIdentity(name) && ValidIdentity(digest) && Less(previous, name) then Some((name, digest)) else None
  }

  function ParseFields(fields: seq<string>, previous: string, seen: map<string, string>): Option<map<string, string>> {
    if fields == [] then Some(seen)
    else match ParseField(fields[0], previous)
      case None => None
      case Some((name, digest)) => ParseFields(fields[1..], name, seen[name := digest])
  }

  /** parseProfiles. */
  method ParseProfiles(value: string) returns (r: Option<map<string, string>>)
    ensures r == ParseFields(Split(value, ' '), "", map[])
  {
    var profiles: map<string, string> := map[];
    var previous := "";
    var fields := Split(value, ' ');
    for i := 0 to |fields|
      invariant ParseFields(fields, "", map[]) == ParseFields(fields[i..], previous, profiles)
    {
      match ParseField(fields[i], previous)
      case None => return None;
      case Some((name, digest)) =>
        previous := name;
        profiles := profiles[name := digest];
    }
    r := Some(profiles);
  }

  /** A rune the parser refuses anywhere in the text. */
  predicate ControlRune(c: char) {
    c != '\n' && c != '\t' && (c < ' ' || c == 0x7f as char)
  }

  predicate CheckedStructurally(key: string) {
    key in {"profiles", "rights", "onward", "expires"}
  }

  /** strings.TrimPrefix(line, key + ": "). */
  function ValueOf(key: string, line: string): string {
    if key + ": " <= line then line[|key| + 2..] else line
  }

  /** One body line: its key, a trimmed non-empty value, an identity where due. */
  predicate LineOk(key: string, line: string) {
    && key + ": " <= line
    && var value := ValueOf(key, line);
       value != "" && Trimmed(value) && (CheckedStructurally(key) || ValidIdentity(value))
  }

  /** What the parser makes of the text of its ten values, before it renders again. */
  function ParseValues(clock: Clock, v: seq<string>): Option<Grant>
    requires |v| == |LINE_KEYS|
  {
    match ParseFields(Split(v[3], ' '), "", map[])
    case None => None
    case Some(profiles) =>
      if v[4] != Join(Rights(Names(profiles)), ' ') then None
      else if v[5] !in {ONWARD_NONE, ONWARD_GRANT} then None
      else match clock.parse(v[6])
        case None => None
        case Some(expires) => Some(Grant(v[0], v[1], v[2], profiles, v[5], expires, v[7], v[8], v[9]))
  }

  function ValuesOf(keys: seq<string>, body: seq<string>): (v: seq<string>)
    requires |body| == |keys|
    ensures |v| == |keys|
    ensures forall i | 0 <= i < |v| :: v[i] == ValueOf(keys[i], body[i])
  {
    seq(|body|, i requires 0 <= i < |body| => ValueOf(keys[i], body[i]))
  }

  predicate BodyOk(keys: seq<string>, body: seq<string>) {
    |body| == |keys| && forall i | 0 <= i < |body| :: LineOk(keys[i], body[i])
  }

  function ParsedText(clock: Clock, s: string): Option<Grant> {
    if ByteLen(s) > MAX_TEXT_BYTES || (exists c | c in s :: ControlRune(c)) || !EndsInNewline(s) then None
    else
      var lines := Lines(s);
      if lines[0] != HEADER || !BodyOk(LINE_KEYS, lines[1..]) then None
      else match ParseValues(clock, ValuesOf(LINE_KEYS, lines[1..]))
        case None => None
        case Some(g) => if CanonicalText(clock, g) == s then Some(g) else None
  }

  /** The first values of a table keyed by line. */
  ghost predicate Tabulates(keys: seq<string>, values: map<string, string>, v: seq<string>) {
    |v| <= |keys| && forall k | 0 <= k < |v| :: keys[k] in values && values[keys[k]] == v[k]
  }

  ghost predicate Distinct<T>(s: seq<T>) {
    forall i, j | 0 <= i < j < |s| :: s[i] != s[j]
  }

  lemma TabulateOne(keys: seq<string>, values: map<string, string>, v: seq<string>, i: nat)
    requires i < |v| <= |keys| && Distinct(keys) && Tabulates(keys, values, v[..i])
    ensures Tabulates(keys, values[keys[i] := v[i]], v[..i + 1])
  {
  }

  lemma KeysDistinct()
    ensures Distinct(LINE_KEYS)
  {
    assert |LINE_KEYS[0]| == |LINE_KEYS[1]| == |LINE_KEYS[2]| == |LINE_KEYS[6]| == 7;
    assert LINE_KEYS[0][5] != LINE_KEYS[1][5] && LINE_KEYS[0][0] == 'g' && LINE_KEYS[2][0] == 's' && LINE_KEYS[6][0] == 'e';
    assert |LINE_KEYS[3]| == 8 && |LINE_KEYS[7]| == 5 && |LINE_KEYS[9]| == 4;
    assert |LINE_KEYS[4]| == |LINE_KEYS[5]| == |LINE_KEYS[8]| == 6;
    assert LINE_KEYS[4][0] == 'r' && LINE_KEYS[5][0] == 'o' && LINE_KEYS[8][0] == 'w';
  }

  /** The parser's loop over the body lines. */
  method ReadValues(body: seq<string>) returns (r: Option<map<string, string>>)
    ensures r.Some? <==> BodyOk(LINE_KEYS, body)
    ensures r.Some? ==> Tabulates(LINE_KEYS, r.value, ValuesOf(LINE_KEYS, body))
  {
    if |body| != |LINE_KEYS| { return None; }
    var values: map<string, string> := map[];
    ghost var v := ValuesOf(LINE_KEYS, body);
    for i := 0 to |LINE_KEYS|
      invariant forall k | 0 <= k < i :: LineOk(LINE_KEYS[k], body[k])
      invariant Tabulates(LINE_KEYS, values, v[..i])
    {
      var key := LINE_KEYS[i];
      if !LineOk(key, body[i]) { return None; }
      KeysDistinct();
      TabulateOne(LINE_KEYS, values, v, i);
      values := values[key := ValueOf(key, body[i])];
    }
    assert v[..|LINE_KEYS|] == v;
    return Some(values);
  }

  method ParseTable(clock: Clock, values: map<string, string>, ghost v: seq<string>) returns (r: Option<Grant>)
    requires |v| == |LINE_KEYS| && Tabulates(LINE_KEYS, values, v)
    ensures r == ParseValues(clock, v)
  {
    assert values[LINE_KEYS[0]] == v[0] && values[LINE_KEYS[1]] == v[1] && values[LINE_KEYS[2]] == v[2];
    assert values[LINE_KEYS[3]] == v[3] && values[LINE_KEYS[4]] == v[4] && values[LINE_KEYS[5]] == v[5];
    assert values[LINE_KEYS[6]] == v[6] && values[LINE_KEYS[7]] == v[7] && values[LINE_KEYS[8]] == v[8];
    assert values[LINE_KEYS[9]] == v[9];
    var profiles := ParseProfiles(values["profiles"]);
    if profiles.None? { return None; }
    var names := SortNames(profiles.value.Keys);
    if values["rights"] != Join(Rights(names), ' ') { return None; }
    if values["onward"] != ONWARD_NONE && values["onward"] != ONWARD_GRANT { return None; }
    var expires := clock.parse(values["expires"]);
    if expires.None? { return None; }
    return Some(Grant(values["grantor"], values["grantee"], values["session"], profiles.value,
                      values["onward"], expires.value, values["nonce"], values["widens"], values["prev"]));
  }

  /** ParseCanonicalText. */
  method ParseCanonicalText(clock: Clock, s: string) returns (r: Option<Grant>)
    ensures r == ParsedText(clock, s)
  {
    if ByteLen(s) > MAX_TEXT_BYTES { return None; }
    for i := 0 to |s|
      invariant forall k | 0 <= k < i :: !ControlRune(s[k])
    {
      if ControlRune(s[i]) { return None; }
    }
    if !EndsInNewline(s) { return None; }
    var lines := Lines(s);
    if lines[0] != HEADER { return None; }
    var values := ReadValues(lines[1..]);
    if values.None? { return None; }
    var g := ParseTable(clock, values.value, ValuesOf(LINE_KEYS, lines[1..]));
    if g.None? { return None; }
    var text := RenderCanonicalText(clock, g.value);
    return if text == s then g else None;
  }

  /** A digest that names at most one text. */
  ghost predicate CollisionFree(digestOf: string -> Option<string>) {
    forall s, u :: digestOf(s).Some? && digestOf(s) == digestOf(u) ==> s == u
  }
}
