/** Session handles: who may act on a session and with which rights
    (internal/alfa/session/session.go, cmd/spinclass/handles_cmd.go,
    cmd/spinclass/close_child_cmd.go). */
module Handles {
  import opened Text

  datatype Right = Observe | Close | Grant | Instruct | Cap | Merge | Check | Restart

  function Name(right: Right): (name: string) {
    match right
    case Observe => "observe" case Close => "close" case Grant => "grant" case Instruct => "instruct"
    case Cap => "cap" case Merge => "merge" case Check => "check" case Restart => "restart"
  }

  function Known(name: string): Option<Right> {
    if name == "observe" then Some(Observe) else if name == "close" then Some(Close)
    else if name == "grant" then Some(Grant) else if name == "instruct" then Some(Instruct)
    else if name == "cap" then Some(Cap) else if name == "merge" then Some(Merge)
    else if name == "check" then Some(Check) else if name == "restart" then Some(Restart) else None
  }

  /** HandleRightNames, in display order. */
  const VOCABULARY: seq<Right> := [Observe, Close, Grant, Instruct, Cap, Merge, Check, Restart]

  lemma InVocabulary(right: Right)
    ensures right in VOCABULARY
  {
    var v := VOCABULARY;
    assert v[0] == Observe && v[1] == Close && v[2] == Grant && v[3] == Instruct;
    assert v[4] == Cap && v[5] == Merge && v[6] == Check && v[7] == Restart;
  }

  function AllRights(): (all: set<Right>)
    ensures forall right: Right :: right in all
  {
    forall right: Right ensures right in VOCABULARY { InVocabulary(right); }
    set right | right in VOCABULARY
  }

  function DefaultRights(): set<Right> {
    {Observe, Close}
  }

  // --------------------------------------------------------------- rights text

  lemma NameIsPlain(right: Right)
    ensures Name(right) != "" && Trimmed(Name(right)) && ',' !in Name(right) && Known(Name(right)) == Some(right)
  {
  }

  /** The names in a comma-separated list: blanks trimmed, empty entries ignored. */
  function NamesIn(parts: seq<string>): set<string> {
    set part | part in parts && TrimSpace(part) != "" :: TrimSpace(part)
  }

  predicate AllKnown(names: set<string>) {
    forall name | name in names :: Known(name).Some?
  }

  function RightsNamed(names: set<string>): set<Right>
    requires AllKnown(names)
  {
    set name | name in names :: Known(name).value
  }

  function ParsedRights(text: string): Option<set<Right>> {
    var names := NamesIn(Split(text, ','));
    if AllKnown(names) then Some(RightsNamed(names)) else None
  }

  method ParseHandleRights(text: string) returns (r: Option<set<Right>>)
    ensures r == ParsedRights(text)
  {
    hide Known, Split, TrimSpace;
    var parts := Split(text, ',');
    var rights: set<Right> := {};
    ghost var known: set<string> := {};
    var unknown: seq<string> := [];
    for i := 0 to |parts|
      invariant NamesIn(parts[..i]) == known + (set u | u in unknown)
      invariant AllKnown(known) && rights == RightsNamed(known)
      invariant forall u | u in unknown :: Known(u).None?
    {
      var name := TrimSpace(parts[i]);
      assert parts[..i + 1] == parts[..i] + [parts[i]];
      assert NamesIn(parts[..i + 1]) == NamesIn(parts[..i]) + (if name == "" then {} else {name});
      if name == "" { continue; }
      if Known(name).None? {
        unknown := unknown + [name];
        continue;
      }
      known, rights := known + {name}, rights + {Known(name).value};
    }
    assert parts[..|parts|] == parts;
    if |unknown| > 0 {
      assert unknown[0] in NamesIn(parts);
      return None;
    }
    assert NamesIn(parts) == known;
    return Some(rights);
  }

  /** The names of a vocabulary's rights that are in the set, in vocabulary order. */
  function Chosen(vocabulary: seq<Right>, rights: set<Right>): seq<string> {
    if vocabulary == [] then []
    else (if vocabulary[0] in rights then [Name(vocabulary[0])] else []) + Chosen(vocabulary[1..], rights)
  }

  function RightsText(rights: set<Right>): string {
    Join(Chosen(VOCABULARY, rights), ',')
  }

  lemma {:induction false} ChosenAre(vocabulary: seq<Right>, rights: set<Right>)
    ensures forall name | name in Chosen(vocabulary, rights) ::
      exists right :: right in vocabulary && right in rights && name == Name(right)
    ensures forall right | right in vocabulary && right in rights :: Name(right) in Chosen(vocabulary, rights)
  {
    hide Name;
    if vocabulary != [] {
      ChosenAre(vocabulary[1..], rights);
      assert vocabulary == [vocabulary[0]] + vocabulary[1..];
    }
  }

  lemma {:induction false} ChosenGrows(vocabulary: seq<Right>, right: Right, rights: set<Right>)
    ensures Chosen(vocabulary + [right], rights)
      == Chosen(vocabulary, rights) + (if right in rights then [Name(right)] else [])
  {
    hide Name;
    if vocabulary == [] {
      assert vocabulary + [right] == [right];
    } else {
      var more := vocabulary + [right];
      assert more[0] == vocabulary[0] && more[1..] == vocabulary[1..] + [right];
      ChosenGrows(vocabulary[1..], right, rights);
      assert Chosen(more, rights) == (if more[0] in rights then [Name(more[0])] else []) + Chosen(more[1..], rights);
    }
  }

  /** HandleRightSet.String. */
  method RenderRights(rights: set<Right>) returns (text: string)
    ensures text == RightsText(rights)
  {
    hide VOCABULARY, Name;
    var names: seq<string> := [];
    var v := VOCABULARY;
    for i := 0 to |v|
      invariant names == Chosen(v[..i], rights)
    {
      assert v[..i + 1] == v[..i] + [v[i]];
      ChosenGrows(v[..i], v[i], rights);
      if v[i] in rights { names := names + [Name(v[i])]; }
    }
    assert v[..|v|] == v;
    text := Join(names, ',');
  }

  lemma NoRightsText()
    ensures ParsedRights("") == Some({})
  {
    assert Split("", ',') == [""] && NamesIn([""]) == {};
    assert RightsNamed({}) == {};
  }

  /** A set of rights is what its text parses back to, and only the empty set has no text. */
  lemma RightsRoundTrip(rights: set<Right>)
    ensures ParsedRights(RightsText(rights)) == Some(rights)
    ensures RightsText(rights) == "" <==> rights == {}
  {
    var names := Chosen(VOCABULARY, rights);
    ChosenAre(VOCABULARY, rights);
    forall right: Right ensures right in VOCABULARY {
      InVocabulary(right);
    }
    forall right: Right {
      NameIsPlain(right);
    }
    hide VOCABULARY, Name, Known, Split, TrimSpace, Trimmed;
    assert forall name | name in names :: TrimSpace(name) == name != "";
    assert forall name :: name in NamesIn(names) <==> name in names;
    assert AllKnown(NamesIn(names)) && RightsNamed(NamesIn(names)) == rights;
    if names == [] {
      NoRightsText();
      assert forall right | right in rights :: Name(right) in names;
      assert rights == {};
    } else {
      forall i | 0 <= i < |names| ensures ',' !in names[i] {
        assert names[i] in names;
      }
      SplitJoin(names, ',');
      assert names[0] in names;
      assert RightsText(rights) != "" by { if |names| > 1 { assert |Join(names, ',')| > 0; } }
    }
  }

  // -------------------------------------------------------------------- record

  /** The handle fields of a session record. The spawner never changes. */
  datatype Record = Record(
    holders: seq<string>, pending: seq<string>, rights: map<string, string>,
    spawnedBy: string, spawnedByPrincipal: string, spawnerReleased: bool)

  function Without(names: seq<string>, name: string): seq<string> {
    if names == [] then []
    else if names[0] == name then names[1..]
    else [names[0]] + Without(names[1..], name)
  }

  ghost predicate NoDup(names: seq<string>) {
    forall i, j | 0 <= i < j < |names| :: names[i] != names[j]
  }

  lemma {:induction false} WithoutHas(names: seq<string>, name: string)
    ensures forall n | n != name :: n in Without(names, name) <==> n in names
    ensures NoDup(names) ==> NoDup(Without(names, name)) && name !in Without(names, name)
    ensures name !in names ==> Without(names, name) == names
  {
    if names != [] {
      var rest := names[1..];
      assert names == [names[0]] + rest;
      WithoutHas(rest, name);
      if NoDup(names) {
        assert forall j | 0 <= j < |rest| :: rest[j] == names[j + 1];
        assert NoDup(rest) && names[0] !in rest;
      }
    }
  }

  predicate IsHolder(s: Record, principal: string) {
    principal != "" && principal in s.holders
  }

  predicate IsPending(s: Record, principal: string) {
    principal != "" && principal in s.pending
  }

  predicate IsNew(s: Record, recipient: string) {
    recipient != "" && recipient !in s.holders && recipient !in s.pending
  }

  function Granted(s: Record, recipient: string, rights: string): Record {
    if !IsNew(s, recipient) then s
    else s.(pending := s.pending + [recipient], rights := s.rights[recipient := if rights == "" then RightsText(DefaultRights()) else rights])
  }

  function Accepted(s: Record, principal: string): Record {
    if principal !in s.pending then s
    else s.(pending := Without(s.pending, principal),
            holders := if principal in s.holders then s.holders else s.holders + [principal])
  }

  function Released(s: Record, principal: string): Record {
    if !IsHolder(s, principal) && !IsPending(s, principal) then s
    else s.(holders := Without(s.holders, principal), pending := Without(s.pending, principal),
            rights := s.rights - {principal})
  }

  /** Panics: a recorded list that does not parse leaves no set to add observe to. */
  datatype Resolved = Nothing | Rights(names: set<Right>) | Panics

  function RightsOf(s: Record, principal: string): Resolved {
    if principal == "" then Nothing
    else if principal in s.rights && (IsHolder(s, principal) || IsPending(s, principal)) then
      var parsed := ParsedRights(s.rights[principal]);
      if parsed.None? then Panics else Rights(parsed.value + {Observe})
    else if principal == s.spawnedByPrincipal && (IsHolder(s, principal) || !s.spawnerReleased) then Rights(AllRights())
    else if IsHolder(s, principal) then Rights(DefaultRights())
    else Nothing
  }

  datatype Caller = Caller(principal: string, key: string)

  predicate KeyPath(c: Caller, s: Record) {
    c.key != "" && s.spawnedBy == c.key
  }

  /** authorizeHandleUse. */
  predicate Authorized(c: Caller, s: Record) {
    c.principal != "" && (IsHolder(s, c.principal) || (KeyPath(c, s) && !s.spawnerReleased))
  }

  /** callerHandleRights. */
  function CallerRights(c: Caller, s: Record): Resolved {
    var r := RightsOf(s, c.principal);
    if r.Panics? || (r.Rights? && IsHolder(s, c.principal)) then r else Rights(AllRights())
  }

  // ------------------------------------------------------------------ commands

  function Accepting(s: Record, c: Caller): Record {
    if IsPending(s, c.principal) then Accepted(s, c.principal) else s
  }

  /** The rights a grant asks for, when all its checks pass. */
  function Wanted(s: Record, c: Caller, text: string): Option<set<Right>> {
    var child := Accepting(s, c);
    var held := CallerRights(c, child);
    if !Authorized(c, child) || !held.Rights? || Grant !in held.names then None
    else
      var wanted := ParsedRights(if text == "" then RightsText(DefaultRights()) else text);
      if wanted.None? || !(wanted.value <= held.names) then None else wanted
  }

  function GrantStep(s: Record, c: Caller, recipient: string, text: string): Record {
    var wanted := Wanted(s, c, text);
    if wanted.None? then s else Granted(Accepting(s, c), recipient, RightsText(wanted.value))
  }

  predicate ReleasesSpawner(s: Record, c: Caller) {
    (s.spawnedByPrincipal != "" && c.principal == s.spawnedByPrincipal) || (c.key != "" && c.key == s.spawnedBy)
  }

  function ReleaseStep(s: Record, c: Caller): Record {
    if !IsHolder(s, c.principal) && !IsPending(s, c.principal) then s
    else Released(s, c.principal).(spawnerReleased := s.spawnerReleased || ReleasesSpawner(s, c))
  }

  /** A session's record, loaded or under its lock, and the commands run on it. */
  class Session {
    var holders: seq<string>
    var pending: seq<string>
    var rights: map<string, string>
    const spawnedBy: string
    const spawnedByPrincipal: string
    var spawnerReleased: bool

    constructor (s: Record)
      ensures Value() == s
    {
      holders, pending, rights := s.holders, s.pending, s.rights;
      spawnedBy, spawnedByPrincipal, spawnerReleased := s.spawnedBy, s.spawnedByPrincipal, s.spawnerReleased;
    }

    function Value(): Record
      reads this
    {
      Record(holders, pending, rights, spawnedBy, spawnedByPrincipal, spawnerReleased)
    }

    method GrantHandle(recipient: string, text: string) returns (changed: bool)
      modifies this
      ensures Value() == Granted(old(Value()), recipient, text) && changed == IsNew(old(Value()), recipient)
    {
      hide RightsText;
      if recipient == "" || recipient in holders || recipient in pending { return false; }
      var recorded := text;
      if recorded == "" { recorded := RightsText(DefaultRights()); }
      pending := pending + [recipient];
      rights := rights[recipient := recorded];
      return true;
    }

    method AcceptHandle(principal: string) returns (accepted: bool)
      modifies this
      ensures Value() == Accepted(old(Value()), principal) && accepted == (principal in old(pending))
    {
      if principal !in pending { return false; }
      pending := Without(pending, principal);
      if principal !in holders { holders := holders + [principal]; }
      return true;
    }

    method ReleaseHandle(principal: string) returns (released: bool)
      modifies this
      ensures Value() == Released(old(Value()), principal)
      ensures released == (IsHolder(old(Value()), principal) || IsPending(old(Value()), principal))
    {
      if principal == "" { return false; }
      WithoutHas(holders, principal);
      WithoutHas(pending, principal);
      released := false;
      if principal in holders {
        holders := Without(holders, principal);
        released := true;
      }
      if principal in pending {
        pending := Without(pending, principal);
        released := true;
      }
      if released { rights := rights - {principal}; }
    }

    /** grantSessionHandle on this record: checked on a loaded copy, then written. */
    method GrantSessionHandle(c: Caller, recipient: string, text: string, open: bool)
      modifies this
      ensures Value() == if open then GrantStep(old(Value()), c, recipient, text) else old(Value())
    {
      hide VOCABULARY, ParsedRights, RightsText, RightsOf;
      var child := new Session(Value());
      if !open { return; }
      var callerAccepted := false;
      if IsPending(child.Value(), c.principal) {
        callerAccepted := child.AcceptHandle(c.principal);
      }
      assert child.Value() == Accepting(Value(), c);
      if !Authorized(c, child.Value()) { return; }
      var held := CallerRights(c, child.Value());
      if !held.Rights? || Grant !in held.names { return; }
      var granting := text;
      if granting == "" { granting := RightsText(DefaultRights()); }
      var wanted := ParseHandleRights(granting);
      if wanted.None? || !(wanted.value <= held.names) { return; }
      var rendered := RenderRights(wanted.value);
      var changed := child.GrantHandle(recipient, rendered);
      if callerAccepted { var _ := AcceptHandle(c.principal); }
      if changed { var _ := GrantHandle(recipient, rendered); }
    }

    /** releaseSessionHandle on this record. */
    method ReleaseSessionHandle(c: Caller, open: bool)
      modifies this
      ensures Value() == if open then ReleaseStep(old(Value()), c) else old(Value())
    {
      var child := new Session(Value());
      if !open { return; }
      var held := child.ReleaseHandle(c.principal);
      if !held { return; }
      var _ := ReleaseHandle(c.principal);
      if ReleasesSpawner(child.Value(), c) { spawnerReleased := true; }
    }

    /** list-handles with accept, and the first use of a handle by a reap. */
    method AcceptOnUse(c: Caller, open: bool)
      modifies this
      ensures Value() == if open then Accepting(old(Value()), c) else old(Value())
    {
      if open && IsPending(Value(), c.principal) { var _ := AcceptHandle(c.principal); }
    }
  }

  // ----------------------------------------------------------------- authority

  predicate Holds(s: Record, principal: string) {
    IsHolder(s, principal) || IsPending(s, principal)
  }

  /** What a holder may do, and a pending one once it accepts. */
  function Potential(s: Record, principal: string): set<Right> {
    if principal in s.rights then
      var parsed := ParsedRights(s.rights[principal]);
      if parsed.None? then {} else parsed.value + {Observe}
    else if principal == s.spawnedByPrincipal then AllRights()
    else DefaultRights()
  }

  ghost predicate SomeoneMay(s: Record, right: Right) {
    (s.spawnedBy != "" && !s.spawnerReleased) || exists p :: Holds(s, p) && right in Potential(s, p)
  }

  /** Every right that somebody can exercise: holders, pending holders, and the
      spawner by its session key until it released. */
  ghost function Authority(s: Record): set<Right> {
    set right | right in AllRights() && SomeoneMay(s, right)
  }

  ghost predicate NoDuplicates(s: Record) {
    NoDup(s.holders) && NoDup(s.pending)
  }

  lemma PotentialIsKnown(s: Record, p: string)
    ensures Potential(s, p) <= AllRights()
  {
  }

  /** A pending holder that accepts gets just what it was offered. */
  lemma AcceptedGetsPotential(s: Record, p: string)
    requires IsPending(s, p) && RightsOf(Accepted(s, p), p).Rights?
    ensures RightsOf(Accepted(s, p), p).names == Potential(s, p)
  {
    hide VOCABULARY, ParsedRights;
  }

  lemma CallerWithinAuthority(s: Record, c: Caller)
    requires Authorized(c, s) && CallerRights(c, s).Rights?
    ensures CallerRights(c, s).names <= Authority(s)
  {
    PotentialIsKnown(s, c.principal);
    hide VOCABULARY, ParsedRights, AllRights;
    var names := CallerRights(c, s).names;
    forall right | right in names ensures right in Authority(s) {
      if IsHolder(s, c.principal) {
        assert Holds(s, c.principal) && right in Potential(s, c.principal);
      }
      assert SomeoneMay(s, right);
    }
  }

  lemma AcceptingKeepsAuthority(s: Record, c: Caller)
    requires NoDuplicates(s)
    ensures NoDuplicates(Accepting(s, c)) && Authority(Accepting(s, c)) == Authority(s)
    ensures forall p :: Holds(Accepting(s, c), p) <==> Holds(s, p)
  {
    hide VOCABULARY, ParsedRights, AllRights, Without;
    var t := Accepting(s, c);
    WithoutHas(s.pending, c.principal);
    assert forall p :: Holds(t, p) <==> Holds(s, p);
    assert forall p :: Potential(t, p) == Potential(s, p);
    assert forall right :: SomeoneMay(t, right) <==> SomeoneMay(s, right);
  }

  lemma ReleaseShrinksAuthority(s: Record, c: Caller)
    requires NoDuplicates(s)
    ensures NoDuplicates(ReleaseStep(s, c)) && Authority(ReleaseStep(s, c)) <= Authority(s)
    ensures !Holds(ReleaseStep(s, c), c.principal)
  {
    hide VOCABULARY, ParsedRights, AllRights, Without;
    var t := ReleaseStep(s, c);
    WithoutHas(s.holders, c.principal);
    WithoutHas(s.pending, c.principal);
    assert forall p :: Holds(t, p) ==> Holds(s, p) && Potential(t, p) == Potential(s, p);
    assert forall right :: SomeoneMay(t, right) ==> SomeoneMay(s, right);
  }

  /** A list that names nothing although it is not empty, such as ",". */
  predicate Blank(text: string) {
    text != "" && ParsedRights(text) == Some({})
  }

  predicate Takes(s: Record, c: Caller, recipient: string, text: string) {
    Wanted(s, c, text).Some? && IsNew(Accepting(s, c), recipient)
  }

  lemma WantedPasses(s: Record, c: Caller, text: string)
    requires Wanted(s, c, text).Some?
    ensures var u := Accepting(s, c); var wanted := Wanted(s, c, text).value;
      && Authorized(c, u) && CallerRights(c, u).Rights? && Observe in CallerRights(c, u).names
      && wanted <= CallerRights(c, u).names && wanted <= AllRights()
      && (text == "" ==> wanted == DefaultRights()) && (text != "" ==> ParsedRights(text) == Some(wanted))
  {
    RightsRoundTrip(DefaultRights());
    hide VOCABULARY, RightsText, AllRights, Accepting;
    assert ParsedRights(if text == "" then RightsText(DefaultRights()) else text).value <= AllRights();
    hide ParsedRights, Authorized;
  }

  /** The list written for an empty set of rights is the default one. */
  lemma RecordedText(wanted: set<Right>)
    requires wanted <= AllRights()
    ensures var recorded := if RightsText(wanted) == "" then RightsText(DefaultRights()) else RightsText(wanted);
      ParsedRights(recorded) == Some(if wanted == {} then DefaultRights() else wanted)
  {
    RightsRoundTrip(DefaultRights());
    RightsRoundTrip(wanted);
    hide VOCABULARY, ParsedRights, RightsText, AllRights;
  }

  lemma BlankIff(s: Record, c: Caller, text: string)
    requires Wanted(s, c, text).Some?
    ensures Blank(text) <==> Wanted(s, c, text).value == {}
  {
    WantedPasses(s, c, text);
    hide VOCABULARY, ParsedRights, RightsText, AllRights, CallerRights, Authorized, Accepting, Wanted;
  }

  lemma GrantedGives(u: Record, recipient: string, wanted: set<Right>)
    requires IsNew(u, recipient) && wanted <= AllRights()
    ensures var t := Granted(u, recipient, RightsText(wanted));
      IsPending(t, recipient) && Potential(t, recipient) == (if wanted == {} then DefaultRights() else wanted) + {Observe}
  {
    RecordedText(wanted);
    hide VOCABULARY, ParsedRights, RightsText, AllRights;
  }

  lemma TakenIsGranted(s: Record, c: Caller, recipient: string, text: string)
    requires Takes(s, c, recipient, text)
    ensures IsNew(Accepting(s, c), recipient)
    ensures GrantStep(s, c, recipient, text) == Granted(Accepting(s, c), recipient, RightsText(Wanted(s, c, text).value))
  {
    hide Wanted, Accepting, RightsText, Granted, IsNew;
  }

  /** What a grant that takes effect records for its recipient. */
  lemma GrantRecords(s: Record, c: Caller, recipient: string, text: string)
    requires Takes(s, c, recipient, text)
    ensures IsPending(GrantStep(s, c, recipient, text), recipient)
    ensures Potential(GrantStep(s, c, recipient, text), recipient)
      == if Blank(text) then DefaultRights() else Wanted(s, c, text).value + {Observe}
  {
    assert DefaultRights() + {Observe} == DefaultRights();
    hide VOCABULARY, ParsedRights, RightsText, AllRights, CallerRights, Authorized, Accepting, Wanted, Granted, IsNew, IsPending,
      Potential, Blank, DefaultRights, GrantStep;
    TakenIsGranted(s, c, recipient, text);
    WantedPasses(s, c, text);
    BlankIff(s, c, text);
    GrantedGives(Accepting(s, c), recipient, Wanted(s, c, text).value);
  }

  /** A granted handle is within what its granter holds exactly when the list
      names a right or the granter holds close. */
  lemma GrantNarrowsIff(s: Record, c: Caller, recipient: string, text: string)
    requires Takes(s, c, recipient, text)
    ensures CallerRights(c, Accepting(s, c)).Rights?
    ensures (Potential(GrantStep(s, c, recipient, text), recipient) <= CallerRights(c, Accepting(s, c)).names)
      <==> (!Blank(text) || Close in CallerRights(c, Accepting(s, c)).names)
  {
    GrantRecords(s, c, recipient, text);
    WantedPasses(s, c, text);
    hide VOCABULARY, ParsedRights, RightsText, AllRights, GrantStep, Potential, Wanted, CallerRights, Accepting, Takes, Blank, Authorized;
  }

  /** A grant adds its recipient and touches nobody else. */
  lemma GrantAddsOne(s: Record, c: Caller, recipient: string, text: string)
    requires NoDuplicates(s) && Takes(s, c, recipient, text)
    ensures var u := Accepting(s, c); var t := GrantStep(s, c, recipient, text);
      && NoDuplicates(t) && t.spawnedBy == u.spawnedBy && t.spawnerReleased == u.spawnerReleased
      && (forall p :: Holds(t, p) <==> Holds(u, p) || p == recipient)
      && (forall p :: p != recipient ==> Potential(t, p) == Potential(u, p))
  {
    AcceptingKeepsAuthority(s, c);
    hide VOCABULARY, ParsedRights, RightsText, AllRights, Wanted, Accepting;
  }

  lemma GrantAuthority(s: Record, c: Caller, recipient: string, text: string)
    requires NoDuplicates(s) && Takes(s, c, recipient, text)
    ensures Authority(GrantStep(s, c, recipient, text))
      == Authority(s) + Potential(GrantStep(s, c, recipient, text), recipient)
  {
    AcceptingKeepsAuthority(s, c);
    GrantAddsOne(s, c, recipient, text);
    var u := Accepting(s, c);
    var t := GrantStep(s, c, recipient, text);
    PotentialIsKnown(t, recipient);
    hide VOCABULARY, ParsedRights, RightsText, AllRights, Wanted, Accepting, GrantStep, Takes, Potential, Holds, NoDuplicates;
    forall right | right in AllRights()
      ensures SomeoneMay(t, right) <==> SomeoneMay(u, right) || right in Potential(t, recipient)
    {
      assert Holds(t, recipient);
    }
  }

  /** A grant widens what somebody may do exactly when it takes effect with a
      blank list while nobody may close. */
  lemma GrantWidensIff(s: Record, c: Caller, recipient: string, text: string)
    requires NoDuplicates(s)
    ensures NoDuplicates(GrantStep(s, c, recipient, text))
    ensures !(Authority(GrantStep(s, c, recipient, text)) <= Authority(s))
      <==> (Takes(s, c, recipient, text) && Blank(text) && Close !in Authority(s))
  {
    if Takes(s, c, recipient, text) {
      TakenWidensIff(s, c, recipient, text);
    } else {
      AcceptingKeepsAuthority(s, c);
      hide VOCABULARY, ParsedRights, RightsText, AllRights, Potential, Wanted, Accepting, Blank, Authority, NoDuplicates;
    }
  }

  lemma TakenWidensIff(s: Record, c: Caller, recipient: string, text: string)
    requires NoDuplicates(s) && Takes(s, c, recipient, text)
    ensures NoDuplicates(GrantStep(s, c, recipient, text))
    ensures !(Authority(GrantStep(s, c, recipient, text)) <= Authority(s)) <==> (Blank(text) && Close !in Authority(s))
  {
    AcceptingKeepsAuthority(s, c);
    GrantRecords(s, c, recipient, text);
    GrantAddsOne(s, c, recipient, text);
    GrantAuthority(s, c, recipient, text);
    WantedPasses(s, c, text);
    CallerWithinAuthority(Accepting(s, c), c);
    hide VOCABULARY, ParsedRights, RightsText, AllRights, GrantStep, Potential, Wanted, CallerRights, Accepting, Takes, Blank,
      Authorized, Authority, NoDuplicates, Holds, IsHolder, IsPending, SomeoneMay;
  }

  // ---------------------------------------------------------------------- runs

  datatype Step = Granting(c: Caller, recipient: string, text: string) | Accepts(c: Caller) | Releases(c: Caller)

  function Next(s: Record, step: Step): Record {
    match step
    case Granting(c, recipient, text) => GrantStep(s, c, recipient, text)
    case Accepts(c) => Accepting(s, c)
    case Releases(c) => ReleaseStep(s, c)
  }

  function After(s: Record, steps: seq<Step>): Record
    decreases |steps|
  {
    if steps == [] then s else After(Next(s, steps[0]), steps[1..])
  }

  /** No serial run whose grants name at least one right, or none at all, ever
      widens what somebody may do. */
  lemma {:induction false} AuthorityNeverGrows(s: Record, steps: seq<Step>)
    requires NoDuplicates(s)
    requires forall step | step in steps && step.Granting? :: !Blank(step.text)
    ensures NoDuplicates(After(s, steps)) && Authority(After(s, steps)) <= Authority(s)
    decreases |steps|
  {
    hide NoDuplicates, Authority, Blank, GrantStep, Accepting, ReleaseStep, Takes;
    if steps != [] {
      assert steps[0] in steps;
      match steps[0] {
        case Granting(c, recipient, text) => GrantWidensIff(s, c, recipient, text);
        case Accepts(c) => AcceptingKeepsAuthority(s, c);
        case Releases(c) => ReleaseShrinksAuthority(s, c);
      }
      AuthorityNeverGrows(Next(s, steps[0]), steps[1..]);
    }
  }

  /** Once the spawner released, its session key authorizes nobody again. */
  lemma {:induction false} SpawnerStaysReleased(s: Record, steps: seq<Step>)
    requires s.spawnerReleased
    ensures After(s, steps).spawnerReleased
    ensures forall c: Caller :: Authorized(c, After(s, steps)) ==> IsHolder(After(s, steps), c.principal)
    decreases |steps|
  {
    hide Wanted, RightsText, Without;
    if steps != [] {
      SpawnerStaysReleased(Next(s, steps[0]), steps[1..]);
    }
  }

  /** A release by a spawner that holds a handle, by principal or by key, ends both. */
  lemma ReleaseEndsSpawner(s: Record, c: Caller, steps: seq<Step>)
    requires NoDuplicates(s) && Holds(s, c.principal) && ReleasesSpawner(s, c)
    ensures !Authorized(c, ReleaseStep(s, c))
    ensures After(ReleaseStep(s, c), steps).spawnerReleased
  {
    ReleaseShrinksAuthority(s, c);
    SpawnerStaysReleased(ReleaseStep(s, c), steps);
    hide Without, After, NoDuplicates;
  }

  /** A holder that may only grant hands on close with a blank list. */
  lemma BlankGrantWidens()
    ensures exists s: Record, c: Caller, recipient: string ::
      NoDuplicates(s) && Close !in Authority(s) && Close in Authority(GrantStep(s, c, recipient, ","))
  {
    RightsRoundTrip({Grant});
    var s := Record(["a"], [], map["a" := RightsText({Grant})], "", "", false);
    var c := Caller("a", "");
    CommaNamesNothing();
    hide VOCABULARY, RightsText, AllRights, Split, Authority;
    assert Blank(",");
    assert forall p :: Holds(s, p) ==> Potential(s, p) == {Grant, Observe};
    assert Takes(s, c, "b", ",");
    hide ParsedRights, Takes, Wanted;
    assert Close !in Authority(s) by { OnlyGranting(s); }
    GrantRecords(s, c, "b", ",");
    GrantAuthority(s, c, "b", ",");
    assert Close in Authority(GrantStep(s, c, "b", ","));
  }

  lemma CommaNamesNothing()
    ensures Blank(",")
  {
    assert ","[1..] == "";
    assert Split(",", ',') == [""] + Split("", ',') == ["", ""];
    assert NamesIn(["", ""]) == {} && RightsNamed({}) == {};
  }

  lemma OnlyGranting(s: Record)
    requires s.spawnedBy == "" && forall p :: Holds(s, p) ==> Potential(s, p) == {Grant, Observe}
    ensures Close !in Authority(s)
  {
    hide VOCABULARY, Potential, Holds;
  }

  /** Why the runs above start from a record that lists no principal twice, as
      every command keeps it: a principal listed twice among the holders, by
      another hand, keeps a handle when it releases, and without its entry that
      handle carries close. */
  lemma DuplicateReleaseWidens()
    ensures exists s: Record, c: Caller :: Close !in Authority(s) && Close in Authority(ReleaseStep(s, c))
  {
    RightsRoundTrip({Grant});
    var s := Record(["a", "a"], [], map["a" := RightsText({Grant})], "", "", false);
    var c := Caller("a", "");
    hide VOCABULARY, RightsText, AllRights, ParsedRights, Authority;
    assert forall p :: Holds(s, p) ==> Potential(s, p) == {Grant, Observe};
    OnlyGranting(s);
    var t := ReleaseStep(s, c);
    assert t.holders == ["a"] && Holds(t, "a") && Close in Potential(t, "a");
    assert SomeoneMay(t, Close);
    MayMeansAuthority(t, Close);
  }

  lemma MayMeansAuthority(s: Record, right: Right)
    requires right in AllRights() && SomeoneMay(s, right)
    ensures right in Authority(s)
  {
  }
}
