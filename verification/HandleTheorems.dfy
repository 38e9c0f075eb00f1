/** Who may act on a session and what each command does to its record, spelled
    out, and what a run can and cannot give or take away
    (cmd/spinclass/close_child_cmd.go, cmd/spinclass/handles_cmd.go,
    internal/alfa/session/session.go). */
module HandleTheorems {
  import opened Text
  import opened Handles

  // -------------------------------------------------------------------- names

  lemma NamesAre()
    ensures Name(Observe) == "observe" && Name(Close) == "close" && Name(Grant) == "grant" && Name(Instruct) == "instruct"
    ensures Name(Cap) == "cap" && Name(Merge) == "merge" && Name(Check) == "check" && Name(Restart) == "restart"
  {
  }

  lemma {:induction false} ChosenSelects(vocabulary: seq<Right>, rights: set<Right>) returns (kept: seq<Right>, at: seq<nat>)
    ensures Selects(vocabulary, at, kept) && forall right :: right in kept <==> right in vocabulary && right in rights
    ensures var names := Chosen(vocabulary, rights); |names| == |kept| && forall i | 0 <= i < |kept| :: names[i] == Name(kept[i])
    decreases |vocabulary|
  {
    hide Name;
    kept, at := [], [];
    if vocabulary != [] {
      var n := |vocabulary| - 1;
      assert vocabulary == vocabulary[..n] + [vocabulary[n]];
      kept, at := ChosenSelects(vocabulary[..n], rights);
      ChosenGrows(vocabulary[..n], vocabulary[n], rights);
      if vocabulary[n] in rights { kept, at := kept + [vocabulary[n]], at + [n]; }
    }
  }

  /** The text of a set of rights is the names of exactly its rights, in the order
      of the vocabulary, none twice, with commas between. */
  lemma RightsTextReads(rights: set<Right>) returns (kept: seq<Right>, names: seq<string>, at: seq<nat>)
    ensures Selects([Observe, Close, Grant, Instruct, Cap, Merge, Check, Restart], at, kept)
    ensures forall right: Right :: right in kept <==> right in rights
    ensures |names| == |kept| && forall i | 0 <= i < |kept| :: names[i] == Name(kept[i])
    ensures RightsText(rights) == Join(names, ',')
  {
    forall right: Right ensures right in VOCABULARY { InVocabulary(right); }
    kept, at := ChosenSelects(VOCABULARY, rights);
    names := Chosen(VOCABULARY, rights);
  }

  /** The name stands between two commas of the text, blanks aside. */
  ghost predicate StandsIn(text: string, name: string) {
    name != "" && exists part :: part in Split(text, ',') && TrimSpace(part) == name
  }

  /** A text is read as a set of rights iff what stands in it is the names of
      exactly those rights. */
  lemma RightsTextIff(text: string, rights: set<Right>)
    ensures ParsedRights(text) == Some(rights) <==>
      && (forall name | StandsIn(text, name) :: NamesOneOf(name, rights))
      && (forall right | right in rights :: StandsIn(text, Name(right)))
  {
    var names := NamesIn(Split(text, ','));
    NamedIff(names, rights);
    assert forall name :: name in names <==> StandsIn(text, name) by { hide Split, TrimSpace; }
    hide NamesOneOf, StandsIn, Name, RightsNamed, AllKnown, NamesIn;
  }

  ghost predicate NamesOneOf(name: string, rights: set<Right>) {
    exists right :: right in rights && Name(right) == name
  }

  lemma NamedIff(names: set<string>, rights: set<Right>)
    ensures AllKnown(names) && RightsNamed(names) == rights <==>
      (forall name | name in names :: NamesOneOf(name, rights)) && (forall right | right in rights :: Name(right) in names)
  {
    forall right: Right ensures Known(Name(right)) == Some(right) { NameIsPlain(right); }
    forall name | Known(name).Some? ensures Name(Known(name).value) == name { KnownIsNamed(name); }
    hide Name, Known;
    if AllKnown(names) && RightsNamed(names) == rights {
      forall name | name in names ensures NamesOneOf(name, rights) {
        assert Known(name).value in rights;
      }
      forall right | right in rights ensures Name(right) in names {
        var name :| name in names && Known(name).value == right;
      }
    }
    if (forall name | name in names :: NamesOneOf(name, rights)) && (forall right | right in rights :: Name(right) in names) {
      assert AllKnown(names);
      assert forall right | right in rights :: Name(right) in names && Known(Name(right)).value in RightsNamed(names);
    }
  }

  lemma KnownIsNamed(name: string)
    requires Known(name).Some?
    ensures Name(Known(name).value) == name
  {
  }

  // --------------------------------------------------------------- who may act

  /** The rights of one who has accepted a handle: what the record says of it, with
      observe, every right for the spawner, and observe and close for another. */
  ghost predicate HandleGives(s: Record, principal: string, rights: set<Right>) {
    if principal in s.rights then
      exists named :: ParsedRights(s.rights[principal]) == Some(named) && rights == named + {Observe}
    else if principal == s.spawnedByPrincipal then rights == {Observe, Close, Grant, Instruct, Cap, Merge, Check, Restart}
    else rights == {Observe, Close}
  }

  lemma AllRightsAre()
    ensures AllRights() == {Observe, Close, Grant, Instruct, Cap, Merge, Check, Restart}
  {
  }

  /** The caller neither holds nor is offered a handle. */
  ghost predicate Outside(s: Record, c: Caller) {
    c.principal == "" || (c.principal !in s.holders && c.principal !in s.pending)
  }

  /** The caller presents the session key of the session that spawned this one. */
  ghost predicate SpawnersKey(s: Record, c: Caller) {
    c.key != "" && c.key == s.spawnedBy
  }

  /** What a principal resolves to: what a handle gives it, given or offered on
      record, and otherwise every right for the spawner until it released. */
  lemma ResolvesIff(s: Record, principal: string, rights: set<Right>)
    ensures RightsOf(s, principal) == Rights(rights) <==>
      && principal != ""
      && if principal in s.holders || (principal in s.pending && principal in s.rights) then HandleGives(s, principal, rights)
         else principal == s.spawnedByPrincipal && !s.spawnerReleased
              && rights == {Observe, Close, Grant, Instruct, Cap, Merge, Check, Restart}
  {
    AllRightsAre();
    hide ParsedRights, AllRights;
  }

  /** A holder is authorized with just the rights its handle gives. */
  lemma HolderActs(s: Record, c: Caller, rights: set<Right>)
    requires c.principal != "" && c.principal in s.holders
    ensures Authorized(c, s)
    ensures CallerRights(c, s) == Rights(rights) <==> HandleGives(s, c.principal, rights)
  {
    AllRightsAre();
    hide ParsedRights, AllRights;
  }

  /** The spawner's own key, until it released, is authorized with every right as
      long as its principal holds no handle. */
  lemma SpawnerActs(s: Record, c: Caller)
    requires c.principal != "" && c.principal !in s.holders && SpawnersKey(s, c) && !s.spawnerReleased
    requires c.principal in s.pending && c.principal in s.rights ==> ParsedRights(s.rights[c.principal]).Some?
    ensures Authorized(c, s)
    ensures CallerRights(c, s) == Rights({Observe, Close, Grant, Instruct, Cap, Merge, Check, Restart})
  {
    AllRightsAre();
    hide ParsedRights, AllRights;
  }

  /** Who neither holds nor is offered a handle is authorized iff it presents the
      spawner's key before the spawner released. */
  lemma OutsiderIff(s: Record, c: Caller)
    requires Outside(s, c)
    ensures Authorized(c, s) <==> c.principal != "" && SpawnersKey(s, c) && !s.spawnerReleased
  {
  }

  /** Anyone else outside changes nothing, whatever it asks for. */
  lemma StrangerCannotAct(s: Record, c: Caller, recipient: string, text: string)
    requires Outside(s, c) && (c.principal == "" || !SpawnersKey(s, c) || s.spawnerReleased)
    ensures !Authorized(c, s)
    ensures GrantStep(s, c, recipient, text) == s && Accepting(s, c) == s && ReleaseStep(s, c) == s
  {
    hide ParsedRights, RightsText, CallerRights;
  }

  lemma StaysOutside(s: Record, step: Step, c: Caller)
    requires Outside(s, c) && (step.Granting? ==> step.recipient != c.principal)
    ensures Outside(Next(s, step), c) && Next(s, step).spawnedBy == s.spawnedBy
    ensures s.spawnerReleased ==> Next(s, step).spawnerReleased
  {
    hide ParsedRights, RightsText, CallerRights, Authorized, Without;
    WithoutHas(s.pending, step.c.principal);
    WithoutHas(s.holders, step.c.principal);
  }

  /** And so it stays, over every run in which nobody grants it a handle. */
  lemma {:induction false} StrangerNeverActs(s: Record, steps: seq<Step>, c: Caller, recipient: string, text: string)
    requires Outside(s, c) && (c.principal == "" || !SpawnersKey(s, c) || s.spawnerReleased)
    requires forall step | step in steps && step.Granting? :: step.recipient != c.principal
    ensures var t := After(s, steps);
      && Outside(t, c) && !Authorized(c, t)
      && GrantStep(t, c, recipient, text) == t && Accepting(t, c) == t && ReleaseStep(t, c) == t
    decreases |steps|
  {
    hide GrantStep, Accepting, ReleaseStep, Authorized, Outside, Next;
    if steps == [] {
      StrangerCannotAct(s, c, recipient, text);
    } else {
      assert steps[0] in steps;
      StaysOutside(s, steps[0], c);
      StrangerNeverActs(Next(s, steps[0]), steps[1..], c, recipient, text);
    }
  }

  // ----------------------------------------------------------- what commands do

  /** Taking a name out removes its first occurrence and nothing else. */
  lemma {:induction false} WithoutIs(names: seq<string>, name: string) returns (k: nat)
    ensures name !in names ==> Without(names, name) == names
    ensures name in names ==> k < |names| && names[k] == name && name !in names[..k] && Without(names, name) == names[..k] + names[k + 1..]
  {
    k := 0;
    if names != [] && names[0] != name {
      var first, rest := names[0], names[1..];
      assert names == [first] + rest;
      var l := WithoutIs(rest, name);
      k := l + 1;
      if name in rest { CutLater(first, rest, l); }
    }
  }

  lemma CutLater(first: string, rest: seq<string>, l: nat)
    requires l < |rest|
    ensures var names := [first] + rest;
      && names[..l + 1] == [first] + rest[..l] && names[l + 2..] == rest[l + 1..] && names[l + 1] == rest[l]
  {
  }

  /** One that was offered a handle takes it up: it moves to the end of the holders
      and its rights are what it was offered. */
  lemma AcceptMoves(s: Record, c: Caller) returns (k: nat)
    requires NoDuplicates(s) && c.principal != "" && c.principal in s.pending && c.principal !in s.holders
    ensures k < |s.pending| && s.pending[k] == c.principal
    ensures Accepting(s, c) == s.(pending := s.pending[..k] + s.pending[k + 1..], holders := s.holders + [c.principal])
    ensures Authorized(c, Accepting(s, c))
    ensures forall rights :: CallerRights(c, Accepting(s, c)) == Rights(rights) <==> HandleGives(s, c.principal, rights)
  {
    k := WithoutIs(s.pending, c.principal);
    var t := Accepting(s, c);
    hide ParsedRights, AllRights;
    forall rights ensures CallerRights(c, t) == Rights(rights) <==> HandleGives(s, c.principal, rights) {
      HolderActs(t, c, rights);
    }
  }

  /** What the caller may pass on once it acts: its handle's rights, or all of them
      for the spawner by its key. */
  ghost predicate MayPassOn(s: Record, c: Caller, rights: set<Right>) {
    && c.principal != ""
    && if c.principal in s.holders || c.principal in s.pending then HandleGives(s, c.principal, rights)
       else SpawnersKey(s, c) && !s.spawnerReleased && rights == {Observe, Close, Grant, Instruct, Cap, Merge, Check, Restart}
  }

  lemma ActsOnce(s: Record, c: Caller, rights: set<Right>)
    ensures var u := Accepting(s, c);
      Authorized(c, u) && CallerRights(c, u) == Rights(rights) <==> MayPassOn(s, c, rights)
  {
    var u := Accepting(s, c);
    if c.principal != "" && (c.principal in s.holders || c.principal in s.pending) {
      HolderActs(u, c, rights);
    } else {
      OutsiderIff(s, c);
      if Authorized(c, s) { SpawnerActs(s, c); }
    }
    hide ParsedRights, AllRights, Without, CallerRights;
  }

  /** The rights a grant names: observe and close when the text is empty. */
  ghost predicate Names(text: string, named: set<Right>) {
    if text == "" then named == {Observe, Close} else ParsedRights(text) == Some(named)
  }

  /** A grant takes effect iff the caller may pass on grant and every right the text
      names, and the recipient is somebody without a handle, given or offered. */
  lemma GrantTakesIff(s: Record, c: Caller, recipient: string, text: string)
    ensures Takes(s, c, recipient, text) <==>
      && (exists held, named :: MayPassOn(s, c, held) && Names(text, named) && Grant in held && named <= held)
      && recipient != "" && recipient !in s.holders && recipient !in s.pending
  {
    WithoutHas(s.pending, c.principal);
    assert IsNew(Accepting(s, c), recipient) <==> recipient != "" && recipient !in s.holders && recipient !in s.pending by {
      hide Without;
    }
    WantedIff(s, c, text);
    hide Wanted, Accepting, MayPassOn, Names, IsNew;
  }

  lemma WantedIff(s: Record, c: Caller, text: string)
    ensures Wanted(s, c, text).Some? <==>
      exists held, named :: MayPassOn(s, c, held) && Names(text, named) && Grant in held && named <= held
    ensures Wanted(s, c, text).Some? ==> Names(text, Wanted(s, c, text).value)
  {
    var u := Accepting(s, c);
    var asked := ParsedRights(if text == "" then RightsText(DefaultRights()) else text);
    hide Accepting, MayPassOn, Authorized, CallerRights, ParsedRights, RightsText, Names, DefaultRights;
    forall named ensures Names(text, named) <==> asked == Some(named) { AskedIff(text, named); }
    forall held ensures Authorized(c, u) && CallerRights(c, u) == Rights(held) <==> MayPassOn(s, c, held) { ActsOnce(s, c, held); }
    if Wanted(s, c, text).Some? {
      var held := CallerRights(c, u).names;
      assert MayPassOn(s, c, held) && Names(text, asked.value) && Grant in held && asked.value <= held;
    }
  }

  lemma AskedIff(text: string, named: set<Right>)
    ensures Names(text, named) <==> ParsedRights(if text == "" then RightsText(DefaultRights()) else text) == Some(named)
  {
    RightsRoundTrip(DefaultRights());
    hide ParsedRights, RightsText;
  }

  /** A grant that takes effect puts the recipient at the end of those with an offer,
      with a list that reads as the rights named, or observe and close when the text
      names none. The caller has accepted its own handle, and nothing else changes. */
  lemma GrantDoes(s: Record, c: Caller, recipient: string, text: string, named: set<Right>) returns (recorded: string)
    requires Takes(s, c, recipient, text) && Names(text, named)
    ensures var u := Accepting(s, c);
      GrantStep(s, c, recipient, text) == u.(pending := u.pending + [recipient], rights := s.rights[recipient := recorded])
    ensures ParsedRights(recorded) == Some(if named == {} then {Observe, Close} else named)
  {
    WantedIff(s, c, text);
    var wanted := Wanted(s, c, text).value;
    recorded := if RightsText(wanted) == "" then RightsText(DefaultRights()) else RightsText(wanted);
    assert wanted == named && wanted <= AllRights();
    RecordedText(wanted);
    TakenIsGranted(s, c, recipient, text);
    hide ParsedRights, RightsText, Wanted, AllRights;
  }

  /** A grant that does not take effect changes nothing, but that a caller offered a
      handle has accepted it where only the recipient stood in the way. */
  lemma RefusedGrantDoes(s: Record, c: Caller, recipient: string, text: string)
    requires !Takes(s, c, recipient, text)
    ensures GrantStep(s, c, recipient, text)
      == if exists held, named :: MayPassOn(s, c, held) && Names(text, named) && Grant in held && named <= held
         then Accepting(s, c) else s
  {
    WantedIff(s, c, text);
    hide Wanted, Accepting, MayPassOn, Names, RightsText;
  }

  /** What a grant names is what its recipient may do once it accepts, with observe:
      no more and no less. */
  lemma GrantedThenAccepted(s: Record, c: Caller, recipient: Caller, text: string, named: set<Right>)
    requires NoDuplicates(s) && Takes(s, c, recipient.principal, text) && Names(text, named)
    ensures var t := Accepting(GrantStep(s, c, recipient.principal, text), recipient);
      && recipient.principal in t.holders && Authorized(recipient, t)
      && CallerRights(recipient, t) == Rights((if named == {} then {Close} else named) + {Observe})
  {
    var r := recipient.principal;
    var recorded := GrantDoes(s, c, r, text, named);
    GrantTakesIff(s, c, r, text);
    GrantAddsOne(s, c, r, text);
    var t := GrantStep(s, c, r, text);
    var rights := (if named == {} then {Close} else named) + {Observe};
    assert r !in t.holders && r in t.pending && t.rights[r] == recorded by { hide Takes, Names; WithoutHas(s.pending, c.principal); hide Without; }
    assert HandleGives(t, r, rights) by {
      hide ParsedRights, Takes, GrantStep;
      var given := if named == {} then {Observe, Close} else named;
      assert rights == given + {Observe};
    }
    hide Takes, GrantStep, ParsedRights, HandleGives, Authorized, CallerRights, Accepting, Names;
    var _ := AcceptMoves(t, recipient);
  }

  /** A release takes the caller out of both lists and drops its list of rights, and
      nothing else; it ends the spawner's key iff the caller is the spawner, by
      principal or by key. */
  lemma ReleaseDoes(s: Record, c: Caller)
    requires NoDuplicates(s) && !Outside(s, c)
    ensures var t := ReleaseStep(s, c);
      && (forall p :: p in t.holders <==> p in s.holders && p != c.principal)
      && (forall p :: p in t.pending <==> p in s.pending && p != c.principal)
      && t.rights == s.rights - {c.principal}
      && t == s.(holders := t.holders, pending := t.pending, rights := t.rights, spawnerReleased := t.spawnerReleased)
      && (t.spawnerReleased <==> s.spawnerReleased || c.principal == s.spawnedByPrincipal || SpawnersKey(s, c))
  {
    WithoutHas(s.holders, c.principal);
    WithoutHas(s.pending, c.principal);
    hide Without;
  }

  // ---------------------------------------------------------- what runs cannot do

  lemma HandleKeptBy(s: Record, step: Step, p: string)
    requires p != "" && p in s.holders && (step.Releases? ==> step.c.principal != p)
    ensures var t := Next(s, step);
      p in t.holders && t.spawnedByPrincipal == s.spawnedByPrincipal && (p in t.rights <==> p in s.rights)
      && (p in s.rights ==> t.rights[p] == s.rights[p])
  {
    hide ParsedRights, RightsText, CallerRights, Authorized;
    WithoutHas(s.pending, step.c.principal);
    WithoutHas(s.holders, step.c.principal);
    hide Without;
  }

  /** Nobody takes a handle from another: over every run in which a holder does not
      release, it stays authorized and its rights stay what they were. */
  lemma {:induction false} HandleIsKept(s: Record, steps: seq<Step>, c: Caller)
    requires c.principal != "" && c.principal in s.holders
    requires forall step | step in steps && step.Releases? :: step.c.principal != c.principal
    ensures var t := After(s, steps);
      && Authorized(c, t) && forall rights :: CallerRights(c, t) == Rights(rights) <==> HandleGives(s, c.principal, rights)
    decreases |steps|
  {
    hide Next, ParsedRights, CallerRights, Authorized;
    if steps == [] {
      forall rights ensures CallerRights(c, s) == Rights(rights) <==> HandleGives(s, c.principal, rights) {
        HolderActs(s, c, rights);
      }
      HolderActs(s, c, {});
    } else {
      assert steps[0] in steps;
      HandleKeptBy(s, steps[0], c.principal);
      var t := Next(s, steps[0]);
      HandleIsKept(t, steps[1..], c);
      assert forall rights :: HandleGives(t, c.principal, rights) <==> HandleGives(s, c.principal, rights);
    }
  }
}
