/** Which directories' git runs are hardened: registrations counted by
    reference, and the longest registered directory above a path
    (internal/0/git/harden.go). */
module Harden {
  import opened Text

  datatype Hardening = Hardening(env: seq<string>, args: seq<string>)
  datatype Entry = Entry(h: Hardening, refs: nat)

  type Table = map<string, Entry>

  // --------------------------------------------------------------- registering

  function Registered(m: Table, k: string, h: Hardening): Table {
    m[k := Entry(h, if k in m then m[k].refs + 1 else 1)]
  }

  function Unregistered(m: Table, k: string): Table {
    if k !in m then m
    else if m[k].refs <= 1 then m - {k}
    else m[k := Entry(m[k].h, m[k].refs - 1)]
  }

  function RegisteredAll(m: Table, keys: seq<string>, h: Hardening): Table {
    if keys == [] then m
    else Registered(RegisteredAll(m, keys[..|keys| - 1], h), keys[|keys| - 1], h)
  }

  function UnregisteredAll(m: Table, keys: seq<string>): Table {
    if keys == [] then m
    else Unregistered(UnregisteredAll(m, keys[..|keys| - 1]), keys[|keys| - 1])
  }

  class Registry {
    var m: Table

    constructor ()
      ensures m == map[]
    {
      m := map[];
    }

    /** Confine's locked part, for a directory's keys. */
    method Confine(keys: seq<string>, h: Hardening)
      modifies this
      ensures m == RegisteredAll(old(m), keys, h)
    {
      for i := 0 to |keys|
        invariant m == RegisteredAll(old(m), keys[..i], h)
      {
        assert keys[..i + 1][..i] == keys[..i];
        var k := keys[i];
        if k in m {
          m := m[k := Entry(h, m[k].refs + 1)];
        } else {
          m := m[k := Entry(h, 1)];
        }
      }
      assert keys[..|keys|] == keys;
    }

    /** The release Confine returned. */
    method Release(keys: seq<string>)
      modifies this
      ensures m == UnregisteredAll(old(m), keys)
    {
      for i := 0 to |keys|
        invariant m == UnregisteredAll(old(m), keys[..i])
      {
        assert keys[..i + 1][..i] == keys[..i];
        var k := keys[i];
        if k in m {
          if m[k].refs <= 1 {
            m := m - {k};
          } else {
            m := m[k := m[k].(refs := m[k].refs - 1)];
          }
        }
      }
      assert keys[..|keys|] == keys;
    }

    /** HardeningFor: the table is read in whatever order its keys come. */
    method HardeningFor(forms: seq<string>) returns (r: Option<Hardening>)
      ensures r.None? <==> !SomeCovers(m, forms)
      ensures r.Some? ==> exists f, best :: IsBest(m, forms, f, best) && r.value == m[best].h
    {
      hide Covers, IsBest, SomeCovers, FoundAmong, ByteLen;
      if m == map[] {
        EmptyCoversNothing(forms);
        return None;
      }
      r := None;
      ghost var from: nat := 0;
      var best := "";
      NothingYet(m, forms);
      for f := 0 to |forms|
        invariant FoundUpTo(m, forms, f, r, from, best)
      {
        var k := forms[f];
        var pending := m.Keys;
        StartForm(m, forms, f, r, from, best);
        while pending != {}
          invariant pending <= m.Keys && FoundAmong(m, forms, f, m.Keys - pending, r, from, best)
          decreases |pending|
        {
          var reg :| reg in pending;
          SeeOne(m, forms, f, m.Keys - pending, r, from, best, reg);
          assert m.Keys - pending + {reg} == m.Keys - (pending - {reg});
          pending := pending - {reg};
          if Covers(k, reg) && (r.None? || ByteLen(reg) > ByteLen(best)) {
            best, r, from := reg, Some(m[reg].h), f;
          }
        }
        assert m.Keys - pending == m.Keys;
        SeenAll(m, forms, f, r, from, best);
      }
      assert forms[..|forms|] == forms;
      FoundIsSome(m, forms, r, from, best);
    }
  }

  // -------------------------------------------------------------------- lookup

  /** The directory is the path or, spelled with a separator, a prefix of it. */
  predicate Covers(path: string, dir: string) {
    path == dir || dir + "/" <= path
  }

  ghost predicate SomeCovers(m: Table, forms: seq<string>) {
    exists f, reg :: 0 <= f < |forms| && reg in m && Covers(forms[f], reg)
  }

  /** The longest registered directory covering a form of the path, and of the
      longest ones that of the first form. */
  ghost predicate IsBest(m: Table, forms: seq<string>, f: nat, best: string) {
    && f < |forms| && best in m && Covers(forms[f], best)
    && (forall g, reg | 0 <= g < |forms| && reg in m && Covers(forms[g], reg) :: ByteLen(reg) <= ByteLen(best))
    && (forall g, reg | 0 <= g < f && reg in m && Covers(forms[g], reg) :: ByteLen(reg) < ByteLen(best))
  }

  ghost predicate FoundUpTo(m: Table, forms: seq<string>, n: nat, r: Option<Hardening>, f: nat, best: string) {
    && n <= |forms|
    && if r.None? then !SomeCovers(m, forms[..n]) else IsBest(m, forms[..n], f, best) && r.value == m[best].h
  }

  /** What is found among the forms before the n'th and, for that one, the keys seen. */
  ghost predicate FoundAmong(
    m: Table, forms: seq<string>, n: nat, seen: set<string>, r: Option<Hardening>, f: nat, best: string)
  {
    && n < |forms|
    && if r.None? then
         && (forall g, reg | 0 <= g < n && reg in m :: !Covers(forms[g], reg))
         && (forall reg | reg in m && reg in seen :: !Covers(forms[n], reg))
       else
         && f <= n && best in m && Covers(forms[f], best) && r.value == m[best].h
         && (forall g, reg | 0 <= g < n && reg in m && Covers(forms[g], reg) :: ByteLen(reg) <= ByteLen(best))
         && (forall reg | reg in m && reg in seen && Covers(forms[n], reg) :: ByteLen(reg) <= ByteLen(best))
         && (forall g, reg | 0 <= g < f && reg in m && Covers(forms[g], reg) :: ByteLen(reg) < ByteLen(best))
  }

  lemma EmptyCoversNothing(forms: seq<string>)
    ensures !SomeCovers(map[], forms)
  {
  }

  lemma NothingYet(m: Table, forms: seq<string>)
    ensures FoundUpTo(m, forms, 0, None, 0, "")
  {
  }

  lemma StartForm(m: Table, forms: seq<string>, n: nat, r: Option<Hardening>, f: nat, best: string)
    requires n < |forms| && FoundUpTo(m, forms, n, r, f, best)
    ensures FoundAmong(m, forms, n, m.Keys - m.Keys, r, f, best)
  {
    hide Covers, ByteLen;
    assert forall g | 0 <= g < n :: forms[..n][g] == forms[g];
  }

  lemma SeeOne(m: Table, forms: seq<string>, n: nat, seen: set<string>, r: Option<Hardening>, f: nat, best: string, reg: string)
    requires FoundAmong(m, forms, n, seen, r, f, best) && reg in m
    ensures if Covers(forms[n], reg) && (r.None? || ByteLen(reg) > ByteLen(best))
      then FoundAmong(m, forms, n, seen + {reg}, Some(m[reg].h), n, reg)
      else FoundAmong(m, forms, n, seen + {reg}, r, f, best)
  {
    hide Covers, ByteLen;
  }

  lemma SeenAll(m: Table, forms: seq<string>, n: nat, r: Option<Hardening>, f: nat, best: string)
    requires FoundAmong(m, forms, n, m.Keys, r, f, best)
    ensures FoundUpTo(m, forms, n + 1, r, f, best)
  {
    hide Covers, ByteLen;
    assert forall g | 0 <= g < n + 1 :: forms[..n + 1][g] == forms[g];
  }

  lemma FoundIsSome(m: Table, forms: seq<string>, r: Option<Hardening>, f: nat, best: string)
    requires FoundUpTo(m, forms, |forms|, r, f, best)
    ensures r.None? <==> !SomeCovers(m, forms)
    ensures r.Some? ==> IsBest(m, forms, f, best) && r.value == m[best].h
  {
    hide Covers, ByteLen;
    assert forms[..|forms|] == forms;
  }

  /** The answer does not depend on the order the table was read in. */
  lemma BestIsOne(m: Table, forms: seq<string>, f: nat, best: string, g: nat, other: string)
    requires IsBest(m, forms, f, best) && IsBest(m, forms, g, other)
    ensures f == g && best == other
  {
    assert ByteLen(best) == ByteLen(other);
    assert f == g;
    CoveringIsPrefix(forms[f], best);
    CoveringIsPrefix(forms[f], other);
    PrefixBytes(forms[f], |best|, |other|);
  }

  lemma CoveringIsPrefix(path: string, dir: string)
    requires Covers(path, dir)
    ensures dir <= path && dir == path[..|dir|]
  {
  }

  /** Prefixes of one path with as many bytes are one prefix. */
  lemma PrefixBytes(path: string, n: nat, k: nat)
    requires n <= |path| && k <= |path| && ByteLen(path[..n]) == ByteLen(path[..k])
    ensures n == k
  {
    var low, high := if n < k then n else k, if n < k then k else n;
    assert path[..high] == path[..low] + path[low..high];
    ByteLenAppend(path[..low], path[low..high]);
    ByteLenBound(path[low..high], 4);
  }

  // ---------------------------------------------------------------------- runs

  /** A call of Confine and whether its release ran. */
  datatype Call = Call(keys: seq<string>, h: Hardening, released: bool)
  datatype State = State(m: Table, calls: seq<Call>)
  datatype Step = Confines(keys: seq<string>, h: Hardening) | Releases(i: nat)

  ghost predicate Distinct(keys: seq<string>) {
    forall i, j | 0 <= i < j < |keys| :: keys[i] != keys[j]
  }

  /** Each release runs once; a directory's two forms differ. */
  ghost predicate Enabled(s: State, step: Step) {
    match step
    case Confines(keys, h) => Distinct(keys)
    case Releases(i) => i < |s.calls| && !s.calls[i].released
  }

  function Next(s: State, step: Step): State {
    match step
    case Confines(keys, h) => State(RegisteredAll(s.m, keys, h), s.calls + [Call(keys, h, false)])
    case Releases(i) =>
      if i >= |s.calls| then s
      else State(UnregisteredAll(s.m, s.calls[i].keys), s.calls[i := s.calls[i].(released := true)])
  }

  ghost predicate IsRun(s: State, steps: seq<Step>)
    decreases |steps|
  {
    steps == [] || (Enabled(s, steps[0]) && IsRun(Next(s, steps[0]), steps[1..]))
  }

  function After(s: State, steps: seq<Step>): State
    decreases |steps|
  {
    if steps == [] then s else After(Next(s, steps[0]), steps[1..])
  }

  /** Registrations of a key that are not released. */
  function Outstanding(calls: seq<Call>, k: string): nat {
    if calls == [] then 0
    else
      var last := calls[|calls| - 1];
      Outstanding(calls[..|calls| - 1], k) + (if k in last.keys && !last.released then 1 else 0)
  }

  ghost predicate IsLatest(calls: seq<Call>, k: string, i: int) {
    0 <= i < |calls| && k in calls[i].keys && forall j | i < j < |calls| :: k !in calls[j].keys
  }

  /** A key is in the table exactly while some registration of it is outstanding,
      counted as often, with what the latest one asked for. */
  ghost predicate Counts(s: State) {
    && (forall i | 0 <= i < |s.calls| :: Distinct(s.calls[i].keys))
    && forall k ::
      && (k in s.m <==> Outstanding(s.calls, k) > 0)
      && (k in s.m ==> s.m[k].refs == Outstanding(s.calls, k))
      && (k in s.m ==> exists i :: IsLatest(s.calls, k, i) && s.m[k].h == s.calls[i].h)
  }

  lemma {:induction false} RegisteredAllIs(m: Table, keys: seq<string>, h: Hardening, k: string)
    requires Distinct(keys)
    ensures k in RegisteredAll(m, keys, h) <==> k in keys || k in m
    ensures k in keys ==> RegisteredAll(m, keys, h)[k] == Entry(h, if k in m then m[k].refs + 1 else 1)
    ensures k !in keys && k in m ==> RegisteredAll(m, keys, h)[k] == m[k]
  {
    if keys != [] {
      var rest := keys[..|keys| - 1];
      RegisteredAllIs(m, rest, h, k);
      assert keys == rest + [keys[|keys| - 1]];
    }
  }

  lemma {:induction false} UnregisteredAllIs(m: Table, keys: seq<string>, k: string)
    requires Distinct(keys)
    ensures k in UnregisteredAll(m, keys) <==> k in m && (k in keys ==> m[k].refs > 1)
    ensures k in keys && k in m && m[k].refs > 1 ==> UnregisteredAll(m, keys)[k] == Entry(m[k].h, m[k].refs - 1)
    ensures k !in keys && k in m ==> UnregisteredAll(m, keys)[k] == m[k]
  {
    if keys != [] {
      var rest := keys[..|keys| - 1];
      UnregisteredAllIs(m, rest, k);
      assert keys == rest + [keys[|keys| - 1]];
    }
  }

  lemma {:induction false} ReleasedOne(calls: seq<Call>, i: nat, k: string)
    requires i < |calls| && !calls[i].released
    ensures Outstanding(calls[i := calls[i].(released := true)], k)
      == Outstanding(calls, k) - (if k in calls[i].keys then 1 else 0)
  {
    var n := |calls| - 1;
    var t := calls[i := calls[i].(released := true)];
    if i < n {
      ReleasedOne(calls[..n], i, k);
      assert t[..n] == calls[..n][i := calls[i].(released := true)];
    } else {
      assert t[..n] == calls[..n];
    }
  }

  lemma CountsConfine(s: State, keys: seq<string>, h: Hardening)
    requires Counts(s) && Distinct(keys)
    ensures Counts(Next(s, Confines(keys, h)))
  {
    var t := Next(s, Confines(keys, h));
    var n := |s.calls|;
    assert t.calls[..n] == s.calls;
    hide RegisteredAll;
    forall k
      ensures k in t.m <==> Outstanding(t.calls, k) > 0
      ensures k in t.m ==> t.m[k].refs == Outstanding(t.calls, k)
      ensures k in t.m ==> exists i :: IsLatest(t.calls, k, i) && t.m[k].h == t.calls[i].h
    {
      RegisteredAllIs(s.m, keys, h, k);
      if k in keys {
        assert IsLatest(t.calls, k, n);
      } else if k in s.m {
        var i :| IsLatest(s.calls, k, i) && s.m[k].h == s.calls[i].h;
        assert IsLatest(t.calls, k, i);
      }
    }
  }

  lemma CountsRelease(s: State, i: nat)
    requires Counts(s) && i < |s.calls| && !s.calls[i].released
    ensures Counts(Next(s, Releases(i)))
  {
    var t := Next(s, Releases(i));
    hide UnregisteredAll;
    forall k
      ensures k in t.m <==> Outstanding(t.calls, k) > 0
      ensures k in t.m ==> t.m[k].refs == Outstanding(t.calls, k)
      ensures k in t.m ==> exists i :: IsLatest(t.calls, k, i) && t.m[k].h == t.calls[i].h
    {
      UnregisteredAllIs(s.m, s.calls[i].keys, k);
      ReleasedOne(s.calls, i, k);
      if k in s.m {
        var j :| IsLatest(s.calls, k, j) && s.m[k].h == s.calls[j].h;
        assert IsLatest(t.calls, k, j);
      }
    }
  }

  lemma {:induction false} CountsRun(s: State, steps: seq<Step>)
    requires Counts(s) && IsRun(s, steps)
    ensures Counts(After(s, steps))
    decreases |steps|
  {
    hide Counts, Next;
    if steps != [] {
      match steps[0] {
        case Confines(keys, h) => CountsConfine(s, keys, h);
        case Releases(i) => CountsRelease(s, i);
      }
      CountsRun(Next(s, steps[0]), steps[1..]);
    }
  }

  const NOTHING_REGISTERED := State(map[], [])

  /** The count holds after any sequence of registrations and single releases. */
  lemma RefsAreOutstanding(steps: seq<Step>)
    requires IsRun(NOTHING_REGISTERED, steps)
    ensures Counts(After(NOTHING_REGISTERED, steps))
  {
    CountsRun(NOTHING_REGISTERED, steps);
  }

  // ------------------------------------------------------- directories beneath

  /** The names in a cleaned absolute path, each behind a separator. */
  function Behind(names: seq<string>): string {
    if names == [] then "" else "/" + names[0] + Behind(names[1..])
  }

  function PathOf(names: seq<string>): string {
    if names == [] then "/" else Behind(names)
  }

  ghost predicate AreNames(names: seq<string>) {
    Free(names, '/') && forall i | 0 <= i < |names| :: names[i] != ""
  }

  /** The names, each with a separator behind it, and a rest. */
  function Leading(names: seq<string>, rest: string): string {
    if names == [] then rest else names[0] + ['/'] + Leading(names[1..], rest)
  }

  lemma {:induction false} SplitLeading(names: seq<string>, rest: string)
    requires Free(names, '/')
    ensures Split(Leading(names, rest), '/') == names + Split(rest, '/')
  {
    if names == [] {
      assert [] + Split(rest, '/') == Split(rest, '/');
    } else {
      hide Split;
      SplitLeading(names[1..], rest);
      var inner := Leading(names[1..], rest);
      assert Leading(names, rest) == names[0] + ['/'] + inner;
      hide Leading;
      SplitFirst(names[0], '/', inner);
      assert [names[0]] + (names[1..] + Split(rest, '/')) == names + Split(rest, '/');
    }
  }

  lemma {:induction false} BehindLeading(names: seq<string>, rest: string)
    ensures Behind(names) + "/" + rest == "/" + Leading(names, rest)
  {
    if names != [] {
      BehindLeading(names[1..], rest);
      calc {
        Behind(names) + "/" + rest;
        "/" + names[0] + Behind(names[1..]) + "/" + rest;
        { assert ("/" + names[0] + Behind(names[1..])) + "/" + rest == ("/" + names[0]) + (Behind(names[1..]) + "/" + rest); }
        "/" + names[0] + ("/" + Leading(names[1..], rest));
        "/" + (names[0] + ['/'] + Leading(names[1..], rest));
      }
    }
  }

  lemma SplitBehind(names: seq<string>, rest: string)
    requires Free(names, '/')
    ensures Split(Behind(names) + "/" + rest, '/') == [""] + names + Split(rest, '/')
  {
    BehindLeading(names, rest);
    SplitLeading(names, rest);
    hide Behind, Leading;
    var all := "/" + Leading(names, rest);
    assert all[1..] == Leading(names, rest);
    assert [""] + (names + Split(rest, '/')) == [""] + names + Split(rest, '/');
  }

  lemma {:induction false} BehindAppend(a: seq<string>, b: seq<string>)
    ensures Behind(a + b) == Behind(a) + Behind(b)
  {
    if a == [] {
      assert a + b == b;
    } else {
      assert (a + b)[1..] == a[1..] + b;
      BehindAppend(a[1..], b);
    }
  }

  lemma PrefixNames(dir: seq<string>, path: seq<string>)
    requires AreNames(dir) && AreNames(path) && Behind(dir) + "/" <= Behind(path) + "/"
    ensures dir <= path
  {
    var rest := (Behind(path) + "/")[|Behind(dir)| + 1..];
    assert Behind(dir) + "/" + rest == Behind(path) + "/" + "";
    SplitBehind(dir, rest);
    SplitBehind(path, "");
    var a, b := [""] + dir + Split(rest, '/'), [""] + path + Split("", '/');
    assert a == b && |Split("", '/')| == 1;
    assert dir == a[1..1 + |dir|] && path == b[1..1 + |path|];
  }

  /** A registered directory covers exactly itself and what is beneath it, except
      that the root directory covers nothing but itself. */
  lemma CoversIffBeneath(dir: seq<string>, path: seq<string>)
    requires AreNames(dir) && AreNames(path)
    ensures Covers(PathOf(path), PathOf(dir)) <==> dir <= path && (dir == [] ==> path == [])
  {
    if dir == [] {
      if path != [] {
        assert Behind(path)[1] == path[0][0];
      }
    } else if path == [] {
      assert |Behind(dir)| >= 2;
    } else {
      if Covers(PathOf(path), PathOf(dir)) {
        PrefixNames(dir, path);
      }
      if dir <= path {
        assert path == dir + path[|dir|..];
        BehindAppend(dir, path[|dir|..]);
      }
    }
  }

  /** So nothing below a registered root directory is hardened by it. */
  lemma RootCoversNothingBelow(path: seq<string>)
    requires AreNames(path) && path != []
    ensures !SomeCovers(map["/" := Entry(Hardening([], []), 1)], [PathOf(path)])
  {
    CoversIffBeneath([], path);
  }

  /** The answer is the innermost: of the registered directories at or above a path
      the one chosen lies beneath every other. */
  lemma InnermostWins(m: Table, path: seq<string>, dir: seq<string>, other: seq<string>)
    requires AreNames(path) && AreNames(dir) && AreNames(other)
    requires IsBest(m, [PathOf(path)], 0, PathOf(dir))
    requires PathOf(other) in m && other != [] && other <= path
    ensures other <= dir <= path
  {
    CoversIffBeneath(dir, path);
    CoversIffBeneath(other, path);
    var forms := [PathOf(path)];
    assert Covers(forms[0], PathOf(other)) && ByteLen(PathOf(other)) <= ByteLen(PathOf(dir));
    hide Covers, IsBest, ByteLen;
    if !(other <= dir) {
      assert dir <= other && other == dir + other[|dir|..];
      LongerBeneath(dir, other[|dir|..]);
    }
  }

  lemma LongerBeneath(dir: seq<string>, rest: seq<string>)
    requires dir != [] && rest != []
    ensures ByteLen(PathOf(dir + rest)) > ByteLen(PathOf(dir))
  {
    BehindAppend(dir, rest);
    ByteLenAppend(Behind(dir), Behind(rest));
    assert Behind(rest) == "/" + rest[0] + Behind(rest[1..]);
    ByteLenBound(Behind(rest), 4);
  }

  /** What is answered, spelled out: it covers a form of the path, no registered
      directory that covers one is longer, and none as long covers an earlier form. */
  lemma BestIff(m: Table, forms: seq<string>, f: nat, best: string)
    ensures IsBest(m, forms, f, best) <==>
      && f < |forms| && best in m && AtOrAbove(best, forms[f])
      && forall g, reg | 0 <= g < |forms| && reg in m && AtOrAbove(reg, forms[g]) ::
           ByteLen(reg) < ByteLen(best) || (ByteLen(reg) == ByteLen(best) && f <= g)
  {
    hide ByteLen;
  }

  /** The directory is the path, or all of it before a separator in the path. */
  ghost predicate AtOrAbove(dir: string, path: string) {
    dir == path || (|dir| < |path| && path[..|dir|] == dir && path[|dir|] == '/')
  }
}
