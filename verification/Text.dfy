/** Go text as the modelled code sees it: a sequence of runes, split into lines
    and fields, ordered, and measured in bytes. */
module Text {

  datatype Option<+T> = None | Some(value: T)

  // ---------------------------------------------------------------- splitting

  /** strings.Split with a one-rune separator. */
  function Split(s: string, sep: char): (parts: seq<string>)
    ensures |parts| >= 1
  {
    if s == [] then [""]
    else if s[0] == sep then [""] + Split(s[1..], sep)
    else
      var rest := Split(s[1..], sep);
      [[s[0]] + rest[0]] + rest[1..]
  }

  /** strings.Join with a one-rune separator. */
  function Join(parts: seq<string>, sep: char): string {
    if |parts| == 0 then ""
    else if |parts| == 1 then parts[0]
    else parts[0] + [sep] + Join(parts[1..], sep)
  }

  ghost predicate Free(parts: seq<string>, sep: char) {
    forall i | 0 <= i < |parts| :: sep !in parts[i]
  }

  lemma {:induction false} SplitFirst(a: string, sep: char, rest: string)
    requires sep !in a
    ensures Split(a + [sep] + rest, sep) == [a] + Split(rest, sep)
    ensures Split(a, sep) == [a]
  {
    if a == [] {
      assert a + [sep] + rest == [sep] + rest;
    } else {
      SplitFirst(a[1..], sep, rest);
      assert (a + [sep] + rest)[1..] == a[1..] + [sep] + rest;
      assert [a[0]] + a[1..] == a;
    }
  }

  /** Splitting undoes joining, for parts that do not hold the separator. */
  lemma {:induction false} SplitJoin(parts: seq<string>, sep: char)
    requires |parts| >= 1 && Free(parts, sep)
    ensures Split(Join(parts, sep), sep) == parts
  {
    if |parts| == 1 {
      SplitFirst(parts[0], sep, "");
    } else {
      SplitFirst(parts[0], sep, Join(parts[1..], sep));
      SplitJoin(parts[1..], sep);
    }
  }

  /** The first character goes into the first part, or ends an empty one. */
  lemma SplitStep(s: string, sep: char)
    requires s != []
    ensures s[0] == sep ==> Split(s, sep) == [""] + Split(s[1..], sep)
    ensures s[0] != sep ==> Split(s, sep) == [[s[0]] + Split(s[1..], sep)[0]] + Split(s[1..], sep)[1..]
  {
  }

  lemma JoinStep(first: string, later: seq<string>, sep: char)
    ensures Join([first] + later, sep) == if later == [] then first else first + [sep] + Join(later, sep)
  {
    assert ([first] + later)[1..] == later;
  }

  lemma {:induction false} SplitFree(s: string, sep: char)
    ensures Free(Split(s, sep), sep)
  {
    if s != [] {
      SplitFree(s[1..], sep);
      SplitStep(s, sep);
      hide Split;
    }
  }

  /** Joining undoes splitting, and no part holds the separator. */
  lemma {:induction false} JoinSplit(s: string, sep: char)
    ensures Join(Split(s, sep), sep) == s
    ensures Free(Split(s, sep), sep)
  {
    SplitFree(s, sep);
    hide Free;
    if s != [] {
      JoinSplit(s[1..], sep);
      SplitStep(s, sep);
      hide Split, Join;
      var rest := Split(s[1..], sep);
      var first, later := rest[0], rest[1..];
      assert rest == [first] + later;
      JoinStep(first, later, sep);
      if s[0] == sep {
        JoinStep("", rest, sep);
        assert "" + [sep] + s[1..] == s;
      } else {
        JoinStep([s[0]] + first, later, sep);
        assert [s[0]] + s[1..] == s;
        if later != [] { assert ([s[0]] + first) + [sep] + Join(later, sep) == [s[0]] + (first + [sep] + Join(later, sep)); }
      }
    }
  }

  // -------------------------------------------------------------------- lines

  /** Newline-terminated lines, what a builder that writes line + "\n" holds. */
  function Unlines(lines: seq<string>): string {
    if lines == [] then "" else lines[0] + "\n" + Unlines(lines[1..])
  }

  /** strings.Split(strings.TrimSuffix(s, "\n"), "\n"). */
  function Lines(s: string): (lines: seq<string>)
    ensures |lines| >= 1
  {
    Split(if s != "" && s[|s| - 1] == '\n' then s[..|s| - 1] else s, '\n')
  }

  predicate EndsInNewline(s: string) {
    s != "" && s[|s| - 1] == '\n'
  }

  lemma {:induction false} UnlinesIsJoin(lines: seq<string>)
    requires |lines| >= 1
    ensures Unlines(lines) == Join(lines, '\n') + "\n"
  {
    if |lines| > 1 {
      UnlinesIsJoin(lines[1..]);
    } else {
      assert Unlines(lines[1..]) == "";
    }
  }

  lemma {:induction false} UnlinesAppend(a: seq<string>, b: seq<string>)
    ensures Unlines(a + b) == Unlines(a) + Unlines(b)
  {
    if a == [] {
      assert a + b == b;
    } else {
      UnlinesAppend(a[1..], b);
      assert (a + b)[1..] == a[1..] + b;
    }
  }

  /** Writing newline-free lines and reading them back gives the same lines. */
  lemma LinesUnlines(lines: seq<string>)
    requires |lines| >= 1 && Free(lines, '\n')
    ensures EndsInNewline(Unlines(lines)) && Lines(Unlines(lines)) == lines
  {
    UnlinesIsJoin(lines);
    SplitJoin(lines, '\n');
    var s := Unlines(lines);
    assert s[..|s| - 1] == Join(lines, '\n');
  }

  /** Reading a newline-terminated text and writing it back gives the same text. */
  lemma UnlinesLines(s: string)
    requires EndsInNewline(s)
    ensures Unlines(Lines(s)) == s && Free(Lines(s), '\n')
  {
    JoinSplit(s[..|s| - 1], '\n');
    UnlinesIsJoin(Lines(s));
  }

  lemma UnlinesInjective(a: seq<string>, b: seq<string>)
    requires Free(a, '\n') && Free(b, '\n') && Unlines(a) == Unlines(b)
    ensures a == b
  {
    if a != [] && b != [] {
      LinesUnlines(a);
      LinesUnlines(b);
    }
  }

  /** One part more than there are separators. */
  lemma {:induction false} SplitCount(s: string, sep: char)
    ensures |Split(s, sep)| == 1 + multiset(s)[sep]
  {
    if s != [] {
      SplitCount(s[1..], sep);
      assert s == [s[0]] + s[1..];
    }
  }

  lemma {:induction false} UnlinesCount(lines: seq<string>)
    ensures multiset(Unlines(lines))['\n'] >= |lines|
    ensures multiset(Unlines(lines))['\n'] == |lines| ==> Free(lines, '\n')
  {
    if lines != [] {
      UnlinesCount(lines[1..]);
      assert multiset(Unlines(lines)) == multiset(lines[0]) + multiset("\n") + multiset(Unlines(lines[1..]));
      assert multiset(lines[0])['\n'] == 0 ==> '\n' !in lines[0];
    }
  }

  /** A text with as many lines as were written has exactly the lines written. */
  lemma LinesWritten(lines: seq<string>)
    requires |lines| >= 1 && |Lines(Unlines(lines))| == |lines|
    ensures Free(lines, '\n') && Lines(Unlines(lines)) == lines
  {
    var s := Unlines(lines);
    UnlinesIsJoin(lines);
    SplitCount(s[..|s| - 1], '\n');
    assert s == s[..|s| - 1] + ['\n'];
    UnlinesCount(lines);
    LinesUnlines(lines);
  }

  // ----------------------------------------------------------- bytes and runes

  /** Bytes a rune takes in UTF-8. */
  function RuneBytes(c: char): (n: nat)
    ensures 1 <= n <= 4
  {
    if c < 0x80 as char then 1
    else if c < 0x800 as char then 2
    else if c < 0x10000 as char then 3
    else 4
  }

  /** len(s) of a Go string. */
  function ByteLen(s: string): nat {
    if s == [] then 0 else RuneBytes(s[0]) + ByteLen(s[1..])
  }

  lemma {:induction false} ByteLenAppend(a: string, b: string)
    ensures ByteLen(a + b) == ByteLen(a) + ByteLen(b)
  {
    if a == [] {
      assert a + b == b;
    } else {
      ByteLenAppend(a[1..], b);
      assert (a + b)[1..] == a[1..] + b;
    }
  }

  lemma {:induction false} ByteLenBound(s: string, width: nat)
    requires forall c | c in s :: RuneBytes(c) <= width
    ensures |s| <= ByteLen(s) <= width * |s|
  {
    if s != [] {
      ByteLenBound(s[1..], width);
      assert s[0] in s;
      assert width * |s| == width * |s[1..]| + width;
    }
  }

  /** unicode.IsSpace. */
  predicate IsSpace(c: char) {
    var code := c as int;
    || 0x09 <= code <= 0x0d || code in {0x20, 0x85, 0xa0, 0x1680}
    || 0x2000 <= code <= 0x200a || code in {0x2028, 0x2029, 0x202f, 0x205f, 0x3000}
  }

  /** strings.TrimSpace(s) == s. */
  predicate Trimmed(s: string) {
    s == "" || (!IsSpace(s[0]) && !IsSpace(s[|s| - 1]))
  }

  function TrimSpace(s: string): (t: string)
    ensures Trimmed(t)
    ensures Trimmed(s) ==> t == s
    ensures t == "" <==> forall i | 0 <= i < |s| :: IsSpace(s[i])
  {
    if s == "" then ""
    else if IsSpace(s[0]) then TrimSpace(s[1..])
    else if IsSpace(s[|s| - 1]) then TrimSpace(s[..|s| - 1])
    else s
  }

  // ----------------------------------------------------------------- ordering

  /** Go's < on strings. Comparing runes orders UTF-8 text as comparing bytes does. */
  predicate Less(a: string, b: string) {
    if b == "" then false
    else if a == "" then true
    else a[0] < b[0] || (a[0] == b[0] && Less(a[1..], b[1..]))
  }

  lemma {:induction false} LessTotal(a: string, b: string)
    ensures a == b || Less(a, b) || Less(b, a)
    ensures !(Less(a, b) && Less(b, a)) && !Less(a, a)
    decreases |a|
  {
    if a != "" {
      LessTotal(a[1..], a[1..]);
      if b != "" && a[0] == b[0] {
        LessTotal(a[1..], b[1..]);
        assert a == [a[0]] + a[1..] && b == [b[0]] + b[1..];
      }
    }
  }

  lemma {:induction false} LessTransitive(a: string, b: string, c: string)
    requires Less(a, b) && Less(b, c)
    ensures Less(a, c)
  {
    if a != "" && a[0] == b[0] == c[0] {
      LessTransitive(a[1..], b[1..], c[1..]);
    }
  }

  ghost predicate Ascending(names: seq<string>) {
    forall i, j | 0 <= i < j < |names| :: Less(names[i], names[j])
  }

  lemma AscendingTail(names: seq<string>)
    requires names != [] && Ascending(names)
    ensures Ascending(names[1..]) && names[0] !in names[1..]
    ensures forall n | n in names[1..] :: Less(names[0], n)
  {
    forall n | n in names[1..] ensures Less(names[0], n) && n != names[0] {
      var j :| 0 <= j < |names[1..]| && names[1..][j] == n;
      assert Less(names[0], names[j + 1]);
      LessTotal(n, n);
    }
  }

  lemma AscendingCons(name: string, names: seq<string>)
    requires Ascending(names) && forall n | n in names :: Less(name, n)
    ensures Ascending([name] + names)
  {
    hide Less;
    var all := [name] + names;
    forall i, j | 0 <= i < j < |all| ensures Less(all[i], all[j]) {
      assert all[j] == names[j - 1] && names[j - 1] in names;
      if i > 0 { assert all[i] == names[i - 1]; }
    }
  }

  ghost function Elements<T>(s: seq<T>): (elements: set<T>)
    ensures elements == {} <==> s == []
  {
    var all := set x | x in s;
    assert s != [] ==> s[0] in all;
    all
  }

  /** A strictly ascending list is determined by its elements. */
  lemma {:induction false} AscendingUnique(a: seq<string>, b: seq<string>)
    requires Ascending(a) && Ascending(b) && Elements(a) == Elements(b)
    ensures a == b
  {
    if a == [] || b == [] {
    } else {
      assert a[0] in Elements(b) && b[0] in Elements(a);
      LessTotal(a[0], b[0]);
      forall x ensures x in Elements(a[1..]) <==> x in Elements(b[1..]) {
        LessTotal(a[0], a[0]);
        assert a == [a[0]] + a[1..] && b == [b[0]] + b[1..];
        assert x in Elements(a) <==> x == a[0] || x in a[1..];
        assert x in Elements(b) <==> x == b[0] || x in b[1..];
      }
      AscendingUnique(a[1..], b[1..]);
    }
  }

  /** Puts a name into an ascending list. */
  function Insert(name: string, names: seq<string>): seq<string> {
    if names == [] then [name]
    else if Less(name, names[0]) then [name] + names
    else [names[0]] + Insert(name, names[1..])
  }

  lemma {:induction false} InsertAscending(name: string, names: seq<string>)
    requires Ascending(names) && name !in names
    ensures Ascending(Insert(name, names)) && Elements(Insert(name, names)) == Elements(names) + {name}
  {
    if names == [] {
      assert Elements([name]) == {name};
    } else {
      LessTotal(name, names[0]);
      assert names == [names[0]] + names[1..];
      if Less(name, names[0]) {
        forall j | 1 <= j < |names| ensures Less(name, names[j]) {
          LessTransitive(name, names[0], names[j]);
        }
      } else {
        InsertAscending(name, names[1..]);
        var tail := Insert(name, names[1..]);
        forall j | 0 <= j < |tail| ensures Less(names[0], tail[j]) {
          assert tail[j] in Elements(tail);
        }
      }
      forall x ensures x in Elements(Insert(name, names)) <==> x in Elements(names) + {name} {
        assert x in Elements(Insert(name, names)) <==> x in Insert(name, names);
        assert x in names <==> x == names[0] || x in names[1..];
        if !Less(name, names[0]) {
          assert x in Elements(Insert(name, names[1..])) <==> x in Elements(names[1..]) + {name};
        }
      }
    }
  }

  predicate IsLeast(name: string, names: set<string>) {
    name in names && forall m | m in names :: m == name || Less(name, m)
  }

  lemma {:induction false} LeastExists(names: set<string>) returns (name: string)
    requires names != {}
    ensures IsLeast(name, names)
  {
    var some :| some in names;
    if names == {some} {
      name := some;
    } else {
      var rest := names - {some};
      assert rest != {};
      var least := LeastExists(rest);
      LessTotal(some, least);
      name := if Less(some, least) then some else least;
      forall m | m in names ensures m == name || Less(name, m) {
        if m != some && Less(some, least) && m != least { LessTransitive(some, least, m); }
      }
    }
  }

  lemma LeastUnique(names: set<string>)
    ensures forall a, b | IsLeast(a, names) && IsLeast(b, names) :: a == b
  {
    forall a, b | IsLeast(a, names) && IsLeast(b, names) ensures a == b {
      LessTotal(a, b);
    }
  }

  /** The names in strictly ascending order. */
  function Sorted(names: set<string>): (r: seq<string>)
    ensures Ascending(r) && Elements(r) == names
  {
    if names == {} then []
    else
      assert exists name :: IsLeast(name, names) by { var least := LeastExists(names); }
      LeastUnique(names);
      var name :| IsLeast(name, names);
      var rest := Sorted(names - {name});
      SortedStep(name, names, rest);
      [name] + rest
  }

  lemma SortedStep(name: string, names: set<string>, rest: seq<string>)
    requires IsLeast(name, names) && Ascending(rest) && Elements(rest) == names - {name}
    ensures Ascending([name] + rest) && Elements([name] + rest) == names
  {
    forall n | n in rest ensures Less(name, n) {
      assert n in Elements(rest);
    }
    AscendingCons(name, rest);
    forall x ensures x in Elements([name] + rest) <==> x in names {
      assert x in Elements(rest) <==> x in rest;
    }
  }

  /** Ranging over a map's keys in any order and sorting them (sort.Strings). */
  method SortNames(names: set<string>) returns (r: seq<string>)
    ensures r == Sorted(names)
  {
    r := [];
    var rest := names;
    while rest != {}
      invariant rest <= names && Ascending(r) && Elements(r) == names - rest
    {
      var name :| name in rest;
      assert name !in Elements(r);
      InsertAscending(name, r);
      r := Insert(name, r);
      rest := rest - {name};
    }
    AscendingUnique(r, Sorted(names));
  }

  // ---------------------------------------------------------------- selections

  /** Places in a sequence of length n, in order, none twice. */
  ghost predicate Rises(at: seq<nat>, n: nat) {
    (forall i | 0 <= i < |at| :: at[i] < n) && (forall i, j | 0 <= i < j < |at| :: at[i] < at[j])
  }

  /** kept is what stands in all at the places at, in order. */
  ghost predicate Selects<T>(all: seq<T>, at: seq<nat>, kept: seq<T>) {
    Rises(at, |all|) && |kept| == |at| && forall i | 0 <= i < |at| :: kept[i] == all[at[i]]
  }

  /** kept is the elements of all that pass, in their order, each as often as it stands. */
  ghost predicate Sieves<T>(all: seq<T>, kept: seq<T>, keep: T -> bool) {
    exists at :: Selects(all, at, kept) && forall k: nat | k < |all| :: k in at <==> keep(all[k])
  }

  lemma NothingSelected<T>()
    ensures Selects<T>([], [], [])
  {
  }

  /** Taking the next element too, or leaving it out. */
  lemma SelectsMore<T>(all: seq<T>, at: seq<nat>, kept: seq<T>, next: T, take: bool)
    requires Selects(all, at, kept)
    ensures var taken := if take then at + [|all|] else at;
      && Selects(all + [next], taken, if take then kept + [next] else kept)
      && (|all| in taken <==> take) && forall k | k < |all| :: k in taken <==> k in at
  {
  }
}
