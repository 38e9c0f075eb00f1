/** The calendar the other modules are given can exist: a fixed-length, injective
    spelling of the seconds of the years 0000 to 9999 with a parser that reads it
    back (the layout of internal/0/profilegrant/grant.go). */
module Clocks {
  import opened Text
  import opened Grants

  function Pow10(k: nat): nat {
    if k == 0 then 1 else 10 * Pow10(k - 1)
  }

  function Digits(n: nat, k: nat): (s: string)
    ensures |s| == k && forall c | c in s :: '0' <= c <= '9'
    decreases k
  {
    if k == 0 then "" else Digits(n / 10, k - 1) + ['0' + (n % 10) as char]
  }

  lemma {:induction false} DigitsInjective(n: nat, m: nat, k: nat)
    requires n < Pow10(k) && m < Pow10(k) && Digits(n, k) == Digits(m, k)
    ensures n == m
    decreases k
  {
    if k > 0 {
      var a, b := Digits(n, k), Digits(m, k);
      assert a[k - 1] == '0' + (n % 10) as char && b[k - 1] == '0' + (m % 10) as char;
      assert a[..k - 1] == Digits(n / 10, k - 1) && b[..k - 1] == Digits(m / 10, k - 1);
      DigitsInjective(n / 10, m / 10, k - 1);
    }
  }

  function Marks(c: char, n: nat): (s: string)
    ensures |s| == n && forall d | d in s :: d == c
  {
    seq(n, _ => c)
  }

  /** Twenty digits within the calendar, longer marks before and after it. */
  function Format(t: int): string {
    var n := Seconds(t) - FIRST_SECOND;
    if Renderable(t) then Digits(n, 20)
    else if n < 0 then Marks('T', 20 - n)
    else Marks('Z', 21 + n)
  }

  ghost function Parse(s: string): Option<int> {
    if t :| Renderable(t) && Format(t) == s then Some(Seconds(t) * NANOS) else None
  }

  lemma FormatInjective(t: int, u: int)
    requires Format(t) == Format(u)
    ensures Seconds(t) == Seconds(u)
  {
    var n, m := Seconds(t) - FIRST_SECOND, Seconds(u) - FIRST_SECOND;
    if Renderable(t) && Renderable(u) {
      assert Pow10(12) == 1_000_000_000_000 && Pow10(20) > Pow10(12);
      DigitsInjective(n, m, 20);
    } else {
      assert |Format(t)| == |Format(u)|;
      assert !Renderable(t) && !Renderable(u);
      assert Format(t)[0] == Format(u)[0];
    }
  }

  lemma FormatPlain(t: int)
    ensures Format(t) != "" && forall c | c in Format(t) :: ClockRune(c)
    ensures Renderable(t) ==> |Format(t)| == 20
  {
  }

  lemma FormatSame(t: int, u: int)
    requires Seconds(t) == Seconds(u)
    ensures Format(t) == Format(u)
  {
  }

  lemma ParseReads(t: int)
    requires Renderable(t)
    ensures Parse(Format(t)) == Some(Seconds(t) * NANOS)
  {
    var u :| Renderable(u) && Format(u) == Format(t) && Parse(Format(t)) == Some(Seconds(u) * NANOS);
    FormatInjective(t, u);
  }

  lemma ParseRenderable(s: string)
    requires Parse(s).Some?
    ensures Renderable(Parse(s).value)
  {
    var t :| Renderable(t) && Format(t) == s && Parse(s) == Some(Seconds(t) * NANOS);
    assert Seconds(Seconds(t) * NANOS) == Seconds(t);
  }

  lemma ClockExists() returns (clock: Clock)
    ensures ValidClock(clock)
  {
    hide Format, Parse, Renderable, Seconds, ClockRune;
    clock := Clock(Format, Parse);
    forall t ensures clock.format(t) != "" && forall c | c in clock.format(t) :: ClockRune(c) {
      FormatPlain(t);
    }
    forall t, u ensures clock.format(t) == clock.format(u) <==> Seconds(t) == Seconds(u) {
      if clock.format(t) == clock.format(u) { FormatInjective(t, u); }
      if Seconds(t) == Seconds(u) { FormatSame(t, u); }
    }
    forall t | Renderable(t)
      ensures |clock.format(t)| == 20 && clock.parse(clock.format(t)) == Some(Seconds(t) * NANOS)
    {
      FormatPlain(t);
      ParseReads(t);
    }
    forall s | clock.parse(s).Some? ensures Renderable(clock.parse(s).value) {
      ParseRenderable(s);
    }
  }
}
