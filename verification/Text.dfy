/** Decimal text: integers and prices as the agent prints and reads them. */
module Text {
  import opened Std

  predicate IsDigit(c: char) { '0' <= c <= '9' }

  function DigitOf(n: nat): char
    requires n < 10
    ensures IsDigit(DigitOf(n))
  {
    "0123456789"[n]
  }

  function DigitValue(c: char): nat
    requires IsDigit(c)
  {
    c as nat - '0' as nat
  }

  function NatToString(n: nat): (s: string)
    ensures s != [] && forall i :: 0 <= i < |s| ==> IsDigit(s[i])
  {
    if n < 10 then [DigitOf(n)] else NatToString(n / 10) + [DigitOf(n % 10)]
  }

  function IntToString(n: int): string {
    if n < 0 then "-" + NatToString(-n) else NatToString(n)
  }

  ghost predicate AllDigits(s: string) {
    forall i :: 0 <= i < |s| ==> IsDigit(s[i])
  }

  function DigitsValue(s: string): nat
    requires AllDigits(s)
  {
    if s == [] then 0 else DigitsValue(s[..|s| - 1]) * 10 + DigitValue(s[|s| - 1])
  }

  /** A non-empty digit string. */
  function ParseNat(s: string): Option<nat> {
    if s != [] && forall i :: 0 <= i < |s| ==> IsDigit(s[i]) then Some(DigitsValue(s)) else None
  }

  /** An optional sign and digits. */
  function ParseInt(s: string): Option<int> {
    if s != [] && s[0] == '-' then
      var n := ParseNat(s[1..]);
      if n.Some? then Some(0 - n.value) else None
    else if s != [] && s[0] == '+' then ParseNat(s[1..])
    else ParseNat(s)
  }

  lemma {:induction false} DigitRoundTrip(n: nat)
    requires n < 10
    ensures DigitValue(DigitOf(n)) == n
  {
  }

  lemma {:induction false} NatRoundTrip(n: nat)
    ensures DigitsValue(NatToString(n)) == n
  {
    if n < 10 {
      assert NatToString(n)[..0] == [];
      DigitRoundTrip(n);
    } else {
      NatRoundTrip(n / 10);
      DigitRoundTrip(n % 10);
      var s := NatToString(n);
      assert s[..|s| - 1] == NatToString(n / 10);
    }
  }

  /** Reading back a printed integer gives that integer. */
  lemma {:induction false} IntRoundTrip(n: int)
    ensures ParseInt(IntToString(n)) == Some(n)
  {
    var s := IntToString(n);
    if n < 0 {
      assert s == "-" + NatToString(-n);
      NegativeRoundTrip(-n);
      assert ParseInt(s) == Some(n);
    } else {
      assert s == NatToString(n);
      NaturalRoundTrip(n);
      assert ParseInt(s) == Some(n);
    }
  }

  lemma {:induction false} ParsesPrinted(n: nat)
    ensures ParseNat(NatToString(n)) == Some(n)
  {
    NatRoundTrip(n);
  }

  lemma {:induction false} NaturalRoundTrip(n: nat)
    ensures ParseInt(NatToString(n)) == Some(n)
  {
    ParsesPrinted(n);
    var s := NatToString(n);
    assert s != [] && IsDigit(s[0]);
    SignOnly(s);
  }

  lemma {:induction false} NegativeRoundTrip(n: nat)
    ensures ParseInt("-" + NatToString(n)) == Some(0 - n)
  {
    ParsesPrinted(n);
    MinusNegates(NatToString(n));
  }

  lemma {:induction false} MinusNegates(s: string)
    requires ParseNat(s).Some?
    ensures ParseInt("-" + s) == Some(0 - ParseNat(s).value)
  {
    assert ("-" + s)[1..] == s;
  }

  /** A digit string carries no sign. */
  lemma {:induction false} SignOnly(s: string)
    requires s != [] && IsDigit(s[0])
    ensures ParseInt(s) == ParseNat(s)
  {
  }

  // ---- amounts typed by a person ----

  function Cleaned(s: string): string {
    if s == [] then []
    else (if IsDigit(s[0]) || s[0] == '.' then [s[0]] else []) + Cleaned(s[1..])
  }

  function Dots(s: string): nat {
    if s == [] then 0 else (if s[0] == '.' then 1 else 0) + Dots(s[1..])
  }

  /** Value of digits with at most one point; `scale` is the weight of the next fractional digit, or zero. */
  function AmountValue(s: string, acc: real, scale: real): real
    decreases |s|
  {
    if s == [] then acc
    else if !IsDigit(s[0]) then AmountValue(s[1..], acc, 0.1)
    else
      var d := DigitValue(s[0]) as real;
      if scale == 0.0 then AmountValue(s[1..], acc * 10.0 + d, 0.0)
      else AmountValue(s[1..], acc + d * scale, scale / 10.0)
  }

  /** Keeps digits and points; none, or more than one point, or points alone is no amount. */
  function ParseDecimal(s: Option<string>): Option<real> {
    if s.None? then None
    else
      var cleaned := Cleaned(s.value);
      if cleaned == [] || Dots(cleaned) > 1 || cleaned == "." then None
      else Some(AmountValue(cleaned, 0.0, 0.0))
  }

  predicate Contains(text: string, part: string) {
    part <= text || (text != [] && Contains(text[1..], part))
  }

  predicate StandsAt(text: string, part: string, i: nat) {
    i + |part| <= |text| && text[i..i + |part|] == part
  }

  /** The part stands somewhere in the text. */
  lemma {:induction false} ContainsIff(text: string, part: string)
    ensures Contains(text, part) <==> exists i: nat :: StandsAt(text, part, i)
  {
    if part <= text {
      assert StandsAt(text, part, 0);
    } else if text == [] {
      assert forall i: nat :: StandsAt(text, part, i) ==> i == 0 && part == text;
    } else {
      ContainsIff(text[1..], part);
      forall i: nat ensures StandsAt(text[1..], part, i) <==> StandsAt(text, part, i + 1) {
        OneFurther(text, part, i);
      }
      if i: nat :| StandsAt(text, part, i) {
        assert i > 0 by {
          assert StandsAt(text, part, 0) ==> part == text[..|part|];
        }
        assert StandsAt(text[1..], part, i - 1);
      }
    }
  }

  lemma {:induction false} OneFurther(text: string, part: string, i: nat)
    requires text != []
    ensures StandsAt(text[1..], part, i) <==> StandsAt(text, part, i + 1)
  {
    if i + 1 + |part| <= |text| {
      assert text[1..][i..i + |part|] == text[i + 1..i + 1 + |part|];
    }
  }

  lemma {:induction false} DigitsAreClean(s: string)
    requires AllDigits(s)
    ensures Cleaned(s) == s && Dots(s) == 0
  {
    if s != [] {
      DigitsAreClean(s[1..]);
    }
  }

  /** One more digit is ten times what was there and that digit. */
  lemma {:induction false} AmountOfMore(s: string, d: char, acc: real)
    requires AllDigits(s) && IsDigit(d)
    ensures AmountValue(s + [d], acc, 0.0) == AmountValue(s, acc, 0.0) * 10.0 + DigitValue(d) as real
  {
    if s == [] {
      assert (s + [d])[1..] == [];
    } else {
      assert (s + [d])[1..] == s[1..] + [d];
      AmountOfMore(s[1..], d, acc * 10.0 + DigitValue(s[0]) as real);
    }
  }

  lemma {:induction false} AmountOfDigits(s: string)
    requires AllDigits(s)
    ensures AmountValue(s, 0.0, 0.0) == DigitsValue(s) as real
  {
    if s != [] {
      var before, last := s[..|s| - 1], s[|s| - 1];
      AmountOfDigits(before);
      AmountOfMore(before, last, 0.0);
      assert s == before + [last];
    }
  }

  /** Whatever else is typed around it, a whole amount written in digits is read as that amount. */
  lemma {:induction false} AmountRoundTrip(typed: string, n: nat)
    requires Cleaned(typed) == NatToString(n)
    ensures ParseDecimal(Some(typed)) == Some(n as real)
  {
    var s := NatToString(n);
    DigitsAreClean(s);
    AmountOfDigits(s);
    NatRoundTrip(n);
    assert s[0] != '.';
  }

  /** Digits and points are kept, everything else is dropped. */
  lemma {:induction false} CleanedOfParts(a: string, b: string)
    ensures Cleaned(a + b) == Cleaned(a) + Cleaned(b)
  {
    if a == [] {
      assert a + b == b && Cleaned(a) == [];
    } else {
      CleanedOfParts(a[1..], b);
      assert (a + b)[1..] == a[1..] + b && (a + b)[0] == a[0];
      var first := if IsDigit(a[0]) || a[0] == '.' then [a[0]] else [];
      assert first + (Cleaned(a[1..]) + Cleaned(b)) == (first + Cleaned(a[1..])) + Cleaned(b);
    }
  }

  lemma {:induction false} AmountAfterPoint(s: string, acc: real, rest: string)
    requires AllDigits(s)
    ensures AmountValue(s + "." + rest, acc, 0.0) == AmountValue(rest, AmountValue(s, acc, 0.0), 0.1)
  {
    var all := s + "." + rest;
    if s == [] {
      assert all[1..] == rest;
    } else {
      assert all[1..] == s[1..] + "." + rest;
      AmountAfterPoint(s[1..], acc * 10.0 + DigitValue(s[0]) as real, rest);
    }
  }

  /** Two digits behind a point are tenths and hundredths. */
  lemma {:induction false} HundredthsAreRead(typed: string, n: nat, tenths: nat, hundredths: nat)
    requires tenths < 10 && hundredths < 10
    requires Cleaned(typed) == NatToString(n) + "." + [DigitOf(tenths), DigitOf(hundredths)]
    ensures ParseDecimal(Some(typed)) == Some(n as real + tenths as real / 10.0 + hundredths as real / 100.0)
  {
    var s, rest := NatToString(n), [DigitOf(tenths), DigitOf(hundredths)];
    DigitsAreClean(s);
    DigitsAreClean(rest);
    DotsOfParts(s + ".", rest);
    DotsOfParts(s, ".");
    AmountAfterPoint(s, 0.0, rest);
    AmountOfDigits(s);
    NatRoundTrip(n);
    DigitRoundTrip(tenths);
    DigitRoundTrip(hundredths);
    TwoDigitsRead(n as real, DigitOf(tenths), DigitOf(hundredths));
    assert Cleaned(typed) != "." by {
      assert |Cleaned(typed)| > 1;
    }
  }

  lemma {:induction false} TwoDigitsRead(acc: real, c: char, d: char)
    requires IsDigit(c) && IsDigit(d)
    ensures AmountValue([c, d], acc, 0.1) == acc + DigitValue(c) as real / 10.0 + DigitValue(d) as real / 100.0
  {
    var one, two := acc + DigitValue(c) as real * 0.1, DigitValue(d) as real * (0.1 / 10.0);
    assert [c, d][1..] == [d] && [d][1..] == [];
    assert AmountValue([], one + two, 0.1 / 100.0) == one + two;
    assert AmountValue([d], one, 0.1 / 10.0) == one + two;
  }

  lemma {:induction false} DotsOfParts(a: string, b: string)
    ensures Dots(a + b) == Dots(a) + Dots(b)
  {
    if a == [] {
      assert a + b == b;
    } else {
      assert (a + b)[1..] == a[1..] + b;
      DotsOfParts(a[1..], b);
    }
  }
}
