/** What `setAtPath` makes of a path segment (rule.js:161-162): `parseInt(loc, 10)`, and the segments
    that it leaves alone. */
module PathNumerals {
  import opened Basics
  import opened Paths

  // ------------------------------------------------------------------------ decimal numerals

  predicate Digits(t: string) { forall i :: 0 <= i < |t| ==> '0' <= t[i] <= '9' }

  function Pow10(k: nat): nat { if k == 0 then 1 else 10 * Pow10(k - 1) }

  function DigitValue(c: char): nat
    requires '0' <= c <= '9'
  {
    c as int - '0' as int
  }

  function Weighed(v: nat, k: nat): nat { v * Pow10(k) }

  /** The number that a string of digits denotes: the sum of its decimal places. */
  function Places(d: string): nat
    requires Digits(d)
  {
    if d == "" then 0 else Weighed(DigitValue(d[0]), |d| - 1) + Places(d[1..])
  }

  /** A decimal numeral without a leading zero. */
  predicate Numeral(t: string) { t != "" && Digits(t) && (t[0] == '0' ==> |t| == 1) }

  predicate Blank(c: char) { c == ' ' || c == '\t' || c == '\n' || c == '\r' }

  predicate Blanks(t: string) { forall i :: 0 <= i < |t| ==> Blank(t[i]) }

  predicate NoDigitAhead(t: string) { t == "" || !('0' <= t[0] <= '9') }

  lemma MoveThrough(acc: nat, v: nat, k: nat)
    ensures (10 * acc + v) * Pow10(k) == acc * Pow10(k + 1) + Weighed(v, k)
    ensures Weighed(v, k + 1) == 10 * Weighed(v, k)
  {
    var p := Pow10(k);
    assert (10 * acc + v) * p == 10 * acc * p + v * p;
    assert acc * (10 * p) == 10 * acc * p && v * (10 * p) == 10 * (v * p);
  }

  /** The digits that `parseInt` reads are summed by decimal place. */
  lemma {:induction false} DigitsRead(d: string, rest: string, acc: nat)
    requires Digits(d) && NoDigitAhead(rest)
    ensures DigitsValue(d + rest, acc) == acc * Pow10(|d|) + Places(d)
    decreases |d|
  {
    if d == "" {
      assert d + rest == rest;
    } else {
      var t := d + rest;
      var v := DigitValue(d[0]);
      assert t[1..] == d[1..] + rest && t[0] == d[0];
      DigitsRead(d[1..], rest, 10 * acc + v);
      MoveThrough(acc, v, |d| - 1);
    }
  }

  lemma {:induction false} PlacesSnoc(d: string, c: char)
    requires Digits(d) && '0' <= c <= '9'
    ensures Digits(d + [c]) && Places(d + [c]) == 10 * Places(d) + DigitValue(c)
    decreases |d|
  {
    var t := d + [c];
    if d == "" {
      assert t == [c] && t[1..] == "";
      assert Weighed(DigitValue(c), 0) == DigitValue(c);
    } else {
      assert t[1..] == d[1..] + [c] && t[0] == d[0];
      PlacesSnoc(d[1..], c);
      MoveThrough(0, DigitValue(d[0]), |d| - 1);
      assert Places(t) == Weighed(DigitValue(d[0]), |d|) + Places(t[1..]);
    }
  }

  lemma DigitOf(v: nat)
    requires v < 10
    ensures '0' <= DIGITS[v] <= '9' && DigitValue(DIGITS[v]) == v
  {
    assert v == 0 || v == 1 || v == 2 || v == 3 || v == 4 || v == 5 || v == 6 || v == 7 || v == 8 || v == 9;
  }

  /** `Decimal(n)` is a numeral, and denotes n. */
  lemma {:induction false} DecimalDenotes(n: nat)
    ensures Numeral(Decimal(n)) && Places(Decimal(n)) == n
    ensures Decimal(n)[0] == '0' <==> n == 0
  {
    DigitOf(n % 10);
    PlacesSnoc("", DIGITS[n % 10]);
    assert "" + [DIGITS[n % 10]] == [DIGITS[n % 10]];
    if n >= 10 {
      DecimalDenotes(n / 10);
      PlacesSnoc(Decimal(n / 10), DIGITS[n % 10]);
    }
  }

  /** Each numeral is the `Decimal` of what it denotes. */
  lemma {:induction false} NumeralIsDecimal(t: string)
    requires Numeral(t)
    ensures Decimal(Places(t)) == t
    decreases |t|
  {
    var init, c := t[..|t| - 1], t[|t| - 1];
    var v := DigitValue(c);
    assert t == init + [c] && Digits(init);
    PlacesSnoc(init, c);
    DigitOf(v);
    assert DIGITS[v] == c;
    if init != "" {
      assert init[0] == t[0];
      NumeralIsDecimal(init);
      DecimalDenotes(Places(init));
      assert Places(init) > 0 && Places(t) / 10 == Places(init) && Places(t) % 10 == v;
    }
  }

  // -------------------------------------------------------------------------- the whole segment

  lemma {:induction false} TrimsBlanks(blanks: string, t: string)
    requires Blanks(blanks) && (t == "" || !Blank(t[0]))
    ensures TrimLeft(blanks + t) == t
    decreases |blanks|
  {
    if blanks == "" {
      assert blanks + t == t;
    } else {
      assert (blanks + t)[1..] == blanks[1..] + t && (blanks + t)[0] == blanks[0];
      TrimsBlanks(blanks[1..], t);
    }
  }

  predicate Sign(t: string) { t == "" || t == "+" || t == "-" }

  /** What `Norm` makes of the digits d that follow a sign. */
  function Signed(sign: string, d: string): string
    requires Digits(d)
  {
    if sign == "-" && Places(d) != 0 then "-" + Decimal(Places(d)) else Decimal(Places(d))
  }

  lemma UnsignedIs(t: string, d: string, rest: string)
    requires d != "" && Digits(d) && NoDigitAhead(rest) && TrimLeft(t) == d + rest
    ensures Norm(t) == Signed("", d)
  {
    assert (d + rest)[0] == d[0];
    DigitsRead(d, rest, 0);
  }

  lemma SignedIs(t: string, c: char, d: string, rest: string)
    requires c in {'+', '-'} && d != "" && Digits(d) && NoDigitAhead(rest) && TrimLeft(t) == [c] + (d + rest)
    ensures Norm(t) == Signed([c], d)
  {
    assert ([c] + (d + rest))[1..] == d + rest && (d + rest)[0] == d[0];
    DigitsRead(d, rest, 0);
  }

  /** A segment that begins with a number, after blanks and a sign, becomes the plain decimal form
      of that number, whatever comes after it. */
  lemma NormIs(blanks: string, sign: string, d: string, rest: string)
    requires Blanks(blanks) && Sign(sign) && d != "" && Digits(d) && NoDigitAhead(rest)
    ensures Norm(blanks + (sign + (d + rest))) == Signed(sign, d)
  {
    var u := sign + (d + rest);
    assert u[0] == if sign == "" then d[0] else sign[0];
    TrimsBlanks(blanks, u);
    if sign == "" {
      assert u == d + rest;
      UnsignedIs(blanks + u, d, rest);
    } else {
      SignedIs(blanks + u, sign[0], d, rest);
    }
  }

  /** A segment without one stays. */
  lemma NormStays(blanks: string, sign: string, rest: string)
    requires Blanks(blanks) && Sign(sign) && NoDigitAhead(rest)
    requires sign == "" ==> rest == "" || (!Blank(rest[0]) && rest[0] != '+' && rest[0] != '-')
    ensures Norm(blanks + (sign + rest)) == blanks + (sign + rest)
  {
    var u := sign + rest;
    TrimsBlanks(blanks, u);
    if sign == "" {
      assert u == rest;
    } else {
      assert u[0] == sign[0] && u[1..] == rest;
    }
  }

  lemma SplitBlanks(t: string) returns (blanks: string, u: string)
    ensures t == blanks + u && Blanks(blanks) && (u == "" || !Blank(u[0]))
  {
    var i := 0;
    while i < |t| && Blank(t[i])
      invariant 0 <= i <= |t| && Blanks(t[..i])
    {
      i := i + 1;
    }
    blanks, u := t[..i], t[i..];
  }

  lemma SplitDigits(t: string) returns (d: string, rest: string)
    ensures t == d + rest && Digits(d) && NoDigitAhead(rest)
  {
    var i := 0;
    while i < |t| && '0' <= t[i] <= '9'
      invariant 0 <= i <= |t| && Digits(t[..i])
    {
      i := i + 1;
    }
    d, rest := t[..i], t[i..];
  }

  lemma SplitSign(u: string) returns (sign: string, body: string)
    ensures u == sign + body && Sign(sign)
    ensures sign == "" ==> body == "" || (body[0] != '+' && body[0] != '-')
  {
    if u != "" && (u[0] == '+' || u[0] == '-') {
      sign, body := u[..1], u[1..];
    } else {
      sign, body := "", u;
    }
  }

  /** After blanks and a sign, there is no digit. */
  ghost predicate NoNumber(t: string) {
    exists blanks: string, sign: string, rest: string ::
      t == blanks + (sign + rest) && Blanks(blanks) && Sign(sign) && NoDigitAhead(rest)
      && (sign == "" ==> rest == "" || (!Blank(rest[0]) && rest[0] != '+' && rest[0] != '-'))
  }

  /** A minus sign before a numeral other than zero. */
  predicate NegativeNumeral(t: string) { |t| > 1 && t[0] == '-' && t[1] != '0' && Numeral(t[1..]) }

  /** The segments that `setAtPath` uses as they are, so that `getAtPath` finds them again. */
  lemma CanonicalSegments(t: string)
    ensures Norm(t) == t <==> Numeral(t) || NegativeNumeral(t) || NoNumber(t)
  {
    if Numeral(t) {
      NumeralStays(t);
    } else if NegativeNumeral(t) {
      NegativeStays(t);
    } else if NoNumber(t) {
      var blanks: string, sign: string, rest: string :|
        t == blanks + (sign + rest) && Blanks(blanks) && Sign(sign) && NoDigitAhead(rest)
        && (sign == "" ==> rest == "" || (!Blank(rest[0]) && rest[0] != '+' && rest[0] != '-'));
      NormStays(blanks, sign, rest);
    } else {
      OthersChange(t);
    }
  }

  lemma NumeralStays(t: string)
    requires Numeral(t)
    ensures Norm(t) == t
  {
    NormIs("", "", t, "");
    NumeralIsDecimal(t);
    assert "" + ("" + (t + "")) == t;
  }

  lemma NegativeStays(t: string)
    requires NegativeNumeral(t)
    ensures Norm(t) == t
  {
    var d := t[1..];
    NormIs("", "-", d, "");
    NumeralIsDecimal(d);
    DecimalDenotes(Places(d));
    assert "" + ("-" + (d + "")) == t;
  }

  /** Every segment has blanks, a sign and digits, or no number. */
  lemma Parsed(t: string) returns (blanks: string, sign: string, d: string, rest: string)
    ensures t == blanks + (sign + (d + rest)) && Blanks(blanks) && Sign(sign) && Digits(d) && NoDigitAhead(rest)
    ensures d == "" ==> NoNumber(t)
  {
    var u, body;
    blanks, u := SplitBlanks(t);
    sign, body := SplitSign(u);
    d, rest := SplitDigits(body);
    if d == "" {
      assert body == rest;
    }
  }

  lemma OthersChange(t: string)
    requires !Numeral(t) && !NegativeNumeral(t) && !NoNumber(t)
    ensures Norm(t) != t
  {
    var blanks, sign, d, rest := Parsed(t);
    NormIs(blanks, sign, d, rest);
    var n := Places(d);
    DecimalDenotes(n);
    assert ("-" + Decimal(n))[1..] == Decimal(n);
  }

  /** Numbers in plain decimal, however large, are used as they are. */
  lemma DecimalIsCanonical(n: nat)
    ensures Norm(Decimal(n)) == Decimal(n)
    ensures n > 0 ==> Norm("-" + Decimal(n)) == "-" + Decimal(n)
  {
    DecimalDenotes(n);
    NumeralStays(Decimal(n));
    if n > 0 {
      assert ("-" + Decimal(n))[1..] == Decimal(n);
      NegativeStays("-" + Decimal(n));
    }
  }
}
