/** The bar labels' currency text: `f'${total:,.2f}'`, a dollar sign, a
    minus sign for a negative total, the whole part with a comma between
    every group of three digits counted from the right, a point and
    exactly two decimals. Totals are integer cents, so the two decimals are
    exact and no rounding happens. */
module Currency {
  import opened Wrappers

  predicate IsDigit(c: char) {
    '0' <= c <= '9'
  }

  predicate AllDigits(s: string) {
    forall i :: 0 <= i < |s| ==> IsDigit(s[i])
  }

  function DigitChar(d: nat): (c: char)
    requires d < 10
    ensures IsDigit(c) && DigitValue(c) == d
  {
    ('0' as int + d) as char
  }

  function DigitValue(c: char): nat
    requires IsDigit(c)
  {
    (c as int - '0' as int) as nat
  }

  /** Decimal digits of `n` without leading zeros ("0" for zero). */
  function Digits(n: nat): (r: string)
    ensures |r| > 0 && AllDigits(r)
    ensures n > 0 ==> r[0] != '0'
  {
    if n < 10 then [DigitChar(n)] else Digits(n / 10) + [DigitChar(n % 10)]
  }

  /** Reads a non-empty string of digits as a number. */
  function ParseDigits(s: string): nat
    requires AllDigits(s)
  {
    if s == [] then 0 else ParseDigits(s[..|s| - 1]) * 10 + DigitValue(s[|s| - 1])
  }

  /** Commas between groups of three digits, counted from the right. */
  function Group(d: string): (r: string)
    ensures |r| >= |d|
    ensures |d| > 0 ==> r[0] == d[0]
  {
    if |d| <= 3 then d else Group(d[..|d| - 3]) + "," + d[|d| - 3..]
  }

  /** Drops the separator in front of each trailing group of three. */
  function Ungroup(s: string): string {
    if |s| <= 3 then s else Ungroup(s[..|s| - 4]) + s[|s| - 3..]
  }

  function Abs(x: int): nat {
    if x < 0 then -x else x
  }

  /** `'$' + format(cents / 100, ',.2f')`. */
  function FormatCents(cents: int): (r: string)
    ensures |r| >= 5 && r[0] == '$' && r[|r| - 3] == '.'
    ensures IsDigit(r[|r| - 2]) && IsDigit(r[|r| - 1])
    ensures (r[1] == '-') <==> cents < 0
    ensures cents == 0 ==> r == "$0.00"
  {
    var m := Abs(cents);
    var c := m % 100;
    "$" + (if cents < 0 then "-" else "") + Group(Digits(m / 100)) + "." + [DigitChar(c / 10), DigitChar(c % 10)]
  }

  /** Reads a label back as cents: the left inverse of `FormatCents`. */
  function ParseCents(s: string): Option<int> {
    if |s| < 5 || s[0] != '$' || s[|s| - 3] != '.' then None
    else if s[1] == '-' then
      match ParseUnsigned(s[2..|s| - 3], s[|s| - 2..])
      case Some(m) => Some(-m)
      case None => None
    else ParseUnsigned(s[1..|s| - 3], s[|s| - 2..])
  }

  /** Reads the grouped whole part and the two decimals as cents. The
      whole part must carry its separators exactly where `Group` puts
      them. */
  function ParseUnsigned(grouped: string, frac: string): Option<int> {
    var whole := Ungroup(grouped);
    if !SeparatorsEveryFour(grouped) || whole == [] || !AllDigits(whole) || !AllDigits(frac) || |frac| != 2 then None
    else Some(ParseDigits(whole) * 100 + DigitValue(frac[0]) * 10 + DigitValue(frac[1]))
  }

  lemma {:induction false} ParseDigitsOfDigits(n: nat)
    ensures ParseDigits(Digits(n)) == n
  {
    if n >= 10 {
      var d := Digits(n);
      assert d[..|d| - 1] == Digits(n / 10);
      ParseDigitsOfDigits(n / 10);
    }
  }

  /** Grouping only inserts separators. */
  lemma {:induction false} UngroupGroup(d: string)
    ensures Ungroup(Group(d)) == d
  {
    if |d| > 3 {
      var hi, lo := d[..|d| - 3], d[|d| - 3..];
      var r := Group(d);
      assert r == Group(hi) + [','] + lo;
      assert r[..|r| - 4] == Group(hi) && r[|r| - 3..] == lo;
      UngroupGroup(hi);
      assert hi + lo == d;
    }
  }

  /** A character is a separator exactly when it stands a multiple of four
      places from the end. */
  predicate SeparatorsEveryFour(r: string) {
    forall i :: 0 <= i < |r| ==> (r[i] == ',' <==> (|r| - i) % 4 == 0)
  }

  /** Thousands grouping of a digit string: one separator per full group
      of three digits below the leading group, each standing a multiple of
      four places from the end. */
  lemma {:induction false} GroupLayout(d: string)
    requires AllDigits(d) && |d| > 0
    ensures |Group(d)| == |d| + (|d| - 1) / 3
    ensures SeparatorsEveryFour(Group(d))
  {
    if |d| <= 3 {
      forall i | 0 <= i < |d|
        ensures d[i] == ',' <==> (|d| - i) % 4 == 0
      {
        assert IsDigit(d[i]);
        SmallMod(|d| - i);
      }
    } else {
      var hi, lo := d[..|d| - 3], d[|d| - 3..];
      assert AllDigits(hi) && AllDigits(lo);
      assert Group(d) == Group(hi) + [','] + lo;
      assert |Group(hi)| == |hi| + (|hi| - 1) / 3 && SeparatorsEveryFour(Group(hi)) by {
        GroupLayout(hi);
      }
      assert (|hi| + 2) / 3 == (|hi| - 1) / 3 + 1;
      LayoutStep(Group(hi), lo);
    }
  }

  /** Appending a separator and a group of three digits keeps the layout. */
  lemma LayoutStep(g: string, lo: string)
    requires SeparatorsEveryFour(g) && AllDigits(lo) && |lo| == 3
    ensures SeparatorsEveryFour(g + [','] + lo)
  {
    var r := g + [','] + lo;
    forall i | 0 <= i < |r|
      ensures r[i] == ',' <==> (|r| - i) % 4 == 0
    {
      if i < |g| {
        assert r[i] == g[i];
        ShiftMod(|g| - i);
      } else if i > |g| {
        assert r[i] == lo[i - |g| - 1];
        assert IsDigit(lo[i - |g| - 1]);
        SmallMod(|r| - i);
      }
    }
  }

  lemma SmallMod(x: int)
    requires 1 <= x <= 3
    ensures x % 4 != 0
  {
  }

  lemma ShiftMod(x: int)
    ensures (x + 4) % 4 == x % 4
  {
  }

  /** The whole part and the two decimals read back as the amount. */
  lemma ParseUnsignedOf(n: nat, c: nat)
    requires c < 100
    ensures ParseUnsigned(Group(Digits(n)), [DigitChar(c / 10), DigitChar(c % 10)]) == Some(n * 100 + c)
  {
    GroupLayout(Digits(n));
    UngroupGroup(Digits(n));
    ParseDigitsOfDigits(n);
    var frac := [DigitChar(c / 10), DigitChar(c % 10)];
    assert DigitValue(frac[0]) * 10 + DigitValue(frac[1]) == c;
  }

  /** How `ParseCents` splits a label of the shape `FormatCents` produces. */
  lemma ParseCentsShape(neg: bool, g: string, frac: string)
    requires |g| > 0 && g[0] != '-' && |frac| == 2
    ensures ParseCents((if neg then "$-" else "$") + g + "." + frac) ==
      match ParseUnsigned(g, frac)
      case Some(m) => Some(if neg then -m else m)
      case None => None
  {
    var s := (if neg then "$-" else "$") + g + "." + frac;
    if neg {
      assert s[2..|s| - 3] == g;
    } else {
      assert s[1..|s| - 3] == g;
    }
    assert s[|s| - 2..] == frac;
  }

  /** A label is the dollar sign, the minus sign for a negative total, the
      grouped whole part, the point and the two digits of the cents; the
      whole part has a comma exactly every four places from the end, has
      no leading zero unless it is zero, and reads back as the whole
      dollars once the commas are dropped. */
  lemma FormatCentsLayout(cents: int)
    ensures var m := Abs(cents);
      var g := Group(Digits(m / 100));
      var frac := [DigitChar(m % 100 / 10), DigitChar(m % 100 % 10)];
      && FormatCents(cents) == (if cents < 0 then "$-" else "$") + g + "." + frac
      && SeparatorsEveryFour(g)
      && (m / 100 > 0 ==> g[0] != '0')
      && Ungroup(g) == Digits(m / 100)
      && ParseDigits(Ungroup(g)) == m / 100
      && AllDigits(frac)
      && ParseDigits(frac) == m % 100
  {
    var m := Abs(cents);
    var d := Digits(m / 100);
    assert "$" + (if cents < 0 then "-" else "") == (if cents < 0 then "$-" else "$");
    GroupLayout(d);
    UngroupGroup(d);
    ParseDigitsOfDigits(m / 100);
    TwoDigits(m % 100);
  }

  /** Two decimal digits read back as the cents they spell. */
  lemma TwoDigits(c: nat)
    requires c < 100
    ensures var frac := [DigitChar(c / 10), DigitChar(c % 10)];
      AllDigits(frac) && ParseDigits(frac) == c
  {
    var frac := [DigitChar(c / 10), DigitChar(c % 10)];
    assert frac[..1] == [frac[0]] && [frac[0]][..0] == [];
    assert ParseDigits([frac[0]]) == DigitValue(frac[0]);
  }

  /** A separator other than a comma is refused: "$1.000.00" is not a
      label. */
  lemma OtherSeparatorRefused()
    ensures ParseCents("$1.000.00") == None
  {
    var s := "$1.000.00";
    assert s[1] != '-' && s[|s| - 3] == '.';
    assert s[1..|s| - 3] == "1.000";
    assert !SeparatorsEveryFour("1.000") by {
      assert "1.000"[1] != ',' && (5 - 1) % 4 == 0;
    }
  }

  /** Every label reads back as the total that produced it, so distinct
      totals never share a label. */
  lemma FormatParseRoundTrip(cents: int)
    ensures ParseCents(FormatCents(cents)) == Some(cents)
  {
    var m := Abs(cents);
    var g := Group(Digits(m / 100));
    var frac := [DigitChar(m % 100 / 10), DigitChar(m % 100 % 10)];
    var s := (if cents < 0 then "$-" else "$") + g + "." + frac;
    assert FormatCents(cents) == s by {
      assert "$" + (if cents < 0 then "-" else "") == (if cents < 0 then "$-" else "$");
    }
    assert ParseUnsigned(g, frac) == Some(m) by {
      ParseUnsignedOf(m / 100, m % 100);
      assert m / 100 * 100 + m % 100 == m;
    }
    assert ParseCents(s) == Some(cents) by {
      assert |g| > 0 && g[0] != '-';
      ParseCentsShape(cents < 0, g, frac);
    }
  }
}
