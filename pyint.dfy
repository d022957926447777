/**
 * Python's `int(v)` on the values the parser produces, as the save applies
 * it to each reading, and `str(n)` on integers, its inverse.
 */
module PyInt {
  import opened Wrappers
  import opened JsonValue
  import opened Cleaning

  predicate IsDigit(c: char) {
    '0' <= c <= '9'
  }

  /** Decimal digits, single underscores between them: `1_000`, not `_1`, `1_` or `1__0`. */
  predicate DigitGroups(s: string) {
    && s != []
    && IsDigit(s[0])
    && IsDigit(s[|s| - 1])
    && DigitsOrUnderscores(s)
    && (forall i | 0 <= i < |s| - 1 :: s[i] == '_' ==> s[i + 1] != '_')
  }

  predicate DigitsOrUnderscores(s: string) {
    forall i | 0 <= i < |s| :: IsDigit(s[i]) || s[i] == '_'
  }

  function DigitValue(c: char): nat
    requires IsDigit(c)
  {
    c as int - '0' as int
  }

  /** The number the digits spell, underscores skipped. */
  function DigitsValue(s: string): nat
    requires DigitsOrUnderscores(s)
  {
    if s == [] then 0
    else
      var last := s[|s| - 1];
      if last == '_' then DigitsValue(s[..|s| - 1])
      else 10 * DigitsValue(s[..|s| - 1]) + DigitValue(last)
  }

  /**
   * U+001C to U+001F: `str.isspace` holds for them, but `int()` does not
   * skip them. CPython turns non-ASCII whitespace into spaces and then skips
   * only the ASCII space, tab, newline, vertical tab, form feed and carriage
   * return.
   */
  predicate IsSeparator(c: char) {
    '\U{1C}' <= c <= '\U{1F}'
  }

  predicate HasSeparator(s: string) {
    exists i | 0 <= i < |s| :: IsSeparator(s[i])
  }

  /**
   * `int(s)` for a string: surrounding whitespace is ignored, one optional
   * sign, then digit groups; anything else raises ValueError (None). A
   * separator anywhere raises: around the digits it is not skipped, and
   * among them it is not a digit.
   */
  function ParseIntLiteral(s: string): (r: Option<int>)
    // an accepted literal has no separator and is, once stripped, an optional sign then digits and underscores
    ensures r.Some? ==>
      var t := Strip(s);
      && !HasSeparator(s)
      && t != []
      && forall i | 0 <= i < |t| :: IsDigit(t[i]) || t[i] == '_' || (i == 0 && (t[i] == '+' || t[i] == '-'))
    // only a leading minus gives a negative number
    ensures r.Some? && r.value < 0 ==> Strip(s) != [] && Strip(s)[0] == '-'
    // plain digits, surrounded by whitespace other than the separators, always convert
    ensures var t := Strip(s); !HasSeparator(s) && t != [] && (forall i | 0 <= i < |t| :: IsDigit(t[i])) ==> r.Some?
  {
    var t := Strip(s);
    if HasSeparator(s) then None
    else if t != [] && (t[0] == '+' || t[0] == '-') then
      var u := t[1..];
      if DigitGroups(u) then
        var n: int := DigitsValue(u);
        Some(if t[0] == '-' then -n else n)
      else None
    else if DigitGroups(t) then Some(DigitsValue(t))
    else None
  }

  /**
   * `int(v)` for a parsed value: booleans are 0 and 1, integers are kept,
   * strings are parsed; None, lists and dicts raise TypeError (None).
   */
  function IntOf(v: Json): (r: Option<int>)
    // null, lists, dicts and strings that are no literal raise
    ensures r.None? <==> v.JNull? || v.JArr? || v.JObj? || (v.JStr? && ParseIntLiteral(v.s).None?)
    // integers are kept, booleans become 0 or 1
    ensures v.JInt? ==> r == Some(v.i)
    ensures v.JBool? ==> r.Some? && 0 <= r.value <= 1 && (r.value == 1 <==> v.b)
    // strings convert as `int()` reads a literal
    ensures v.JStr? ==> r == ParseIntLiteral(v.s)
  {
    match v
    case JBool(b) => Some(if b then 1 else 0)
    case JInt(i) => Some(i)
    case JStr(s) => ParseIntLiteral(s)
    case _ => None
  }

  function DigitChar(d: nat): (c: char)
    requires d < 10
    ensures IsDigit(c) && DigitValue(c) == d
  {
    ('0' as int + d) as char
  }

  /** The decimal digits of a natural number, without leading zeros. */
  function NatDigits(n: nat): (s: string)
    ensures s != [] && (forall i | 0 <= i < |s| :: IsDigit(s[i]))
    ensures s[0] == '0' ==> n == 0
  {
    if n < 10 then [DigitChar(n)] else NatDigits(n / 10) + [DigitChar(n % 10)]
  }

  /** Python's `str(n)` for an integer. */
  function Decimal(n: int): (r: string)
    // a minus exactly for a negative number, then digits
    ensures r != [] && (r[0] == '-' <==> n < 0)
    ensures forall i | (if n < 0 then 1 else 0) <= i < |r| :: IsDigit(r[i])
    // no leading zero, except for 0 itself
    ensures n < 0 ==> |r| >= 2 && r[1] != '0'
    ensures n >= 0 && r[0] == '0' ==> n == 0
  {
    if n < 0 then "-" + NatDigits(-n) else NatDigits(n)
  }

  /** The digits of `n` form digit groups that spell `n`. */
  lemma {:induction false} NatDigitsValue(n: nat)
    ensures DigitGroups(NatDigits(n)) && DigitsValue(NatDigits(n)) == n
  {
    var s := NatDigits(n);
    if n >= 10 {
      NatDigitsValue(n / 10);
      assert s[..|s| - 1] == NatDigits(n / 10);
    }
  }

  /** `str(n)` has no whitespace around it. */
  lemma DecimalTrimmed(n: int)
    ensures Strip(Decimal(n)) == Decimal(n)
  {
    var s := Decimal(n);
    var m: nat := if n < 0 then -n else n;
    assert s[|s| - 1] == NatDigits(m)[|NatDigits(m)| - 1];
    StripKeepsTrimmed(s);
  }

  /** `str(n)` holds only a minus and digits, so no separator. */
  lemma DecimalHasNoSeparator(n: int)
    ensures !HasSeparator(Decimal(n))
  {
    var s := Decimal(n);
    forall i | 0 <= i < |s|
      ensures !IsSeparator(s[i])
    {
      if i == 0 && n < 0 {
        assert s[i] == '-';
      } else {
        assert IsDigit(s[i]);
      }
    }
  }

  /** `int(str(n)) == n`: a reading written out in decimal converts back to the same number. */
  lemma DecimalRoundTrip(n: int)
    ensures ParseIntLiteral(Decimal(n)) == Some(n)
    ensures IntOf(JStr(Decimal(n))) == IntOf(JInt(n))
  {
    var m: nat := if n < 0 then -n else n;
    NatDigitsValue(m);
    DecimalTrimmed(n);
    DecimalHasNoSeparator(n);
    var s := Decimal(n);
    if n < 0 {
      assert s[1..] == NatDigits(m);
    } else {
      assert s == NatDigits(m);
    }
  }

  /** Whitespace around the digits and single underscores between them are accepted. */
  lemma GroupedLiteral()
    ensures ParseIntLiteral(" 1_000\n") == Some(1000)
  {
    var grouped := "1_000";
    StrippedExample();
    assert grouped[..4] == "1_00" && "1_00"[..3] == "1_0" && "1_0"[..2] == "1_" && "1_"[..1] == "1";
    assert DigitGroups(grouped);
    assert DigitsValue(grouped) == 1000;
  }

  lemma StrippedExample()
    ensures Strip(" 1_000\n") == "1_000"
  {
    var s := " 1_000\n";
    assert SkipSpace(s, 0) == 1 by {
      assert IsSpace(s[0]) && !IsSpace(s[1]);
    }
    assert SkipSpaceBack(s, 1, 7) == 6 by {
      assert IsSpace(s[6]) && !IsSpace(s[5]);
    }
    assert s[1..6] == "1_000";
  }

  /** A sign and leading zeros are accepted. */
  lemma SignedLiteral()
    ensures ParseIntLiteral("-07") == Some(-7)
  {
    var signed := "-07";
    StripKeepsTrimmed(signed);
    assert signed[1..] == "07" && "07"[..1] == "0";
    assert DigitGroups("07") && DigitsValue("07") == 7;
  }

  /** Two underscores in a row, trailing text or an empty string make `int()` raise. */
  lemma RejectedLiterals()
    ensures ParseIntLiteral("1__0") == None
    ensures ParseIntLiteral("12 mmHg") == None
    ensures ParseIntLiteral("") == None
    ensures ParseIntLiteral("\U{1C}5") == None
  {
    assert IsSeparator("\U{1C}5"[0]);
    var doubled := "1__0";
    StripKeepsTrimmed(doubled);
    assert doubled[1] == '_' && doubled[2] == '_';
    var unit := "12 mmHg";
    StripKeepsTrimmed(unit);
    assert unit[2] == ' ';
  }
}
