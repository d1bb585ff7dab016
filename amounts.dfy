/**
 * `_to_amount` of src/tools/normalize_tools.py: `round(float(str(x).replace(',', '')), 2)`,
 * with any failure giving None. The float is read exactly as a decimal and
 * the result is kept in cents.
 */
module Amounts {
  import opened Text
  import opened Values

  /** A decimal literal as `float()` reads it: a sign, whole digits and fraction digits. */
  datatype Decimal = Decimal(negative: bool, whole: string, frac: string)

  predicate WellFormed(d: Decimal) {
    AllDigits(d.whole) && AllDigits(d.frac) && |d.whole| + |d.frac| >= 1
  }

  /** `s.replace(',', '')`. */
  function RemoveCommas(s: string): (r: string)
    ensures forall i :: 0 <= i < |r| ==> r[i] != ','
    ensures |r| <= |s|
  {
    if s == [] then [] else (if s[0] == ',' then [] else [s[0]]) + RemoveCommas(s[1..])
  }

  /** Removing commas keeps every other character, in order. */
  lemma {:induction false} RemoveCommasKeepsRest(s: string)
    requires forall i :: 0 <= i < |s| ==> s[i] != ','
    ensures RemoveCommas(s) == s
  {
    if s != [] {
      RemoveCommasKeepsRest(s[1..]);
    }
  }

  /** Position of the first `c` in `s`. */
  function IndexOf(s: string, c: char): (r: Option<nat>)
    ensures r.Some? ==> r.value < |s| && s[r.value] == c && forall i :: 0 <= i < r.value ==> s[i] != c
    ensures r.None? ==> forall i :: 0 <= i < |s| ==> s[i] != c
  {
    if s == [] then None
    else if s[0] == c then Some(0)
    else match IndexOf(s[1..], c)
      case None => None
      case Some(k) => Some(k + 1)
  }

  /** An optional leading sign: whether it is '-', and the text after it. */
  function SignOf(t: string): (bool, string) {
    if |t| > 0 && (t[0] == '-' || t[0] == '+') then (t[0] == '-', t[1..]) else (false, t)
  }

  /** The text before and after the first '.', or all of it and "" when there is none. */
  function SplitPoint(body: string): (string, string) {
    match IndexOf(body, '.')
    case None => (body, "")
    case Some(p) => (body[..p], body[p + 1..])
  }

  /**
   * The subset of `float()` modelled: surrounding whitespace, an optional
   * sign, then digits with at most one '.' and at least one digit.
   */
  function ParseDecimal(s: string): (r: Option<Decimal>)
    ensures r.Some? ==> WellFormed(r.value)
  {
    var (negative, body) := SignOf(Strip(s));
    var (whole, frac) := SplitPoint(body);
    if AllDigits(whole) && AllDigits(frac) && |whole| + |frac| >= 1 then
      Some(Decimal(negative, whole, frac))
    else
      None
  }

  /** Python's `round` to a multiple of `p`, counted in units of `p`: nearest, ties to even. */
  function RoundHalfEven(m: nat, p: nat): nat
    requires p >= 1
  {
    if 2 * (m % p) > p || (2 * (m % p) == p && (m / p) % 2 == 1) then m / p + 1 else m / p
  }

  lemma DivMod(m: nat, p: nat)
    requires p >= 1
    ensures m == (m / p) * p + m % p && 0 <= m % p < p
    ensures (m / p + 1) * p == (m / p) * p + p
  {
  }

  /** The rounded multiple is within half a step of `m`, and a tie goes to the even multiple. */
  lemma RoundingIsNearest(m: nat, p: nat)
    requires p >= 1
    ensures 2 * (m - RoundHalfEven(m, p) * p) <= p && 2 * (RoundHalfEven(m, p) * p - m) <= p
    ensures 2 * (m - RoundHalfEven(m, p) * p) == p || 2 * (RoundHalfEven(m, p) * p - m) == p ==>
      RoundHalfEven(m, p) % 2 == 0
  {
    var q, r := m / p, m % p;
    DivMod(m, p);
    var lo := q * p;
    if 2 * r > p || (2 * r == p && q % 2 == 1) {
      assert RoundHalfEven(m, p) * p == lo + p;
    } else {
      assert RoundHalfEven(m, p) * p == lo;
    }
  }

  /** The decimal's magnitude scaled by 10^|frac|: the digits read as one number. */
  function Scaled(d: Decimal): nat
    requires WellFormed(d)
  {
    DigitsAppendAll(d.whole, d.frac);
    DigitsValue(d.whole + d.frac)
  }

  lemma DigitsAppendAll(a: string, b: string)
    requires AllDigits(a) && AllDigits(b)
    ensures AllDigits(a + b)
  {
  }

  /** `round(value, 2)` in cents. */
  function Cents(d: Decimal): int
    requires WellFormed(d)
  {
    var k := |d.frac|;
    var mag := if k <= 2 then Scaled(d) * Pow10(2 - k) else RoundHalfEven(Scaled(d), Pow10(k - 2));
    if d.negative then -mag else mag
  }

  /** `_to_amount(x)`: the cell's text with commas removed, parsed and rounded; None when it does not parse. */
  function ToAmount(v: Val): Option<int> {
    match ParseDecimal(RemoveCommas(CellText(v)))
    case None => None
    case Some(d) => Some(Cents(d))
  }

  /** The cell a normalized amount column holds. */
  function AmountCell(a: Option<int>): Val {
    match a
    case None => Missing
    case Some(c) => Num(c)
  }

  // ---------------------------------------------------------------- properties

  /**
   * Rounding keeps at most two decimals and moves the value by at most half
   * a cent; with two decimals or fewer it is exact.
   */
  lemma CentsSpec(d: Decimal)
    requires WellFormed(d)
    ensures |d.frac| <= 2 ==> Abs(Cents(d)) == Scaled(d) * Pow10(2 - |d.frac|)
    ensures |d.frac| > 2 ==> 2 * Abs(Abs(Cents(d)) * Pow10(|d.frac| - 2) - Scaled(d)) <= Pow10(|d.frac| - 2)
    ensures d.negative ==> Cents(d) <= 0
    ensures !d.negative ==> Cents(d) >= 0
  {
    if |d.frac| > 2 {
      RoundingIsNearest(Scaled(d), Pow10(|d.frac| - 2));
    }
  }

  /** Commas anywhere in the text are ignored: "1,234.50" reads like "1234.50". */
  lemma ToAmountIgnoresCommas(s: string)
    ensures ToAmount(Text(s)) == ToAmount(Text(RemoveCommas(s)))
  {
    RemoveCommasKeepsRest(RemoveCommas(s));
  }

  /** `_to_amount("1,234.50") == 1234.50`. */
  lemma ThousandsSeparator()
    ensures ToAmount(Text("1,234.50")) == Some(123450)
  {
    CommaRemoved();
    PlainDecimalParses();
    PlainDecimalCents();
  }

  lemma CommaRemoved()
    ensures RemoveCommas("1,234.50") == "1234.50"
  {
    assert "1,234.50"[1..] == ",234.50";
    assert ",234.50"[1..] == "234.50";
    RemoveCommasKeepsRest("234.50");
  }

  lemma PlainDecimalParses()
    ensures ParseDecimal("1234.50") == Some(Decimal(false, "1234", "50"))
  {
    StripUnchanged("1234.50");
    assert SignOf("1234.50") == (false, "1234.50");
    assert "1234" + "." + "50" == "1234.50";
    SplitAtPoint("1234", "50");
  }

  lemma PlainDecimalCents()
    ensures WellFormed(Decimal(false, "1234", "50"))
    ensures Cents(Decimal(false, "1234", "50")) == 123450
  {
    assert "1234" + "50" == "123450";
    DigitsSix();
  }

  lemma DigitsSix()
    ensures DigitsValue("123450") == 123450
  {
    assert "12"[..1] == "1";
    assert "123"[..2] == "12";
    assert "1234"[..3] == "123";
    assert "12345"[..4] == "1234";
    assert "123450"[..5] == "12345";
  }

  /** Text that is not a number gives None. */
  lemma Unparseable()
    ensures ToAmount(Text("abc")) == None
  {
    assert "abc"[0] == 'a' && "abc"[2] == 'c';
    assert Lower("abc")[0] == LowerChar('a') == 'a';
    NotANumber("abc");
  }

  /** A missing cell reads as "None", which does not parse. */
  lemma MissingUnparseable()
    ensures ToAmount(Missing) == None
  {
    assert "None"[0] == 'N' && "None"[3] == 'e';
    NotANumber("None");
  }

  /**
   * Text with a letter up front and no '.' does not parse, unless it is one
   * of the words `float()` reads as infinity or NaN.
   */
  lemma NotANumber(s: string)
    requires |s| > 0 && IsLetter(s[0]) && !IsSpace(s[|s| - 1])
    requires forall i :: 0 <= i < |s| ==> s[i] != ',' && s[i] != '.'
    requires Lower(s) != "inf" && Lower(s) != "infinity" && Lower(s) != "nan"
    ensures ToAmount(Text(s)) == None
  {
    RemoveCommasKeepsRest(s);
    StripUnchanged(s);
    assert SignOf(s) == (false, s);
    assert SplitPoint(s) == (s, "");
  }

  /** Digits, a point, digits: split at the point. */
  lemma SplitAtPoint(w: string, f: string)
    requires AllDigits(w)
    ensures SplitPoint(w + "." + f) == (w, f)
  {
    IndexOfAfterDigits(w, f);
    var body := w + "." + f;
    assert body[..|w|] == w && body[|w| + 1..] == f;
  }

  /** A signed decimal literal with digits on both sides of the point parses to its parts. */
  lemma SignedDecimalParses(negative: bool, w: string, f: string)
    requires |w| >= 1 && AllDigits(w) && |f| >= 1 && AllDigits(f)
    ensures ParseDecimal((if negative then "-" else "") + (w + "." + f)) == Some(Decimal(negative, w, f))
  {
    var body := w + "." + f;
    var t := (if negative then "-" else "") + body;
    assert body[0] == w[0] && body[|body| - 1] == f[|f| - 1];
    assert t[0] == (if negative then '-' else w[0]);
    assert t[|t| - 1] == f[|f| - 1];
    assert IsDigit(w[0]);
    StripUnchanged(t);
    if negative {
      assert t[1..] == body;
    } else {
      assert t == body;
    }
    assert SignOf(t) == (negative, body);
    SplitAtPoint(w, f);
  }

  /** `str` of a two-decimal float reads back as the same number of cents. */
  lemma FloatTextParses(c: int)
    ensures ParseDecimal(FloatText(c)) ==
      Some(Decimal(c < 0, NatText(Abs(c) / 100), CentsFraction(Abs(c) % 100)))
  {
    var w, f := NatText(Abs(c) / 100), CentsFraction(Abs(c) % 100);
    assert FloatText(c) == (if c < 0 then "-" else "") + (w + "." + f);
    SignedDecimalParses(c < 0, w, f);
  }

  lemma {:induction false} IndexOfAfterDigits(w: string, f: string)
    requires AllDigits(w)
    ensures IndexOf(w + "." + f, '.') == Some(|w|)
  {
    if w != [] {
      assert (w + "." + f)[1..] == w[1..] + "." + f;
      IndexOfAfterDigits(w[1..], f);
    }
  }

  /** A numeric cell's rendered text has no comma. */
  lemma FloatTextHasNoComma(c: int)
    ensures forall i :: 0 <= i < |FloatText(c)| ==> FloatText(c)[i] != ','
  {
    var w, f := NatText(Abs(c) / 100), CentsFraction(Abs(c) % 100);
    assert FloatText(c) == (if c < 0 then "-" else "") + w + "." + f;
  }

  lemma OneDigit(a: nat)
    requires a < 10
    ensures DigitsValue([DigitChar(a)]) == a
  {
    assert [DigitChar(a)][..0] == [];
  }

  lemma TwoDigits(a: nat, b: nat)
    requires a < 10 && b < 10
    ensures DigitsValue([DigitChar(a), DigitChar(b)]) == 10 * a + b
  {
    assert [DigitChar(a), DigitChar(b)][..1] == [DigitChar(a)];
    OneDigit(a);
  }

  /** The fraction digits of `repr` spell the cents, scaled to their own length. */
  lemma CentsFractionValue(f: nat)
    requires f < 100
    ensures |CentsFraction(f)| == 1 ==> f % 10 == 0 && DigitsValue(CentsFraction(f)) * 10 == f
    ensures |CentsFraction(f)| == 2 ==> DigitsValue(CentsFraction(f)) == f
  {
    if f % 10 == 0 {
      OneDigit(f / 10);
    } else {
      TwoDigits(f / 10, f % 10);
    }
  }

  /** The cents of the decimal that `str(cents / 100)` spells are `cents` again. */
  lemma FloatTextCents(c: int)
    ensures WellFormed(Decimal(c < 0, NatText(Abs(c) / 100), CentsFraction(Abs(c) % 100)))
    ensures Cents(Decimal(c < 0, NatText(Abs(c) / 100), CentsFraction(Abs(c) % 100))) == c
  {
    var q, f := Abs(c) / 100, Abs(c) % 100;
    var w, fr := NatText(q), CentsFraction(f);
    var d := Decimal(c < 0, w, fr);
    NatTextValue(q);
    DigitsValueAppend(w, fr);
    CentsFractionValue(f);
    assert Scaled(d) == q * Pow10(|fr|) + DigitsValue(fr);
    assert Abs(c) == q * 100 + f;
    if |fr| == 1 {
      assert Scaled(d) * 10 == q * 100 + f;
    } else {
      assert Scaled(d) == q * 100 + f;
    }
  }

  /**
   * `_to_amount` is idempotent: applied to the number it produced (a float
   * with two decimals) it returns that number again.
   */
  lemma ToAmountIdempotent(v: Val)
    ensures ToAmount(AmountCell(ToAmount(v))) == ToAmount(v)
  {
    match ToAmount(v)
    case None => MissingUnparseable();
    case Some(c) => ToAmountOfNumber(c);
  }

  /** A numeric cell is read back exactly. */
  lemma ToAmountOfNumber(c: int)
    ensures ToAmount(Num(c)) == Some(c)
  {
    FloatTextHasNoComma(c);
    RemoveCommasKeepsRest(FloatText(c));
    FloatTextParses(c);
    FloatTextCents(c);
  }
}
