/**
 * Character and string helpers shared by the normalizer, the bank-table
 * reader and the report writer: Python's `str.strip`, `str.upper`,
 * `str.lower`, `str.title`, `str.zfill`, the `in` substring test and
 * decimal rendering of naturals, restricted to ASCII.
 */
module Text {

  /** Python's `str.isspace` on ASCII: space, \t \n \v \f \r and \x1c-\x1f. */
  predicate IsSpace(c: char) {
    c == ' ' || ('\U{9}' <= c <= '\U{D}') || ('\U{1C}' <= c <= '\U{1F}')
  }

  predicate IsDigit(c: char) { '0' <= c <= '9' }
  predicate IsUpper(c: char) { 'A' <= c <= 'Z' }
  predicate IsLower(c: char) { 'a' <= c <= 'z' }
  /** A cased character in the sense of `str.title`. */
  predicate IsLetter(c: char) { IsUpper(c) || IsLower(c) }

  predicate AllDigits(s: string) { forall i :: 0 <= i < |s| ==> IsDigit(s[i]) }

  function UpperChar(c: char): char {
    if IsLower(c) then (c as int - 32) as char else c
  }

  function LowerChar(c: char): char {
    if IsUpper(c) then (c as int + 32) as char else c
  }

  // ---------------------------------------------------------------- strip

  /** `s.lstrip()`: drops the leading whitespace and nothing else. */
  function TrimStart(s: string): (r: string)
    ensures |r| <= |s|
    ensures r == [] || !IsSpace(r[0])
    ensures forall i :: 0 <= i < |s| - |r| ==> IsSpace(s[i])
    decreases |s|
  {
    if |s| > 0 && IsSpace(s[0]) then TrimStart(s[1..]) else s
  }

  /** `s.rstrip()`: drops the trailing whitespace and nothing else. */
  function TrimEnd(s: string): (r: string)
    ensures |r| <= |s|
    ensures r == [] || !IsSpace(r[|r| - 1])
    ensures forall i :: |r| <= i < |s| ==> IsSpace(s[i])
    decreases |s|
  {
    if |s| > 0 && IsSpace(s[|s| - 1]) then TrimEnd(s[..|s| - 1]) else s
  }

  /** Trimming the front keeps a suffix of the text. */
  lemma {:induction false} TrimStartSlice(s: string)
    ensures TrimStart(s) == s[|s| - |TrimStart(s)|..]
    decreases |s|
  {
    if |s| > 0 && IsSpace(s[0]) {
      TrimStartSlice(s[1..]);
      assert s[1..][|s| - 1 - |TrimStart(s)|..] == s[|s| - |TrimStart(s)|..];
    }
  }

  /** Trimming the end keeps a prefix of the text. */
  lemma {:induction false} TrimEndSlice(s: string)
    ensures TrimEnd(s) == s[..|TrimEnd(s)|]
    decreases |s|
  {
    if |s| > 0 && IsSpace(s[|s| - 1]) {
      TrimEndSlice(s[..|s| - 1]);
      assert s[..|s| - 1][..|TrimEnd(s)|] == s[..|TrimEnd(s)|];
    }
  }

  /** `s.strip()`. */
  function Strip(s: string): (r: string)
    ensures |r| <= |s|
  {
    TrimEnd(TrimStart(s))
  }

  /** A stripped text neither starts nor ends with whitespace. */
  lemma StripEnds(s: string)
    ensures var r := Strip(s); r == [] || (!IsSpace(r[0]) && !IsSpace(r[|r| - 1]))
  {
    TrimEndSlice(TrimStart(s));
  }

  /** A string without surrounding whitespace is its own strip. */
  lemma {:induction false} StripUnchanged(s: string)
    requires s == [] || (!IsSpace(s[0]) && !IsSpace(s[|s| - 1]))
    ensures Strip(s) == s
  {
    assert TrimStart(s) == s;
    assert TrimEnd(s) == s;
  }

  lemma StripIdempotent(s: string)
    ensures Strip(Strip(s)) == Strip(s)
  {
    StripEnds(s);
    StripUnchanged(Strip(s));
  }

  // ---------------------------------------------------------------- case

  /** `s.upper()` on ASCII letters. */
  function Upper(s: string): (r: string)
    ensures |r| == |s|
  {
    seq(|s|, i requires 0 <= i < |s| => UpperChar(s[i]))
  }

  /** `s.lower()` on ASCII letters. */
  function Lower(s: string): (r: string)
    ensures |r| == |s|
  {
    seq(|s|, i requires 0 <= i < |s| => LowerChar(s[i]))
  }

  /**
   * `s.title()`: a letter that follows a letter is lowered, every other
   * letter is raised; other characters are left alone.
   */
  function Title(s: string): (r: string)
    ensures |r| == |s|
  {
    seq(|s|, i requires 0 <= i < |s| =>
      if i > 0 && IsLetter(s[i - 1]) then LowerChar(s[i]) else UpperChar(s[i]))
  }

  /** Upper-casing changes only letters, and only their case. */
  lemma UpperSpec(s: string)
    ensures forall i :: 0 <= i < |s| ==>
      !IsLower(Upper(s)[i]) && LowerChar(Upper(s)[i]) == LowerChar(s[i])
  {
  }

  /** Text without lower-case letters is its own upper-case form. */
  lemma UpperUnchanged(s: string)
    requires forall i :: 0 <= i < |s| ==> !IsLower(s[i])
    ensures Upper(s) == s
  {
  }

  lemma UpperIdempotent(s: string)
    ensures Upper(Upper(s)) == Upper(s)
  {
  }

  /** Stripping then upper-casing gives a string that both leave unchanged. */
  lemma {:induction false} StripUpperIdempotent(s: string)
    ensures Strip(Upper(Strip(Upper(Strip(s))))) == Upper(Strip(s))
    ensures Upper(Strip(Upper(Strip(s)))) == Upper(Strip(s))
  {
    var t := Strip(s);
    var u := Upper(t);
    StripEnds(s);
    assert u == [] || (!IsSpace(u[0]) && !IsSpace(u[|u| - 1]));
    StripUnchanged(u);
    UpperIdempotent(t);
  }

  /** The words of a title-cased string start upper-case and continue lower-case. */
  predicate IsTitled(s: string) {
    forall i :: 0 <= i < |s| && IsLetter(s[i]) ==>
      (IsUpper(s[i]) <==> (i == 0 || !IsLetter(s[i - 1])))
  }

  /** `Title` yields a titled string that differs from its input only in letter case. */
  lemma TitleSpec(s: string)
    ensures IsTitled(Title(s))
    ensures Lower(Title(s)) == Lower(s)
  {
  }

  /** Title-casing a title-cased string changes nothing. */
  lemma TitleIdempotent(t: string)
    ensures Title(Title(t)) == Title(t)
  {
    var u := Title(t);
    forall i | 0 <= i < |u| ensures Title(u)[i] == u[i] {
      assert i > 0 ==> (IsLetter(u[i - 1]) <==> IsLetter(t[i - 1]));
    }
  }

  /** Stripping then title-casing gives a string that both leave unchanged. */
  lemma {:induction false} StripTitleIdempotent(s: string)
    ensures Title(Strip(Title(Strip(s)))) == Title(Strip(s))
  {
    var t := Strip(s);
    var u := Title(t);
    StripEnds(s);
    assert u == [] || (!IsSpace(u[0]) && !IsSpace(u[|u| - 1]));
    StripUnchanged(u);
    TitleIdempotent(t);
  }

  // ---------------------------------------------------------------- search

  predicate IsPrefix(p: string, s: string) {
    |p| <= |s| && s[..|p|] == p
  }

  /** Python's `t in s`. */
  predicate Contains(s: string, t: string)
    decreases |s|
  {
    IsPrefix(t, s) || (|s| > 0 && Contains(s[1..], t))
  }

  /** `Contains` holds exactly when `t` occurs at some offset of `s`. */
  lemma {:induction false} ContainsSpec(s: string, t: string)
    ensures Contains(s, t) <==> exists i :: 0 <= i <= |s| - |t| && IsPrefix(t, s[i..])
    decreases |s|
  {
    if |s| > 0 {
      ContainsSpec(s[1..], t);
      if Contains(s[1..], t) {
        var i :| 0 <= i <= |s| - 1 - |t| && IsPrefix(t, s[1..][i..]);
        assert s[1..][i..] == s[i + 1..];
      }
      forall i | 1 <= i <= |s| - |t| && IsPrefix(t, s[i..])
        ensures Contains(s[1..], t)
      {
        assert s[1..][i - 1..] == s[i..];
      }
    }
    assert s[0..] == s;
  }

  // ---------------------------------------------------------------- digits

  function Pow10(k: nat): (r: nat)
    ensures r >= 1
  {
    if k == 0 then 1 else 10 * Pow10(k - 1)
  }

  function DigitChar(d: nat): char
    requires d < 10
  {
    ('0' as int + d) as char
  }

  function DigitValue(c: char): nat
    requires IsDigit(c)
  {
    c as int - '0' as int
  }

  /** The number a string of decimal digits denotes. */
  function DigitsValue(s: string): nat
    requires AllDigits(s)
  {
    if s == [] then 0 else DigitsValue(s[..|s| - 1]) * 10 + DigitValue(s[|s| - 1])
  }

  /** `str(n)` for a natural number: decimal digits without leading zeros. */
  function NatText(n: nat): (r: string)
    ensures |r| >= 1 && AllDigits(r)
    ensures r[0] == '0' ==> n == 0
  {
    if n < 10 then [DigitChar(n)] else NatText(n / 10) + [DigitChar(n % 10)]
  }

  lemma {:induction false} NatTextValue(n: nat)
    ensures DigitsValue(NatText(n)) == n
  {
    if n >= 10 {
      NatTextValue(n / 10);
      var s := NatText(n);
      assert s[..|s| - 1] == NatText(n / 10);
    }
  }

  /** A number below 10^k needs at most k digits. */
  lemma {:induction false} NatTextLength(n: nat, k: nat)
    requires k >= 1 && n < Pow10(k)
    ensures |NatText(n)| <= k
  {
    if n >= 10 {
      NatTextLength(n / 10, k - 1);
    }
  }

  lemma {:induction false} DigitsValueAppend(a: string, b: string)
    requires AllDigits(a) && AllDigits(b)
    ensures AllDigits(a + b)
    ensures DigitsValue(a + b) == DigitsValue(a) * Pow10(|b|) + DigitsValue(b)
    decreases |b|
  {
    if b != [] {
      var b' := b[..|b| - 1];
      var d := DigitValue(b[|b| - 1]);
      assert (a + b)[..|a + b| - 1] == a + b';
      assert (a + b)[|a + b| - 1] == b[|b| - 1];
      DigitsValueAppend(a, b');
      var x, y, p := DigitsValue(a), DigitsValue(b'), Pow10(|b'|);
      assert DigitsValue(a + b) == (x * p + y) * 10 + d;
      ShiftDigit(x, p, y);
      assert Pow10(|b|) == p * 10;
      assert DigitsValue(b) == y * 10 + d;
    } else {
      assert a + b == a;
    }
  }

  lemma ShiftDigit(x: int, p: int, y: int)
    ensures (x * p + y) * 10 == x * (p * 10) + y * 10
  {
  }

  /** The digits of a number below 10^k, read back, give the number. */
  lemma {:induction false} DigitsValueBound(s: string)
    requires AllDigits(s)
    ensures DigitsValue(s) < Pow10(|s|)
  {
    if s != [] {
      DigitsValueBound(s[..|s| - 1]);
    }
  }

  /** A digit string with no leading zero is exactly `str` of its value. */
  lemma {:induction false} NatTextOfCanonical(s: string)
    requires |s| >= 1 && AllDigits(s) && (|s| > 1 ==> s[0] != '0')
    ensures NatText(DigitsValue(s)) == s
    decreases |s|
  {
    if |s| > 1 {
      var p := s[..|s| - 1];
      NatTextOfCanonical(p);
      LeadingDigitPositive(p);
      assert DigitsValue(s) / 10 == DigitsValue(p);
    }
  }

  lemma {:induction false} LeadingDigitPositive(s: string)
    requires |s| >= 1 && AllDigits(s) && s[0] != '0'
    ensures DigitsValue(s) >= 1
    decreases |s|
  {
    if |s| > 1 {
      LeadingDigitPositive(s[..|s| - 1]);
    }
  }

  // ---------------------------------------------------------------- zfill

  function Zeros(n: nat): (r: string)
    ensures |r| == n
  {
    if n == 0 then [] else ['0'] + Zeros(n - 1)
  }

  /** `s.zfill(w)` for a digit string: left-pads with '0' up to width `w`. */
  function ZFill(s: string, w: nat): (r: string)
    ensures |r| == if |s| >= w then |s| else w
  {
    if |s| >= w then s else Zeros(w - |s|) + s
  }

  /** Zero-padding keeps the digits and their value; only shorter strings grow. */
  lemma {:induction false} ZFillValue(s: string, w: nat)
    requires AllDigits(s)
    ensures AllDigits(ZFill(s, w))
    ensures DigitsValue(ZFill(s, w)) == DigitsValue(s)
    ensures ZFill(s, w)[|ZFill(s, w)| - |s|..] == s
  {
    if |s| < w {
      ZerosValue(w - |s|);
      DigitsValueAppend(Zeros(w - |s|), s);
    }
  }

  lemma {:induction false} ZerosValue(n: nat)
    ensures AllDigits(Zeros(n)) && DigitsValue(Zeros(n)) == 0
  {
    if n > 0 {
      ZerosValue(n - 1);
      DigitsValueAppend(['0'], Zeros(n - 1));
      assert ['0'][..0] == [];
      assert DigitsValue(['0']) == 0;
    }
  }

  /**
   * A digit string of width `w` is `str(v).zfill(w)` of its own value `v`:
   * zero-padded decimal text is read back without loss.
   */
  lemma {:induction false} ZFillOfValue(s: string)
    requires |s| >= 1 && AllDigits(s)
    ensures ZFill(NatText(DigitsValue(s)), |s|) == s
    decreases |s|
  {
    if |s| > 1 && s[0] == '0' {
      ZFillOfValue(s[1..]);
      ZFillLeadingZero(s);
    } else {
      NatTextOfCanonical(s);
    }
  }

  /** A leading zero does not change the value of a digit string. */
  lemma LeadingZeroValue(s: string)
    requires |s| > 1 && AllDigits(s) && s[0] == '0'
    ensures DigitsValue(s) == DigitsValue(s[1..])
  {
    var t := s[1..];
    assert s == ['0'] + t;
    DigitsValueAppend(['0'], t);
    assert ['0'][..0] == [];
    assert DigitsValue(['0']) == 0;
  }

  /** Padding to one more column adds exactly one '0' in front. */
  lemma PadOneMore(n: string, w: nat)
    requires |n| <= w
    ensures ZFill(n, w + 1) == ['0'] + ZFill(n, w)
  {
    assert Zeros(w + 1 - |n|) == ['0'] + Zeros(w - |n|);
  }

  /** One leading zero: the padded text of the value grows by that zero. */
  lemma ZFillLeadingZero(s: string)
    requires |s| > 1 && AllDigits(s) && s[0] == '0'
    requires ZFill(NatText(DigitsValue(s[1..])), |s| - 1) == s[1..]
    ensures ZFill(NatText(DigitsValue(s)), |s|) == s
  {
    var t := s[1..];
    LeadingZeroValue(s);
    var n := NatText(DigitsValue(t));
    PadOneMore(n, |t|);
    assert s == ['0'] + t;
  }
}
