/**
 * `_to_date` of src/tools/normalize_tools.py. The heuristic parser it calls
 * (`dateutil.parser.parse`) is a parameter; what is fixed here is the
 * handling of empty input and failures, and the ISO `YYYY-MM-DD` text of
 * the date it returns. `ParseIso` is one concrete parser, the inverse of
 * that text.
 */
module Dates {
  import opened Text
  import opened Values

  datatype Date = Date(year: int, month: int, day: int)

  predicate IsLeap(y: int) {
    y % 4 == 0 && (y % 100 != 0 || y % 400 == 0)
  }

  function DaysInMonth(y: int, m: int): int {
    if m == 2 then (if IsLeap(y) then 29 else 28)
    else if m == 4 || m == 6 || m == 9 || m == 11 then 30
    else 31
  }

  /** The range of Python's `datetime.date`. */
  predicate ValidDate(d: Date) {
    1 <= d.year <= 9999 && 1 <= d.month <= 12 && 1 <= d.day <= DaysInMonth(d.year, d.month)
  }

  type CalendarDate = d: Date | ValidDate(d) witness Date(1, 1, 1)

  /** The date parser the normalizer calls: a date, or None where it would raise. */
  type DateParser = string -> Option<CalendarDate>

  /** `date.isoformat()`. */
  function IsoText(d: CalendarDate): (s: string)
  {
    ZFill(NatText(d.year), 4) + "-" + ZFill(NatText(d.month), 2) + "-" + ZFill(NatText(d.day), 2)
  }

  /** Ten characters `YYYY-MM-DD` naming a valid date, else None. */
  function ParseIso(s: string): Option<CalendarDate> {
    if |s| == 10 && s[4] == '-' && s[7] == '-'
       && AllDigits(s[..4]) && AllDigits(s[5..7]) && AllDigits(s[8..])
    then
      var d := Date(DigitsValue(s[..4]), DigitsValue(s[5..7]), DigitsValue(s[8..]));
      if ValidDate(d) then Some(d) else None
    else
      None
  }

  /**
   * `_to_date(x)`: None for a missing or empty cell and wherever the parser
   * fails; otherwise the ISO text of the parsed date.
   */
  function ToDate(v: Val, parse: DateParser): (r: Val)
    ensures r.Missing? || r.Text?
    ensures v.Missing? || v == Text("") ==> r.Missing?
    ensures !(v.Missing? || v == Text("")) ==> (r.Missing? <==> parse(CellText(v)).None?)
    ensures r.Text? ==> parse(CellText(v)).Some? && r.s == IsoText(parse(CellText(v)).value)
    ensures r.Text? ==> ParseIso(r.s).Some? && IsoText(ParseIso(r.s).value) == r.s
  {
    if v.Missing? || v == Text("") then Missing
    else match parse(CellText(v))
      case None => Missing
      case Some(d) => IsoRoundTrip(d); Text(IsoText(d))
  }

  // ---------------------------------------------------------------- properties

  /** A field of `w` digits holds its value zero-padded to `w` characters. */
  lemma PaddedField(n: nat, w: nat)
    requires w >= 1 && n < Pow10(w)
    ensures |ZFill(NatText(n), w)| == w
    ensures AllDigits(ZFill(NatText(n), w)) && DigitsValue(ZFill(NatText(n), w)) == n
  {
    NatTextLength(n, w);
    NatTextValue(n);
    ZFillValue(NatText(n), w);
  }

  /** Reading the ISO text of a date gives the date back. */
  lemma IsoRoundTrip(d: CalendarDate)
    ensures ParseIso(IsoText(d)) == Some(d)
  {
    assert Pow10(4) == 10000 && Pow10(2) == 100;
    PaddedField(d.year, 4);
    PaddedField(d.month, 2);
    PaddedField(d.day, 2);
    var y, m, dd := ZFill(NatText(d.year), 4), ZFill(NatText(d.month), 2), ZFill(NatText(d.day), 2);
    var s := IsoText(d);
    assert s == y + "-" + m + "-" + dd;
    assert s[..4] == y && s[5..7] == m && s[8..] == dd;
  }

  /** Text ParseIso accepts is exactly the ISO text of the date it returns. */
  lemma IsoCanonical(s: string)
    requires ParseIso(s).Some?
    ensures IsoText(ParseIso(s).value) == s
  {
    var d := ParseIso(s).value;
    ZFillOfValue(s[..4]);
    ZFillOfValue(s[5..7]);
    ZFillOfValue(s[8..]);
    assert s == s[..4] + "-" + s[5..7] + "-" + s[8..];
  }

  /**
   * `_to_date` is idempotent when the parser reads ISO text back as the same
   * date (as dateutil does): normalized dates stay as they are.
   */
  lemma ToDateIdempotent(v: Val, parse: DateParser)
    requires forall d: CalendarDate :: parse(IsoText(d)) == Some(d)
    ensures ToDate(ToDate(v, parse), parse) == ToDate(v, parse)
  {
    var r := ToDate(v, parse);
    if r.Text? {
      var d := ParseIso(r.s).value;
      assert parse(IsoText(d)) == Some(d);
    }
  }
}
