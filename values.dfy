/**
 * The dynamic records the tools exchange. A record is a Python dict from
 * column name to cell, turned into a pandas DataFrame by every tool; a
 * cell is None, a string, or a float carrying at most two decimals, kept
 * here as a whole number of cents.
 */
module Values {
  import opened Text

  datatype Option<+T> = None | Some(value: T)

  /** One cell: Python None (and pandas' missing-value fill), a string, or a number in cents. */
  datatype Val = Missing | Text(s: string) | Num(cents: int)

  type Row = map<string, Val>

  /** `row.get(col)`; a column the record lacks reads as missing, as after pandas' fill. */
  function Get(row: Row, col: string): Val {
    if col in row then row[col] else Missing
  }

  /** The columns of `pd.DataFrame(records)`: every key of every record. */
  function Columns(records: seq<Row>): (cols: set<string>)
    ensures forall i, k :: 0 <= i < |records| && k in records[i] ==> k in cols
  {
    if records == [] then {} else records[0].Keys + Columns(records[1..])
  }

  /** Every column is the key of some record. */
  lemma {:induction false} ColumnsFromRecords(records: seq<Row>)
    ensures forall k :: k in Columns(records) ==> exists i :: 0 <= i < |records| && k in records[i]
  {
    if records != [] {
      ColumnsFromRecords(records[1..]);
      assert forall i :: 1 <= i < |records| ==> records[i] == records[1..][i - 1];
    }
  }

  /** One record as `to_dict(orient="records")` returns it: every column present, missing ones filled. */
  function Fill(row: Row, cols: set<string>): (r: Row)
    ensures r.Keys == cols
    ensures forall k :: k in cols ==> r[k] == Get(row, k)
  {
    map k | k in cols :: Get(row, k)
  }

  function Abs(x: int): nat {
    if x < 0 then -x else x
  }

  // ---------------------------------------------------------------- rendering

  /** The fractional part of Python's `repr` of a two-decimal float: trailing zero dropped, at least one digit. */
  function CentsFraction(f: nat): (r: string)
    requires f < 100
    ensures 1 <= |r| <= 2 && AllDigits(r)
  {
    if f % 10 == 0 then [DigitChar(f / 10)] else [DigitChar(f / 10), DigitChar(f % 10)]
  }

  /** `str(x)` of the float `cents / 100`: "12.5", "0.03", "100.0", "-7.25". */
  function FloatText(cents: int): (r: string)
    ensures |r| >= 3
  {
    (if cents < 0 then "-" else "") + NatText(Abs(cents) / 100) + "." + CentsFraction(Abs(cents) % 100)
  }

  /** `str(cell)`. */
  function CellText(v: Val): string {
    match v
    case Missing => "None"
    case Text(s) => s
    case Num(c) => FloatText(c)
  }

  /** `str(cell or "")`: falsy cells (None, "", 0) give the empty string. */
  function OrEmpty(v: Val): string {
    match v
    case Missing => ""
    case Text(s) => s
    case Num(c) => if c == 0 then "" else FloatText(c)
  }

  /** A numeric cell's amount; anything else reads as absent. */
  function AmountOf(v: Val): Option<int> {
    if v.Num? then Some(v.cents) else None
  }

  /** The amount columns hold numbers or nothing (a text amount makes pandas arithmetic raise). */
  predicate AmountsNumeric(records: seq<Row>) {
    forall i :: 0 <= i < |records| ==> !Get(records[i], "Amount").Text?
  }

  // ---------------------------------------------------------------- index lists

  /** `[i for i in range(n) if i not in s]`. */
  function Outside(n: nat, s: set<nat>): seq<nat> {
    if n == 0 then [] else Outside(n - 1, s) + (if n - 1 in s then [] else [n - 1])
  }

  /** `[i for i in range(n) if i in s]`. */
  function Among(n: nat, s: set<nat>): seq<nat> {
    if n == 0 then [] else Among(n - 1, s) + (if n - 1 in s then [n - 1] else [])
  }

  predicate StrictlyIncreasing(xs: seq<nat>) {
    forall a, b :: 0 <= a < b < |xs| ==> xs[a] < xs[b]
  }

  /** `Outside` lists, in increasing order, exactly the indices below `n` not in `s`. */
  lemma {:induction false} OutsideSpec(n: nat, s: set<nat>)
    ensures StrictlyIncreasing(Outside(n, s))
    ensures forall i: nat :: i in Outside(n, s) <==> i < n && i !in s
  {
    if n > 0 {
      OutsideSpec(n - 1, s);
      var r := Outside(n - 1, s);
      forall k | 0 <= k < |r| ensures r[k] < n - 1 {
        assert r[k] in r;
      }
    }
  }

  /** `Among` lists, in increasing order, exactly the indices below `n` in `s`. */
  lemma {:induction false} AmongSpec(n: nat, s: set<nat>)
    ensures StrictlyIncreasing(Among(n, s))
    ensures forall i: nat :: i in Among(n, s) <==> i < n && i in s
  {
    if n > 0 {
      AmongSpec(n - 1, s);
      var r := Among(n - 1, s);
      forall k | 0 <= k < |r| ensures r[k] < n - 1 {
        assert r[k] in r;
      }
    }
  }

  /** `set(range(n))`. */
  function Below(n: nat): (r: set<nat>)
    ensures forall i: nat :: i in r <==> i < n
  {
    if n == 0 then {} else Below(n - 1) + {n - 1}
  }

  /** Every index below `n` is listed by exactly one of `Outside` and `Among`. */
  lemma {:induction false} OutsideAmongLength(n: nat, s: set<nat>)
    ensures |Outside(n, s)| + |Among(n, s)| == n
  {
    if n > 0 {
      OutsideAmongLength(n - 1, s);
    }
  }

  /** The unlisted indices and the listed ones together account for all `n`. */
  lemma OutsideCount(n: nat, s: set<nat>)
    requires s <= Below(n)
    ensures |Outside(n, s)| + |s| == n
  {
    OutsideAmongLength(n, s);
    AmongCount(n, s);
  }

  /** `Among` lists each member of a set of small indices once. */
  lemma {:induction false} AmongCount(n: nat, s: set<nat>)
    requires s <= Below(n)
    ensures |Among(n, s)| == |s|
  {
    if n > 0 {
      var s' := s - {n - 1};
      assert s' <= Below(n - 1);
      AmongCount(n - 1, s');
      AmongIgnoresLarger(n - 1, s, s');
    }
  }

  lemma {:induction false} AmongIgnoresLarger(n: nat, s: set<nat>, s': set<nat>)
    requires forall i: nat :: i < n ==> (i in s <==> i in s')
    ensures Among(n, s) == Among(n, s')
  {
    if n > 0 {
      AmongIgnoresLarger(n - 1, s, s');
    }
  }

  /** One more than the largest element, 0 for the empty list. */
  function Bound(xs: seq<nat>): (b: nat)
    ensures forall k :: 0 <= k < |xs| ==> xs[k] < b
  {
    if xs == [] then 0 else
      var rest := Bound(xs[1..]);
      assert forall k :: 1 <= k < |xs| ==> xs[k] == xs[1..][k - 1];
      if xs[0] + 1 > rest then xs[0] + 1 else rest
  }

  /** `set(xs)`. */
  function Elements(xs: seq<nat>): set<nat> {
    set k | k in xs
  }

  /** The elements of `set(xs)` in ascending order, the model's fixed order for iterating a set of indices. */
  function Ascending(xs: seq<nat>): (r: seq<nat>)
  {
    Among(Bound(xs), Elements(xs))
  }

  /** `Ascending` lists each distinct element once, in increasing order. */
  lemma AscendingSpec(xs: seq<nat>)
    ensures StrictlyIncreasing(Ascending(xs))
    ensures forall i: nat :: i in Ascending(xs) <==> i in xs
    ensures |Ascending(xs)| == |Elements(xs)|
  {
    var s := Elements(xs);
    var b := Bound(xs);
    assert Ascending(xs) == Among(b, s);
    AmongSpec(b, s);
    forall k | k in s ensures k < b {
      var j :| 0 <= j < |xs| && xs[j] == k;
    }
    assert s <= Below(b);
    AmongCount(b, s);
    assert |Ascending(xs)| == |s|;
  }
}
