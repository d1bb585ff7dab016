/**
 * `classify_discrepancies` of src/tools/discrepancy_tools.py: every matched
 * pair, taken once, gets a status from its amount difference (0.05 of
 * tolerance, kept here as 5 cents), which an invoice id repeated in either
 * ledger overrides with "Duplicate"; then every unmatched ERP index and every
 * unmatched bank index gets a record of its own.
 */
module Discrepancy {
  import opened Text
  import opened Values
  import opened Matching

  /** The six statuses a reconciliation record can carry. */
  datatype Status = Matched | RoundingDifference | AmountMismatch | Duplicate | MissingInBank | MissingInErp

  /** The text the source writes for each status. */
  function StatusLabel(s: Status): string {
    match s
    case Matched => "Matched"
    case RoundingDifference => "Rounding difference"
    case AmountMismatch => "Amount mismatch"
    case Duplicate => "Duplicate"
    case MissingInBank => "Missing in Bank"
    case MissingInErp => "Missing in ERP"
  }

  /** One entry of `results`; `amountDiff` is in cents. */
  datatype Reconciliation = Reconciliation(
    erpIndex: Option<nat>, bankIndex: Option<nat>, status: Status,
    amountDiff: Option<nat>, rationale: seq<string>)

  const ExactNote := "Exact amount match."
  const DuplicateNote := "Invoice ID appears multiple times in one dataset."
  const NoBankNote := "ERP record has no corresponding bank transaction after matching."
  const NoErpNote := "Bank transaction has no corresponding ERP record after matching."

  /** The message for a difference within tolerance (the source's text carries a mis-encoded '≤'). */
  function RoundingNote(diff: nat): string {
    "Amounts differ by " + FloatText(diff) + ", within rounding tolerance (\U{E2}\U{2030}\U{A4} 0.05)."
  }

  function MismatchNote(diff: nat): string {
    "Amounts differ by " + FloatText(diff) + " (> 0.05)."
  }

  // ---------------------------------------------------------------- one pair

  /** `round(abs(amt_e - amt_b), 2)` when both amounts are present. */
  function AmountDiff(e: Row, b: Row): (d: Option<nat>)
    ensures d.Some? <==> Get(e, "Amount").Num? && Get(b, "Amount").Num?
    ensures d.Some? ==> d.value == Abs(Get(e, "Amount").cents - Get(b, "Amount").cents)
  {
    match (AmountOf(Get(e, "Amount")), AmountOf(Get(b, "Amount")))
    case (Some(x), Some(y)) => Some(Abs(x - y))
    case _ => None
  }

  /** The status the amounts give: within 5 cents is rounding, and exactly 5 cents still is. */
  function AmountStatus(diff: Option<nat>): (s: Status)
    ensures s == Matched <==> diff.None? || diff == Some(0)
    ensures s == RoundingDifference <==> diff.Some? && 1 <= diff.value <= 5
    ensures s == AmountMismatch <==> diff.Some? && diff.value > 5
  {
    match diff
    case None => Matched
    case Some(d) => if d == 0 then Matched else if d <= 5 then RoundingDifference else AmountMismatch
  }

  /** The rationale the amounts give: one entry when both are present, none otherwise. */
  function AmountRationale(diff: Option<nat>): seq<string> {
    match diff
    case None => []
    case Some(d) => [if d == 0 then ExactNote else if d <= 5 then RoundingNote(d) else MismatchNote(d)]
  }

  /** An invoice cell `.strip()` accepts after `or ""`: anything but a non-zero number. */
  predicate IdIsText(v: Val) {
    !v.Num? || v.cents == 0
  }

  /** `(e.get("Invoice ID") or "").strip().upper()`. */
  function InvoiceOf(e: Row): string {
    match Get(e, "Invoice ID")
    case Text(s) => Upper(Strip(s))
    case _ => ""
  }

  /** `df["Invoice ID"].astype(str).str.upper()` at one record: no stripping here. */
  function ColumnId(row: Row): string {
    Upper(CellText(Get(row, "Invoice ID")))
  }

  /** `(df["Invoice ID"].astype(str).str.upper() == inv).sum()`. */
  function IdCount(rows: seq<Row>, inv: string): (n: nat)
    ensures n <= |rows|
  {
    if rows == [] then 0
    else IdCount(rows[..|rows| - 1], inv) + (if ColumnId(rows[|rows| - 1]) == inv then 1 else 0)
  }

  /** `dup_erp`, resp. `dup_bank`: a non-empty id that the ledger's Invoice ID column holds more than once. */
  predicate RepeatedIn(rows: seq<Row>, inv: string) {
    inv != "" && "Invoice ID" in Columns(rows) && IdCount(rows, inv) > 1
  }

  /** `dup_erp or dup_bank`. */
  predicate IsDuplicate(erp: seq<Row>, bank: seq<Row>, inv: string) {
    RepeatedIn(erp, inv) || RepeatedIn(bank, inv)
  }

  /** What the source demands of a pair: both positions exist, amounts are not text, the id is not a number. */
  predicate PairOk(erp: seq<Row>, bank: seq<Row>, m: Assignment) {
    m.erpIndex < |erp| && m.bankIndex < |bank|
    && !Get(erp[m.erpIndex], "Amount").Text? && !Get(bank[m.bankIndex], "Amount").Text?
    && IdIsText(Get(erp[m.erpIndex], "Invoice ID"))
  }

  /** Lines 29-49 for one pair. */
  function PairResult(erp: seq<Row>, bank: seq<Row>, m: Assignment): (r: Reconciliation)
    requires m.erpIndex < |erp| && m.bankIndex < |bank|
  {
    var e, b := erp[m.erpIndex], bank[m.bankIndex];
    var diff := AmountDiff(e, b);
    if IsDuplicate(erp, bank, InvoiceOf(e)) then
      Reconciliation(Some(m.erpIndex), Some(m.bankIndex), Duplicate, diff, AmountRationale(diff) + [DuplicateNote])
    else
      Reconciliation(Some(m.erpIndex), Some(m.bankIndex), AmountStatus(diff), diff, AmountRationale(diff))
  }

  // ---------------------------------------------------------------- the whole list

  function Key(m: Assignment): (nat, nat) {
    (m.erpIndex, m.bankIndex)
  }

  /** The `seen_pairs` of a prefix of `matches`. */
  function KeySet(ms: seq<Assignment>): set<(nat, nat)> {
    if ms == [] then {} else KeySet(ms[..|ms| - 1]) + {Key(ms[|ms| - 1])}
  }

  /** `matches` with every repeated (erp_index, bank_index) pair dropped after its first occurrence. */
  function Distinct(ms: seq<Assignment>): seq<Assignment> {
    if ms == [] then []
    else Distinct(ms[..|ms| - 1]) + (if Key(ms[|ms| - 1]) in KeySet(ms[..|ms| - 1]) then [] else [ms[|ms| - 1]])
  }

  predicate AllPairsOk(erp: seq<Row>, bank: seq<Row>, ms: seq<Assignment>) {
    forall k :: 0 <= k < |ms| ==> PairOk(erp, bank, ms[k])
  }

  function PairResults(erp: seq<Row>, bank: seq<Row>, ms: seq<Assignment>): (rs: seq<Reconciliation>)
    requires AllPairsOk(erp, bank, ms)
    ensures |rs| == |ms|
  {
    if ms == [] then [] else PairResults(erp, bank, ms[..|ms| - 1]) + [PairResult(erp, bank, ms[|ms| - 1])]
  }

  function MissingBankRecords(xs: seq<nat>): (rs: seq<Reconciliation>)
    ensures |rs| == |xs|
  {
    if xs == [] then []
    else MissingBankRecords(xs[..|xs| - 1]) + [Reconciliation(Some(xs[|xs| - 1]), None, MissingInBank, None, [NoBankNote])]
  }

  function MissingErpRecords(xs: seq<nat>): (rs: seq<Reconciliation>)
    ensures |rs| == |xs|
  {
    if xs == [] then []
    else MissingErpRecords(xs[..|xs| - 1]) + [Reconciliation(None, Some(xs[|xs| - 1]), MissingInErp, None, [NoErpNote])]
  }

  /** What `classify_discrepancies` returns. */
  function ClassifySpec(erp: seq<Row>, bank: seq<Row>, ms: seq<Assignment>, erpUnmatched: seq<nat>, bankUnmatched: seq<nat>)
    : seq<Reconciliation>
    requires AllPairsOk(erp, bank, ms)
  {
    DistinctKeepsPairs(ms);
    PairResults(erp, bank, Distinct(ms))
    + MissingBankRecords(Ascending(erpUnmatched))
    + MissingErpRecords(Ascending(bankUnmatched))
  }

  // ---------------------------------------------------------------- the procedure

  /** Lines 34-49: the status, difference and rationale of one pair, built step by step. */
  method ClassifyPair(erp: seq<Row>, bank: seq<Row>, m: Assignment) returns (r: Reconciliation)
    requires PairOk(erp, bank, m)
    ensures r == PairResult(erp, bank, m)
  {
    var e, b := erp[m.erpIndex], bank[m.bankIndex];
    var amtE, amtB := Get(e, "Amount"), Get(b, "Amount");
    var diff: Option<nat> := None;
    var status := Matched;
    var rationale: seq<string> := [];
    if !amtE.Missing? && !amtB.Missing? {
      var d := Abs(amtE.cents - amtB.cents);
      diff := Some(d);
      if d == 0 {
        status := Matched;
        rationale := rationale + [ExactNote];
      } else if d <= 5 {
        status := RoundingDifference;
        rationale := rationale + [RoundingNote(d)];
      } else {
        status := AmountMismatch;
        rationale := rationale + [MismatchNote(d)];
      }
    }
    assert diff == AmountDiff(e, b) && status == AmountStatus(diff) && rationale == AmountRationale(diff);
    var inv := InvoiceOf(e);
    var dupErp := RepeatedIn(erp, inv);
    var dupBank := RepeatedIn(bank, inv);
    if dupErp || dupBank {
      status := Duplicate;
      rationale := rationale + [DuplicateNote];
    }
    r := Reconciliation(Some(m.erpIndex), Some(m.bankIndex), status, diff, rationale);
  }

  /** One turn of the loop at lines 28-49: skip a seen pair, otherwise classify and record it. */
  method PairStep(erp: seq<Row>, bank: seq<Row>, ms: seq<Assignment>, i: nat,
                  seen: set<(nat, nat)>, results: seq<Reconciliation>)
    returns (seen': set<(nat, nat)>, results': seq<Reconciliation>)
    requires AllPairsOk(erp, bank, ms) && i < |ms|
    requires seen == KeySet(ms[..i])
    requires AllPairsOk(erp, bank, Distinct(ms[..i])) && results == PairResults(erp, bank, Distinct(ms[..i]))
    ensures seen' == KeySet(ms[..i + 1])
    ensures AllPairsOk(erp, bank, Distinct(ms[..i + 1])) && results' == PairResults(erp, bank, Distinct(ms[..i + 1]))
  {
    var m := ms[i];
    DistinctStep(ms, i);
    seen', results' := seen, results;
    ghost var d := Distinct(ms[..i]);
    if Key(m) !in seen {
      seen' := seen + {Key(m)};
      assert PairOk(erp, bank, m);
      var r := ClassifyPair(erp, bank, m);
      PairResultsAppend(erp, bank, d, m);
      results' := results + [r];
      assert Distinct(ms[..i + 1]) == d + [m];
    } else {
      assert Distinct(ms[..i + 1]) == d;
    }
  }

  /** Lines 27-49: the pairs, each distinct one classified once, in match order. */
  method ClassifyPairs(erp: seq<Row>, bank: seq<Row>, ms: seq<Assignment>) returns (results: seq<Reconciliation>)
    requires AllPairsOk(erp, bank, ms)
    ensures AllPairsOk(erp, bank, Distinct(ms)) && results == PairResults(erp, bank, Distinct(ms))
  {
    results := [];
    var seen: set<(nat, nat)> := {};
    var i := 0;
    while i < |ms|
      invariant i <= |ms|
      invariant seen == KeySet(ms[..i])
      invariant AllPairsOk(erp, bank, Distinct(ms[..i])) && results == PairResults(erp, bank, Distinct(ms[..i]))
    {
      seen, results := PairStep(erp, bank, ms, i, seen, results);
      i := i + 1;
    }
    assert ms[..|ms|] == ms;
  }

  /** Lines 50-51: a Missing in Bank record per index, in the order given. */
  method ReportMissingBank(results: seq<Reconciliation>, xs: seq<nat>) returns (results': seq<Reconciliation>)
    ensures results' == results + MissingBankRecords(xs)
  {
    results' := results;
    var k := 0;
    while k < |xs|
      invariant k <= |xs|
      invariant results' == results + MissingBankRecords(xs[..k])
    {
      assert xs[..k + 1][..k] == xs[..k];
      results' := results' + [Reconciliation(Some(xs[k]), None, MissingInBank, None, [NoBankNote])];
      k := k + 1;
    }
    assert xs[..|xs|] == xs;
  }

  /** Lines 52-53: a Missing in ERP record per index, in the order given. */
  method ReportMissingErp(results: seq<Reconciliation>, xs: seq<nat>) returns (results': seq<Reconciliation>)
    ensures results' == results + MissingErpRecords(xs)
  {
    results' := results;
    var k := 0;
    while k < |xs|
      invariant k <= |xs|
      invariant results' == results + MissingErpRecords(xs[..k])
    {
      assert xs[..k + 1][..k] == xs[..k];
      results' := results' + [Reconciliation(None, Some(xs[k]), MissingInErp, None, [NoErpNote])];
      k := k + 1;
    }
    assert xs[..|xs|] == xs;
  }

  /** `classify_discrepancies`; a Python set of indices is iterated in ascending order. */
  method Classify(erp: seq<Row>, bank: seq<Row>, ms: seq<Assignment>, erpUnmatched: seq<nat>, bankUnmatched: seq<nat>)
    returns (results: seq<Reconciliation>)
    requires AllPairsOk(erp, bank, ms)
    ensures results == ClassifySpec(erp, bank, ms, erpUnmatched, bankUnmatched)
  {
    results := ClassifyPairs(erp, bank, ms);
    results := ReportMissingBank(results, Ascending(erpUnmatched));
    results := ReportMissingErp(results, Ascending(bankUnmatched));
  }

  // ---------------------------------------------------------------- properties

  /** Every status has its own status. */
  lemma LabelsDistinct(s: Status, t: Status)
    ensures StatusLabel(s) == StatusLabel(t) ==> s == t
  {
  }

  lemma {:induction false} KeySetSpec(ms: seq<Assignment>)
    ensures forall x :: x in KeySet(ms) <==> exists k :: 0 <= k < |ms| && Key(ms[k]) == x
  {
    if ms != [] {
      KeySetSpec(ms[..|ms| - 1]);
      var init := ms[..|ms| - 1];
      assert forall k :: 0 <= k < |init| ==> init[k] == ms[k];
    }
  }

  /** Deduplicating keeps only pairs of the input, and so keeps the demands on them. */
  lemma {:induction false} DistinctKeepsPairs(ms: seq<Assignment>)
    ensures forall k :: 0 <= k < |Distinct(ms)| ==> Distinct(ms)[k] in ms
  {
    if ms != [] {
      var init := ms[..|ms| - 1];
      DistinctKeepsPairs(init);
      forall k | 0 <= k < |Distinct(ms)| ensures Distinct(ms)[k] in ms {
        if k < |Distinct(init)| {
          assert Distinct(ms)[k] == Distinct(init)[k];
          assert Distinct(init)[k] in init;
        }
      }
    }
  }

  /**
   * The pairs `Distinct` keeps: each key of the input exactly once, at the
   * position of its first occurrence, in input order.
   */
  lemma {:induction false} DistinctSpec(ms: seq<Assignment>)
    ensures KeySet(Distinct(ms)) == KeySet(ms)
    ensures forall a, b :: 0 <= a < b < |Distinct(ms)| ==> Key(Distinct(ms)[a]) != Key(Distinct(ms)[b])
  {
    if ms != [] {
      var init := ms[..|ms| - 1];
      var m := ms[|ms| - 1];
      DistinctSpec(init);
      var d := Distinct(init);
      assert KeySet(ms) == KeySet(init) + {Key(m)};
      if Key(m) !in KeySet(init) {
        assert Distinct(ms) == d + [m];
        assert (d + [m])[..|d|] == d;
        KeySetSpec(d);
        forall a | 0 <= a < |d| ensures Key(d[a]) != Key(m) {
          assert Key(d[a]) in KeySet(d);
        }
      } else {
        assert Distinct(ms) == d;
      }
    }
  }

  /** Without repeated pairs nothing is dropped. */
  lemma {:induction false} DistinctOfDistinct(ms: seq<Assignment>)
    requires forall a, b :: 0 <= a < b < |ms| ==> Key(ms[a]) != Key(ms[b])
    ensures Distinct(ms) == ms
  {
    if ms != [] {
      var init := ms[..|ms| - 1];
      DistinctOfDistinct(init);
      KeySetSpec(init);
      assert Key(ms[|ms| - 1]) !in KeySet(init);
      assert init + [ms[|ms| - 1]] == ms;
    }
  }

  /** `Distinct` and `KeySet` of a prefix one longer. */
  lemma DistinctStep(ms: seq<Assignment>, i: nat)
    requires i < |ms|
    ensures KeySet(ms[..i + 1]) == KeySet(ms[..i]) + {Key(ms[i])}
    ensures Distinct(ms[..i + 1]) ==
      Distinct(ms[..i]) + (if Key(ms[i]) in KeySet(ms[..i]) then [] else [ms[i]])
  {
    assert ms[..i + 1][..i] == ms[..i];
  }

  lemma PairResultsAppend(erp: seq<Row>, bank: seq<Row>, ms: seq<Assignment>, m: Assignment)
    requires AllPairsOk(erp, bank, ms) && PairOk(erp, bank, m)
    ensures AllPairsOk(erp, bank, ms + [m])
    ensures PairResults(erp, bank, ms + [m]) == PairResults(erp, bank, ms) + [PairResult(erp, bank, m)]
  {
    assert (ms + [m])[..|ms|] == ms;
  }

  lemma {:induction false} PairResultsAt(erp: seq<Row>, bank: seq<Row>, ms: seq<Assignment>, k: nat)
    requires AllPairsOk(erp, bank, ms) && k < |ms|
    ensures PairResults(erp, bank, ms)[k] == PairResult(erp, bank, ms[k])
  {
    if k < |ms| - 1 {
      PairResultsAt(erp, bank, ms[..|ms| - 1], k);
    }
  }

  lemma {:induction false} MissingBankAt(xs: seq<nat>, k: nat)
    requires k < |xs|
    ensures MissingBankRecords(xs)[k] == Reconciliation(Some(xs[k]), None, MissingInBank, None, [NoBankNote])
  {
    if k < |xs| - 1 {
      MissingBankAt(xs[..|xs| - 1], k);
    }
  }

  lemma {:induction false} MissingErpAt(xs: seq<nat>, k: nat)
    requires k < |xs|
    ensures MissingErpRecords(xs)[k] == Reconciliation(None, Some(xs[k]), MissingInErp, None, [NoErpNote])
  {
    if k < |xs| - 1 {
      MissingErpAt(xs[..|xs| - 1], k);
    }
  }

  /**
   * One pair's record: the difference is |a - b| exactly when both amounts are
   * present; a repeated invoice id makes it Duplicate whatever the amounts say,
   * with the duplicate note after the amount note; otherwise the amounts decide.
   */
  lemma PairResultSpec(erp: seq<Row>, bank: seq<Row>, m: Assignment)
    requires PairOk(erp, bank, m)
    ensures var r := PairResult(erp, bank, m);
      && r.erpIndex == Some(m.erpIndex) && r.bankIndex == Some(m.bankIndex)
      && r.amountDiff == AmountDiff(erp[m.erpIndex], bank[m.bankIndex])
      && (r.status == Duplicate <==> IsDuplicate(erp, bank, InvoiceOf(erp[m.erpIndex])))
      && (r.status == Duplicate ==> r.rationale[|r.rationale| - 1] == DuplicateNote)
      && (r.status != Duplicate ==> r.status == AmountStatus(r.amountDiff))
      && |r.rationale| == (if r.amountDiff.Some? then 1 else 0) + (if r.status == Duplicate then 1 else 0)
  {
  }

  /** A missing amount on either side: no difference, no amount note, Matched unless Duplicate. */
  lemma MissingAmountMatched(erp: seq<Row>, bank: seq<Row>, m: Assignment)
    requires PairOk(erp, bank, m)
    requires Get(erp[m.erpIndex], "Amount").Missing? || Get(bank[m.bankIndex], "Amount").Missing?
    ensures var r := PairResult(erp, bank, m);
      r.amountDiff.None? && (r.status == Matched || r.status == Duplicate)
      && (r.status == Matched <==> r.rationale == [])
  {
  }

  lemma {:induction false} IdCountAtLeast(rows: seq<Row>, inv: string, i: nat, j: nat)
    requires i < j < |rows| && ColumnId(rows[i]) == inv && ColumnId(rows[j]) == inv
    ensures IdCount(rows, inv) >= 2
  {
    var init := rows[..|rows| - 1];
    if j < |rows| - 1 {
      IdCountAtLeast(init, inv, i, j);
    } else {
      IdCountPositive(init, inv, i);
    }
  }

  lemma {:induction false} IdCountPositive(rows: seq<Row>, inv: string, i: nat)
    requires i < |rows| && ColumnId(rows[i]) == inv
    ensures IdCount(rows, inv) >= 1
  {
    if i < |rows| - 1 {
      IdCountPositive(rows[..|rows| - 1], inv, i);
    }
  }

  /**
   * Two ERP records with the same invoice id make every pair of either one
   * Duplicate, even when the amounts agree exactly.
   */
  lemma RepeatedErpIdIsDuplicate(erp: seq<Row>, bank: seq<Row>, m: Assignment, other: nat)
    requires PairOk(erp, bank, m) && other < |erp| && other != m.erpIndex
    requires Get(erp[m.erpIndex], "Invoice ID") == Text(InvoiceOf(erp[m.erpIndex]))
    requires InvoiceOf(erp[m.erpIndex]) != ""
    requires ColumnId(erp[other]) == InvoiceOf(erp[m.erpIndex])
    ensures PairResult(erp, bank, m).status == Duplicate
  {
    var inv := InvoiceOf(erp[m.erpIndex]);
    UpperIdempotent(Strip(Get(erp[m.erpIndex], "Invoice ID").s));
    assert ColumnId(erp[m.erpIndex]) == Upper(inv);
    assert Upper(inv) == inv;
    assert "Invoice ID" in erp[m.erpIndex];
    if m.erpIndex < other {
      IdCountAtLeast(erp, inv, m.erpIndex, other);
    } else {
      IdCountAtLeast(erp, inv, other, m.erpIndex);
    }
  }

  /**
   * The layout of the result: one record per distinct pair in match order,
   * then one Missing in Bank record per distinct unmatched ERP index, then one
   * Missing in ERP record per distinct unmatched bank index, both ascending.
   */
  lemma ClassifyLayout(erp: seq<Row>, bank: seq<Row>, ms: seq<Assignment>, eu: seq<nat>, bu: seq<nat>, k: nat)
    requires AllPairsOk(erp, bank, ms)
    requires k < |ClassifySpec(erp, bank, ms, eu, bu)|
    ensures var rs, d, a, b := ClassifySpec(erp, bank, ms, eu, bu), Distinct(ms), Ascending(eu), Ascending(bu);
      && |rs| == |d| + |a| + |b|
      && (k < |d| ==>
            d[k] in ms && d[k].erpIndex < |erp| && d[k].bankIndex < |bank| && rs[k] == PairResult(erp, bank, d[k]))
      && (|d| <= k < |d| + |a| ==>
            rs[k] == Reconciliation(Some(a[k - |d|]), None, MissingInBank, None, [NoBankNote]))
      && (|d| + |a| <= k ==>
            rs[k] == Reconciliation(None, Some(b[k - |d| - |a|]), MissingInErp, None, [NoErpNote]))
  {
    var rs, d, a, b := ClassifySpec(erp, bank, ms, eu, bu), Distinct(ms), Ascending(eu), Ascending(bu);
    DistinctKeepsPairs(ms);
    var p, x, y := PairResults(erp, bank, d), MissingBankRecords(a), MissingErpRecords(b);
    assert rs == p + x + y;
    assert |p| == |d| && |x| == |a| && |y| == |b|;
    if k < |d| {
      assert rs[k] == p[k];
      PairResultsAt(erp, bank, d, k);
    } else if k < |d| + |a| {
      assert rs[k] == x[k - |d|];
      MissingBankAt(a, k - |d|);
    } else {
      assert rs[k] == y[k - |d| - |a|];
      MissingErpAt(b, k - |d| - |a|);
    }
  }

  /** The result has one record per distinct pair and per distinct unmatched index on either side. */
  lemma ClassifyLength(erp: seq<Row>, bank: seq<Row>, ms: seq<Assignment>, eu: seq<nat>, bu: seq<nat>)
    requires AllPairsOk(erp, bank, ms)
    ensures |ClassifySpec(erp, bank, ms, eu, bu)| == |Distinct(ms)| + |Elements(eu)| + |Elements(bu)|
    ensures |Distinct(ms)| <= |ms|
  {
    AscendingSpec(eu);
    AscendingSpec(bu);
    DistinctLength(ms);
  }

  lemma {:induction false} DistinctLength(ms: seq<Assignment>)
    ensures |Distinct(ms)| <= |ms|
  {
    if ms != [] {
      DistinctLength(ms[..|ms| - 1]);
    }
  }

  /** In `p` followed by the two kinds of missing records, each kind lists its indices in their order. */
  lemma MissingSegments(p: seq<Reconciliation>, xs: seq<nat>, ys: seq<nat>, k: nat)
    requires |p| <= k < |p| + |xs| + |ys|
    ensures var rs := p + MissingBankRecords(xs) + MissingErpRecords(ys);
      && (k < |p| + |xs| ==> rs[k].status == MissingInBank && rs[k].erpIndex == Some(xs[k - |p|]))
      && (|p| + |xs| <= k ==> rs[k].status == MissingInErp && rs[k].bankIndex == Some(ys[k - |p| - |xs|]))
  {
    if k < |p| + |xs| {
      MissingBankAt(xs, k - |p|);
    } else {
      MissingErpAt(ys, k - |p| - |xs|);
    }
  }

  /** The records after the pairs: index `i` is reported Missing in Bank iff it is listed, and at most once. */
  lemma MissingBankOnce(p: seq<Reconciliation>, xs: seq<nat>, ys: seq<nat>, i: nat)
    requires StrictlyIncreasing(xs)
    ensures var rs := p + MissingBankRecords(xs) + MissingErpRecords(ys);
      && (i in xs <==> exists k :: |p| <= k < |rs| && rs[k].status == MissingInBank && rs[k].erpIndex == Some(i))
      && (forall k, k' :: |p| <= k < k' < |rs| && rs[k].status == MissingInBank && rs[k'].status == MissingInBank
            ==> rs[k].erpIndex != rs[k'].erpIndex)
  {
    var rs := p + MissingBankRecords(xs) + MissingErpRecords(ys);
    forall k, k' | |p| <= k < k' < |rs| && rs[k].status == MissingInBank && rs[k'].status == MissingInBank
      ensures rs[k].erpIndex != rs[k'].erpIndex
    {
      MissingSegments(p, xs, ys, k);
      MissingSegments(p, xs, ys, k');
      assert xs[k - (|p|)] < xs[k' - (|p|)];
    }
    if i in xs {
      var t :| 0 <= t < |xs| && xs[t] == i;
      MissingSegments(p, xs, ys, |p| + t);
    }
    if exists k :: |p| <= k < |rs| && rs[k].status == MissingInBank && rs[k].erpIndex == Some(i) {
      var k :| |p| <= k < |rs| && rs[k].status == MissingInBank && rs[k].erpIndex == Some(i);
      MissingSegments(p, xs, ys, k);
    }
  }

  /** The records after the pairs: index `j` is reported Missing in ERP iff it is listed, and at most once. */
  lemma MissingErpOnce(p: seq<Reconciliation>, xs: seq<nat>, ys: seq<nat>, j: nat)
    requires StrictlyIncreasing(ys)
    ensures var rs := p + MissingBankRecords(xs) + MissingErpRecords(ys);
      && (j in ys <==> exists k :: |p| <= k < |rs| && rs[k].status == MissingInErp && rs[k].bankIndex == Some(j))
      && (forall k, k' :: |p| <= k < k' < |rs| && rs[k].status == MissingInErp && rs[k'].status == MissingInErp
            ==> rs[k].bankIndex != rs[k'].bankIndex)
  {
    var rs := p + MissingBankRecords(xs) + MissingErpRecords(ys);
    forall k, k' | |p| <= k < k' < |rs| && rs[k].status == MissingInErp && rs[k'].status == MissingInErp
      ensures rs[k].bankIndex != rs[k'].bankIndex
    {
      MissingSegments(p, xs, ys, k);
      MissingSegments(p, xs, ys, k');
      assert ys[k - (|p| + |xs|)] < ys[k' - (|p| + |xs|)];
    }
    if j in ys {
      var t :| 0 <= t < |ys| && ys[t] == j;
      MissingSegments(p, xs, ys, |p| + |xs| + t);
    }
    if exists k :: |p| <= k < |rs| && rs[k].status == MissingInErp && rs[k].bankIndex == Some(j) {
      var k :| |p| <= k < |rs| && rs[k].status == MissingInErp && rs[k].bankIndex == Some(j);
      MissingSegments(p, xs, ys, k);
    }
  }

  /**
   * Every unmatched ERP index, and no other, is reported Missing in Bank, once;
   * every unmatched bank index, and no other, is reported Missing in ERP, once.
   */
  lemma UnmatchedReportedOnce(erp: seq<Row>, bank: seq<Row>, ms: seq<Assignment>, eu: seq<nat>, bu: seq<nat>, i: nat)
    requires AllPairsOk(erp, bank, ms)
    ensures var rs, n := ClassifySpec(erp, bank, ms, eu, bu), |Distinct(ms)|;
      && (i in eu <==> exists k :: n <= k < |rs| && rs[k].status == MissingInBank && rs[k].erpIndex == Some(i))
      && (i in bu <==> exists k :: n <= k < |rs| && rs[k].status == MissingInErp && rs[k].bankIndex == Some(i))
      && (forall k, k' :: n <= k < k' < |rs| && rs[k].status == MissingInBank && rs[k'].status == MissingInBank
            ==> rs[k].erpIndex != rs[k'].erpIndex)
      && (forall k, k' :: n <= k < k' < |rs| && rs[k].status == MissingInErp && rs[k'].status == MissingInErp
            ==> rs[k].bankIndex != rs[k'].bankIndex)
  {
    DistinctKeepsPairs(ms);
    var p := PairResults(erp, bank, Distinct(ms));
    var a, b := Ascending(eu), Ascending(bu);
    assert ClassifySpec(erp, bank, ms, eu, bu) == p + MissingBankRecords(a) + MissingErpRecords(b);
    AscendingSpec(eu);
    AscendingSpec(bu);
    MissingBankOnce(p, a, b, i);
    MissingErpOnce(p, a, b, i);
  }
}
