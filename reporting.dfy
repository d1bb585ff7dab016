/**
 * The part of `export_outputs` in src/tools/reporting_tools.py that is not
 * file output: each reconciliation record becomes one flat report row with
 * its rationale joined by " | ", and the summary counts the rows per status.
 */
module Reporting {
  import opened Text
  import opened Values
  import opened Discrepancy

  /** One row of `reconciled_df`: ERP Index, Bank Index, Status, Amount Diff, Rationale. */
  datatype ReportRow = ReportRow(
    erpIndex: Option<nat>, bankIndex: Option<nat>, status: string,
    amountDiff: Option<nat>, rationale: string)

  const Separator := " | "

  /** `sep.join(xs)`. */
  function Join(xs: seq<string>, sep: string): string {
    if xs == [] then ""
    else if |xs| == 1 then xs[0]
    else Join(xs[..|xs| - 1], sep) + sep + xs[|xs| - 1]
  }

  /** The row for one record: line 31. */
  function RowOf(r: Reconciliation): ReportRow {
    ReportRow(r.erpIndex, r.bankIndex, StatusLabel(r.status), r.amountDiff, Join(r.rationale, Separator))
  }

  /** Lines 29-31: one row per record, in order. */
  method Flatten(results: seq<Reconciliation>) returns (rows: seq<ReportRow>)
    ensures |rows| == |results|
    ensures forall k :: 0 <= k < |rows| ==> rows[k] == RowOf(results[k])
  {
    rows := [];
    var k := 0;
    while k < |results|
      invariant k <= |results| && |rows| == k
      invariant forall t :: 0 <= t < k ==> rows[t] == RowOf(results[t])
    {
      rows := rows + [RowOf(results[k])];
      k := k + 1;
    }
  }

  // ---------------------------------------------------------------- joining

  /** Total length of the entries. */
  function TotalLength(xs: seq<string>): nat {
    if xs == [] then 0 else TotalLength(xs[..|xs| - 1]) + |xs[|xs| - 1]|
  }

  /** Where entry `k` starts in the joined text. */
  function Offset(xs: seq<string>, sep: string, k: nat): nat
    requires k <= |xs|
  {
    if k == 0 then 0 else Offset(xs, sep, k - 1) + |xs[k - 1]| + |sep|
  }

  lemma {:induction false} OffsetOfPrefix(xs: seq<string>, sep: string, n: nat, k: nat)
    requires k <= n <= |xs|
    ensures Offset(xs[..n], sep, k) == Offset(xs, sep, k)
  {
    if k > 0 {
      OffsetOfPrefix(xs, sep, n, k - 1);
    }
  }

  /** The joined text holds the entries and one separator between each two. */
  lemma {:induction false} JoinLength(xs: seq<string>, sep: string)
    requires xs != []
    ensures |Join(xs, sep)| == TotalLength(xs) + |sep| * (|xs| - 1)
    ensures |Join(xs, sep)| + |sep| == Offset(xs, sep, |xs|)
  {
    if |xs| == 1 {
      assert xs[..0] == [];
    } else {
      var init := xs[..|xs| - 1];
      JoinLength(init, sep);
      OffsetOfPrefix(xs, sep, |xs| - 1, |xs| - 1);
    }
  }

  /** Entry `k` sits in the joined text at its offset: joining loses nothing and keeps the order. */
  lemma {:induction false} JoinAt(xs: seq<string>, sep: string, k: nat)
    requires k < |xs|
    ensures Offset(xs, sep, k) + |xs[k]| <= |Join(xs, sep)|
    ensures Join(xs, sep)[Offset(xs, sep, k)..Offset(xs, sep, k) + |xs[k]|] == xs[k]
    decreases |xs|, 1
  {
    if |xs| == 1 {
    } else if k < |xs| - 1 {
      JoinAtInit(xs, sep, k);
    } else {
      JoinAtLast(xs, sep);
    }
  }

  /** The step of `JoinAt` for an entry before the last. */
  lemma {:induction false} JoinAtInit(xs: seq<string>, sep: string, k: nat)
    requires k < |xs| - 1
    ensures Offset(xs, sep, k) + |xs[k]| <= |Join(xs, sep)|
    ensures Join(xs, sep)[Offset(xs, sep, k)..Offset(xs, sep, k) + |xs[k]|] == xs[k]
    decreases |xs|, 0
  {
    var init := xs[..|xs| - 1];
    var ji := Join(init, sep);
    var o := Offset(xs, sep, k);
    assert Join(xs, sep) == ji + sep + xs[|xs| - 1];
    JoinAt(init, sep, k);
    OffsetOfPrefix(xs, sep, |xs| - 1, k);
    assert init[k] == xs[k];
  }

  /** The step of `JoinAt` for the last entry. */
  lemma {:induction false} JoinAtLast(xs: seq<string>, sep: string)
    requires |xs| > 1
    ensures Offset(xs, sep, |xs| - 1) + |xs[|xs| - 1]| == |Join(xs, sep)|
    ensures Join(xs, sep)[Offset(xs, sep, |xs| - 1)..] == xs[|xs| - 1]
  {
    var init := xs[..|xs| - 1];
    var ji := Join(init, sep);
    assert Join(xs, sep) == ji + sep + xs[|xs| - 1];
    JoinLength(init, sep);
    OffsetOfPrefix(xs, sep, |xs| - 1, |xs| - 1);
  }

  /** An empty rationale gives an empty cell; a single entry is the cell. */
  lemma JoinShort(x: string)
    ensures Join([], Separator) == ""
    ensures Join([x], Separator) == x
  {
  }

  /** Two entries: the amount note, the separator, then the duplicate note. */
  lemma JoinTwo(x: string, y: string)
    ensures Join([x, y], Separator) == x + " | " + y
  {
    assert [x, y][..1] == [x];
  }

  // ---------------------------------------------------------------- the status tally

  /** How many rows carry `name`. */
  function Tally(rows: seq<ReportRow>, name: string): (n: nat)
    ensures n <= |rows|
  {
    if rows == [] then 0 else Tally(rows[..|rows| - 1], name) + (if rows[|rows| - 1].status == name then 1 else 0)
  }

  /** The statuses that occur. */
  function Statuses(rows: seq<ReportRow>): set<string> {
    set k | 0 <= k < |rows| :: rows[k].status
  }

  /** `reconciled_df["Status"].value_counts().to_dict()`. */
  function ValueCounts(rows: seq<ReportRow>): map<string, nat> {
    map s | s in Statuses(rows) :: Tally(rows, s)
  }

  /** The six labels a report can show. */
  const Labels := ["Matched", "Rounding difference", "Amount mismatch", "Duplicate", "Missing in Bank", "Missing in ERP"]

  /** The sum of the tallies of the given labels. */
  function SumTallies(rows: seq<ReportRow>, labels: seq<string>): nat {
    if labels == [] then 0 else SumTallies(rows, labels[..|labels| - 1]) + Tally(rows, labels[|labels| - 1])
  }

  /** How many times `s` is listed. */
  function Occurrences(labels: seq<string>, s: string): nat {
    if labels == [] then 0 else Occurrences(labels[..|labels| - 1], s) + (if labels[|labels| - 1] == s then 1 else 0)
  }

  /** Every status name is listed exactly once. */
  lemma LabelListed(st: Status)
    ensures Occurrences(Labels, StatusLabel(st)) == 1
  {
    var s := StatusLabel(st);
    var l6 := Labels;
    var l5, l4, l3, l2, l1 := l6[..5], l6[..4], l6[..3], l6[..2], l6[..1];
    assert l5[..4] == l4 && l4[..3] == l3 && l3[..2] == l2 && l2[..1] == l1 && l1[..0] == [];
    assert Occurrences(l1, s) == (if s == "Matched" then 1 else 0);
    assert Occurrences(l2, s) == Occurrences(l1, s) + (if s == "Rounding difference" then 1 else 0);
    assert Occurrences(l3, s) == Occurrences(l2, s) + (if s == "Amount mismatch" then 1 else 0);
    assert Occurrences(l4, s) == Occurrences(l3, s) + (if s == "Duplicate" then 1 else 0);
    assert Occurrences(l5, s) == Occurrences(l4, s) + (if s == "Missing in Bank" then 1 else 0);
    assert Occurrences(l6, s) == Occurrences(l5, s) + (if s == "Missing in ERP" then 1 else 0);
  }

  lemma {:induction false} SumTalliesOfNone(labels: seq<string>)
    ensures SumTallies([], labels) == 0
  {
    if labels != [] {
      SumTalliesOfNone(labels[..|labels| - 1]);
    }
  }

  lemma {:induction false} SumTalliesStep(rows: seq<ReportRow>, r: ReportRow, labels: seq<string>)
    ensures SumTallies(rows + [r], labels) == SumTallies(rows, labels) + Occurrences(labels, r.status)
  {
    assert (rows + [r])[..|rows|] == rows;
    if labels != [] {
      SumTalliesStep(rows, r, labels[..|labels| - 1]);
    }
  }

  /** A tally counts rows, so a name no row carries counts none and one that occurs counts at least one. */
  lemma {:induction false} TallyPositive(rows: seq<ReportRow>, name: string)
    ensures Tally(rows, name) > 0 <==> name in Statuses(rows)
  {
    if rows != [] {
      var init := rows[..|rows| - 1];
      TallyPositive(init, name);
      assert Statuses(rows) == Statuses(init) + {rows[|rows| - 1].status};
    }
  }

  /**
   * The counts of the six labels add up to the "Total Records" line when
   * every row carries exactly one of them.
   */
  lemma {:induction false} TallyTotal(rows: seq<ReportRow>)
    requires forall k :: 0 <= k < |rows| ==> Occurrences(Labels, rows[k].status) == 1
    ensures SumTallies(rows, Labels) == |rows|
  {
    if rows == [] {
      SumTalliesOfNone(Labels);
    } else {
      var init := rows[..|rows| - 1];
      var r := rows[|rows| - 1];
      TallyTotal(init);
      SumTalliesStep(init, r, Labels);
      assert init + [r] == rows;
    }
  }

  /** `value_counts` lists exactly the statuses that occur, each with its positive count. */
  lemma ValueCountsSpec(rows: seq<ReportRow>, name: string)
    ensures name in ValueCounts(rows) <==> Tally(rows, name) > 0
    ensures name in ValueCounts(rows) ==> ValueCounts(rows)[name] == Tally(rows, name)
  {
    TallyPositive(rows, name);
  }

  /** The report of a classification: one row per record, every row with one of the six labels, the counts summing to the total. */
  lemma {:induction false} ReportOfResults(results: seq<Reconciliation>, rows: seq<ReportRow>)
    requires |rows| == |results| && forall k :: 0 <= k < |rows| ==> rows[k] == RowOf(results[k])
    ensures SumTallies(rows, Labels) == |results|
  {
    if rows == [] {
      SumTalliesOfNone(Labels);
    } else {
      var n := |rows| - 1;
      ReportOfResults(results[..n], rows[..n]);
      LabelListed(results[n].status);
      SumTalliesStep(rows[..n], rows[n], Labels);
      assert rows[..n] + [rows[n]] == rows;
    }
  }
}
