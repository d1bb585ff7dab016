/**
 * The three tools run one after the other on a small ledger pair: three
 * ERP invoices and a bank statement paying the first two, the second one
 * three cents over. Normalization derives the bank records' invoice ids
 * from their descriptions, matching pairs each paid invoice with its
 * payment, and classification reports an exact match, a rounding
 * difference and an invoice missing from the bank.
 */
module Pipeline {
  import opened Text
  import opened Values
  import opened Dates
  import opened Amounts
  import opened Normalize
  import opened Matching
  import opened Discrepancy

  // ---------------------------------------------------------------- the ledgers

  /** The invoice numbers of the example. */
  const Ids: seq<string> := ["0001", "0002", "0003"]

  /** What the ERP ledger says each invoice is for, in cents. */
  const ErpAmounts: seq<int> := [10000, 5000, 700]

  /** What the bank received for the first two invoices, in cents. */
  const BankAmounts: seq<int> := [10000, 5003]

  function Invoice(z: string): string {
    "INV" + z
  }

  function Payment(z: string): string {
    "Payment INV" + z
  }

  function ErpRow(id: string, cents: int): Row {
    map["Invoice ID" := Text(id), "Amount" := Num(cents)]
  }

  function BankRow(date: string, desc: string, cents: int): Row {
    map["Date" := Text(date), "Description" := Text(desc), "Amount" := Num(cents)]
  }

  /** A bank record after normalization: the ISO date and the derived invoice id. */
  function NormalBankRow(iso: string, desc: string, id: string, cents: int): Row {
    map["Date" := Text(iso), "Description" := Text(desc), "Amount" := Num(cents), "Invoice ID" := Text(id)]
  }

  function ErpLedger(): seq<Row> {
    seq(3, i requires 0 <= i < 3 => ErpRow(Invoice(Ids[i]), ErpAmounts[i]))
  }

  function Statement(date: string): seq<Row> {
    seq(2, j requires 0 <= j < 2 => BankRow(date, Payment(Ids[j]), BankAmounts[j]))
  }

  function NormalStatement(iso: string): seq<Row> {
    seq(2, j requires 0 <= j < 2 => NormalBankRow(iso, Payment(Ids[j]), Invoice(Ids[j]), BankAmounts[j]))
  }

  lemma IdsShape(i: nat)
    requires i < 3
    ensures |Ids[i]| == 4 && AllDigits(Ids[i])
  {
  }

  /** Different invoice numbers give different ids. */
  lemma InvoicesDistinct(i: nat, j: nat)
    requires i < 3 && j < 3
    ensures Invoice(Ids[i]) == Invoice(Ids[j]) <==> i == j
  {
    if Invoice(Ids[i]) == Invoice(Ids[j]) {
      assert Ids[i] == Invoice(Ids[i])[3..] == Invoice(Ids[j])[3..] == Ids[j];
      assert Ids[i][3] == Ids[j][3];
    }
  }

  lemma ColumnNamesDistinct()
    ensures "Date" != "Description" && "Date" != "Amount" && "Date" != "Invoice ID"
    ensures "Description" != "Amount" && "Description" != "Invoice ID" && "Amount" != "Invoice ID"
  {
  }

  // ---------------------------------------------------------------- normalization

  /** An id of "INV" and four digits is already in its normal form. */
  lemma InvIdNormal(z: string)
    requires |z| == 4 && AllDigits(z)
    ensures Upper(Strip(Invoice(z))) == Invoice(z)
  {
    var id := Invoice(z);
    assert !IsSpace(id[0]) && !IsSpace(id[|id| - 1]);
    StripUnchanged(id);
    InvDigitsUpper(z);
  }

  /** A record of four distinct columns is the display of its four cells. */
  lemma FourCells(r: Row, k1: string, k2: string, k3: string, k4: string, v1: Val, v2: Val, v3: Val, v4: Val)
    requires k1 != k2 && k1 != k3 && k1 != k4 && k2 != k3 && k2 != k4 && k3 != k4
    requires r.Keys == {k1, k2, k3, k4}
    requires r[k1] == v1 && r[k2] == v2 && r[k3] == v3 && r[k4] == v4
    ensures r == map[k1 := v1, k2 := v2, k3 := v3, k4 := v4]
  {
  }

  /** An ERP record with a normal id and a numeric amount is left as it is. */
  lemma ErpRowNormal(row: Row, parse: DateParser)
    requires row.Keys == {"Invoice ID", "Amount"}
    requires row["Invoice ID"].Text? && Upper(Strip(row["Invoice ID"].s)) == row["Invoice ID"].s
    requires row["Amount"].Num?
    ensures NormalizeErpRow(row, parse) == row
  {
    ColumnNamesDistinct();
    ToAmountOfNumber(row["Amount"].cents);
    var r := NormalizeErpRow(row, parse);
    assert r["Invoice ID"] == NormalizeErpCell("Invoice ID", row["Invoice ID"], parse);
    assert r["Amount"] == NormalizeErpCell("Amount", row["Amount"], parse);
    TwoCells(r, row, "Invoice ID", "Amount");
  }

  /** Two records over the same two columns that agree on both are the same record. */
  lemma TwoCells(r: Row, row: Row, k1: string, k2: string)
    requires r.Keys == row.Keys == {k1, k2}
    requires r[k1] == row[k1] && r[k2] == row[k2]
    ensures r == row
  {
  }

  lemma ErpLedgerRowNormal(parse: DateParser, i: nat)
    requires i < 3
    ensures NormalizeErpRow(Fill(ErpLedger()[i], {"Invoice ID", "Amount"}), parse) == ErpLedger()[i]
  {
    FillFull(ErpLedger()[i], {"Invoice ID", "Amount"});
    IdsShape(i);
    InvIdNormal(Ids[i]);
    ErpRowNormal(ErpLedger()[i], parse);
  }

  /** Normalizing the example ERP ledger changes nothing. */
  lemma ErpLedgerNormal(parse: DateParser)
    ensures NormalizeErp(ErpLedger(), parse) == ErpLedger()
  {
    var erp := ErpLedger();
    var cols := {"Invoice ID", "Amount"};
    ColumnsOfUniform(erp, cols);
    var out := NormalizeErp(erp, parse);
    forall i | 0 <= i < 3
      ensures out[i] == erp[i]
    {
      ErpLedgerRowNormal(parse, i);
    }
  }

  /** A digit run reaching the end of the text is the rest of the text. */
  lemma {:induction false} DigitRunToEnd(s: string, q: nat)
    requires q <= |s| && AllDigits(s[q..])
    ensures DigitRun(s, q) == s[q..]
    decreases |s| - q
  {
    if q < |s| {
      assert IsDigit(s[q..][0]);
      assert s[q + 1..] == s[q..][1..];
      DigitRunToEnd(s, q + 1);
      assert s[q..] == [s[q]] + s[q + 1..];
    }
  }

  /** "Payment INV" and four digits gives the id "INV" and those digits. */
  lemma PaymentId(z: string)
    requires |z| == 4 && AllDigits(z)
    ensures ExtractInv(Text(Payment(z))) == Some(Invoice(z))
  {
    var s := Payment(z);
    forall j | j < 8 ensures DigitStart(s, j).None? {
      assert !InvAt(s, j);
    }
    assert InvAt(s, 8);
    assert DigitStart(s, 8) == Some(11);
    SearchSkips(s, 0, 8);
    assert s[11..] == z;
    DigitRunToEnd(s, 11);
  }

  /** A statement record with a date, a description whose id is found, and an amount. */
  lemma BankCells(row: Row, id: string, parse: DateParser)
    requires row.Keys == {"Date", "Description", "Amount"}
    requires ExtractInv(row["Description"]) == Some(id)
    ensures NormalizeBankRow(row, parse) == map[
      "Date" := ToDate(row["Date"], parse), "Description" := row["Description"],
      "Amount" := AmountCell(ToAmount(row["Amount"])), "Invoice ID" := Text(id)]
  {
    ColumnNamesDistinct();
    var r := NormalizeBankRow(row, parse);
    assert r.Keys == {"Date", "Description", "Amount", "Invoice ID"};
    assert r["Date"] == NormalizeBankCell("Date", row, parse);
    assert r["Description"] == NormalizeBankCell("Description", row, parse);
    assert r["Amount"] == NormalizeBankCell("Amount", row, parse);
    assert r["Invoice ID"] == NormalizeBankCell("Invoice ID", row, parse);
    FourCells(r, "Date", "Description", "Amount", "Invoice ID",
      ToDate(row["Date"], parse), row["Description"], AmountCell(ToAmount(row["Amount"])), Text(id));
  }

  /** One statement line: the date parsed, the amount kept, the id derived from the description. */
  lemma BankRowNormal(date: string, z: string, cents: int, parse: DateParser)
    requires date != "" && parse(date).Some?
    requires |z| == 4 && AllDigits(z)
    ensures NormalizeBankRow(BankRow(date, Payment(z), cents), parse)
      == NormalBankRow(IsoText(parse(date).value), Payment(z), Invoice(z), cents)
  {
    var row := BankRow(date, Payment(z), cents);
    ColumnNamesDistinct();
    PaymentId(z);
    BankCells(row, Invoice(z), parse);
    ToAmountOfNumber(cents);
  }

  lemma StatementRowNormal(date: string, parse: DateParser, j: nat)
    requires date != "" && parse(date).Some? && j < 2
    ensures NormalizeBankRow(Fill(Statement(date)[j], {"Date", "Description", "Amount"}), parse)
      == NormalStatement(IsoText(parse(date).value))[j]
  {
    FillFull(Statement(date)[j], {"Date", "Description", "Amount"});
    IdsShape(j);
    BankRowNormal(date, Ids[j], BankAmounts[j], parse);
  }

  /** Normalizing the example statement parses the dates and derives the two invoice ids. */
  lemma StatementNormal(date: string, parse: DateParser)
    requires date != "" && parse(date).Some?
    ensures NormalizeBank(Statement(date), parse) == NormalStatement(IsoText(parse(date).value))
  {
    var st := Statement(date);
    var cols := {"Date", "Description", "Amount"};
    ColumnsOfUniform(st, cols);
    var out := NormalizeBank(st, parse);
    forall j | 0 <= j < 2
      ensures out[j] == NormalStatement(IsoText(parse(date).value))[j]
    {
      StatementRowNormal(date, parse, j);
    }
  }

  // ---------------------------------------------------------------- matching

  /** The columns of the normalized statement. */
  lemma StatementColumns(iso: string)
    ensures Columns(NormalStatement(iso)) == {"Date", "Description", "Amount", "Invoice ID"}
  {
    ColumnsOfUniform(NormalStatement(iso), {"Date", "Description", "Amount", "Invoice ID"});
  }

  /** The query of ERP record `i`: its id and amount, filtered by id and ranked by amount and description. */
  lemma QueryShape(iso: string, ratio: Similarity, i: nat)
    requires i < 3
    ensures var q := QueryOf(ErpLedger()[i], NormalStatement(iso), ratio);
      && q.key == Invoice(Ids[i]) && q.amount == Some(ErpAmounts[i])
      && FiltersById(q) && RanksByAmount(q) && RanksByScore(q) && !RankingRaises(q)
      && "Date" in q.cols
  {
    StatementColumns(iso);
    IdsShape(i);
    InvIdNormal(Ids[i]);
  }

  /** Only the statement line paying invoice `i` is a candidate for it. */
  lemma CandidateIff(iso: string, ratio: Similarity, i: nat, j: nat)
    requires i < 3 && j < 2
    ensures IsCandidate(QueryOf(ErpLedger()[i], NormalStatement(iso), ratio), j) <==> j == i
  {
    QueryShape(iso, ratio, i);
    InvoicesDistinct(i, j);
  }

  /** When `c` is the only candidate, the best one below `n` is `c` if it lies below `n`. */
  lemma {:induction false} OnlyCandidateBest(q: Query, c: nat, n: nat)
    requires n <= |q.bank|
    requires forall j :: 0 <= j < |q.bank| ==> (IsCandidate(q, j) <==> j == c)
    ensures BestBelow(q, n) == if c < n then Some(c) else None
  {
    if n > 0 {
      OnlyCandidateBest(q, c, n - 1);
    }
  }

  /** The best candidate of ERP record `i` is the line paying it, and invoice 3 has none. */
  lemma BestOfRow(iso: string, ratio: Similarity, i: nat)
    requires i < 3
    ensures BestCandidate(QueryOf(ErpLedger()[i], NormalStatement(iso), ratio)) == if i < 2 then Some(i) else None
  {
    var q := QueryOf(ErpLedger()[i], NormalStatement(iso), ratio);
    forall j | 0 <= j < |q.bank| ensures IsCandidate(q, j) <==> j == i {
      CandidateIff(iso, ratio, i, j);
    }
    OnlyCandidateBest(q, i, |q.bank|);
  }

  /** The two statement lines differ in amount, so each line is found at its own position. */
  lemma LookupOwn(iso: string, j: nat)
    requires j < 2
    ensures Lookup(NormalStatement(iso), NormalStatement(iso)[j]) == Some(j)
  {
    var nb := NormalStatement(iso);
    LookupOfRow(nb, j);
    assert Get(nb[0], "Amount") == Num(10000);
    assert Get(nb[1], "Amount") == Num(5003);
  }

  /** The score of the line paying invoice `i`: the description's similarity to the id, less ten per cent of a cent. */
  function ExpectedScore(ratio: Similarity, i: nat): int
    requires i < 2
  {
    100 * ratio(Upper(Payment(Ids[i])), Invoice(Ids[i])).Floor - 10 * Abs(BankAmounts[i] - ErpAmounts[i])
  }

  /** The cells of statement line `j` that matching reads. */
  lemma StatementCells(iso: string, j: nat)
    requires j < 2
    ensures Get(NormalStatement(iso)[j], "Description") == Text(Payment(Ids[j]))
    ensures Get(NormalStatement(iso)[j], "Amount") == Num(BankAmounts[j])
  {
    ColumnNamesDistinct();
  }

  /** The score of invoice `i` against the line paying it. */
  lemma ScoreOfRow(iso: string, ratio: Similarity, i: nat)
    requires i < 2
    ensures Score(QueryOf(ErpLedger()[i], NormalStatement(iso), ratio), i) == ExpectedScore(ratio, i)
  {
    var q := QueryOf(ErpLedger()[i], NormalStatement(iso), ratio);
    QueryShape(iso, ratio, i);
    StatementCells(iso, i);
    assert DescScore(q, i) == ratio(Upper(Payment(Ids[i])), Invoice(Ids[i]));
  }

  /** ERP record `i` proposes the statement line paying it; invoice 3 proposes nothing. */
  lemma ProposalOfRow(iso: string, ratio: Similarity, i: nat)
    requires i < 3
    ensures Proposal(ErpLedger()[i], NormalStatement(iso), ratio)
      == if i < 2 then Some(Choice(i, ExpectedScore(ratio, i), NormalStatement(iso)[i])) else None
  {
    var q := QueryOf(ErpLedger()[i], NormalStatement(iso), ratio);
    BestOfRow(iso, ratio, i);
    if i < 2 {
      LookupOwn(iso, i);
      ScoreOfRow(iso, ratio, i);
      assert q.bank[i] == NormalStatement(iso)[i];
      assert ProposalFor(q) == Some(Choice(i, Score(q, i), q.bank[i]));
    }
  }

  function Assigned(iso: string, ratio: Similarity, i: nat): Assignment
    requires i < 2
  {
    Assignment(i, i, ExpectedScore(ratio, i), NormalStatement(iso)[i])
  }

  /** A sequence of three entries is the display of its entries. */
  lemma ThreeEntries<T>(xs: seq<T>, x0: T, x1: T, x2: T)
    requires |xs| == 3 && xs[0] == x0 && xs[1] == x1 && xs[2] == x2
    ensures xs == [x0, x1, x2]
  {
  }

  /** The proposals of the three invoices. */
  lemma ProposalsExample(iso: string, ratio: Similarity)
    ensures Proposals(ErpLedger(), NormalStatement(iso), ratio) == [
      Some(Choice(0, ExpectedScore(ratio, 0), NormalStatement(iso)[0])),
      Some(Choice(1, ExpectedScore(ratio, 1), NormalStatement(iso)[1])),
      None]
  {
    var erp, nb := ErpLedger(), NormalStatement(iso);
    var ps := Proposals(erp, nb, ratio);
    ProposalsAt(erp, nb, ratio, 0);
    ProposalOfRow(iso, ratio, 0);
    ProposalsAt(erp, nb, ratio, 1);
    ProposalOfRow(iso, ratio, 1);
    ProposalsAt(erp, nb, ratio, 2);
    ProposalOfRow(iso, ratio, 2);
    ThreeEntries(ps, Some(Choice(0, ExpectedScore(ratio, 0), nb[0])), Some(Choice(1, ExpectedScore(ratio, 1), nb[1])), None);
  }

  /**
   * Three ERP records proposing the first, then the second bank line, then
   * nothing: both proposals are booked, in order, the third record stays
   * unmatched and every bank line is used.
   */
  lemma MatchOfProposals(erp: seq<Row>, bank: seq<Row>, ratio: Similarity, c0: Choice, c1: Choice)
    requires |erp| == 3 && |bank| == 2
    requires c0.bankIndex == 0 && c1.bankIndex == 1
    requires Proposals(erp, bank, ratio) == [Some(c0), Some(c1), None]
    ensures MatchSpec(erp, bank, ratio) == MatchSet(
      [Assignment(0, 0, c0.score, c0.bankRow), Assignment(1, 1, c1.score, c1.bankRow)], [2], [])
  {
    var ps := [Some(c0), Some(c1), None];
    var a0, a1 := Assignment(0, 0, c0.score, c0.bankRow), Assignment(1, 1, c1.score, c1.bankRow);
    assert Greedy(ps, 1) == Progress([a0], {0});
    assert Greedy(ps, 3) == Progress([a0, a1], {0, 1});
    ErpIndexSetTwo(a0, a1);
    assert Outside(1, {0, 1}) == [];
  }

  lemma ErpIndexSetTwo(a0: Assignment, a1: Assignment)
    ensures ErpIndexSet([a0, a1]) == {a0.erpIndex, a1.erpIndex}
  {
    assert [a0, a1][..1] == [a0];
    assert [a0][..0] == [];
    assert ErpIndexSet([a0]) == {a0.erpIndex};
    assert ErpIndexSet([a0, a1]) == ErpIndexSet([a0]) + {a1.erpIndex};
  }

  /** The greedy pass pairs invoices 1 and 2 with their payments and leaves invoice 3 unmatched. */
  lemma MatchExample(iso: string, ratio: Similarity)
    ensures MatchSpec(ErpLedger(), NormalStatement(iso), ratio)
      == MatchSet([Assigned(iso, ratio, 0), Assigned(iso, ratio, 1)], [2], [])
  {
    var nb := NormalStatement(iso);
    ProposalsExample(iso, ratio);
    MatchOfProposals(ErpLedger(), nb, ratio,
      Choice(0, ExpectedScore(ratio, 0), nb[0]), Choice(1, ExpectedScore(ratio, 1), nb[1]));
  }

  /** No ERP record of the example makes the matcher raise. */
  lemma NoneRaises(iso: string, ratio: Similarity, i: nat)
    requires i < 3
    ensures !RowRaises(ErpLedger()[i], NormalStatement(iso), ratio)
  {
    QueryShape(iso, ratio, i);
  }

  // ---------------------------------------------------------------- classification

  /** The report of the example: an exact match, a three-cent rounding difference, an invoice the bank never paid. */
  function ExpectedReport(): seq<Reconciliation> {
    [ Reconciliation(Some(0), Some(0), Matched, Some(0), [ExactNote]),
      Reconciliation(Some(1), Some(1), RoundingDifference, Some(3), [RoundingNote(3)]),
      Reconciliation(Some(2), None, MissingInBank, None, [NoBankNote]) ]
  }

  /** The Invoice ID cell of ERP record `k` and of statement line `k`. */
  lemma IdCells(iso: string, k: nat)
    requires k < 3
    ensures Get(ErpLedger()[k], "Invoice ID") == Text(Invoice(Ids[k]))
    ensures k < 2 ==> Get(NormalStatement(iso)[k], "Invoice ID") == Text(Invoice(Ids[k]))
    ensures ColumnId(ErpLedger()[k]) == Invoice(Ids[k])
    ensures k < 2 ==> ColumnId(NormalStatement(iso)[k]) == Invoice(Ids[k])
  {
    ColumnNamesDistinct();
    IdsShape(k);
    InvDigitsUpper(Ids[k]);
  }

  /** A count of an id that only position `c` holds. */
  lemma {:induction false} UniqueIdCount(rows: seq<Row>, inv: string, c: nat)
    requires forall k :: 0 <= k < |rows| ==> (ColumnId(rows[k]) == inv <==> k == c)
    ensures IdCount(rows, inv) == if c < |rows| then 1 else 0
  {
    if rows != [] {
      var init := rows[..|rows| - 1];
      assert forall k :: 0 <= k < |init| ==> init[k] == rows[k];
      UniqueIdCount(init, inv, c);
    }
  }

  /** Every id occurs once in the ledger and at most once in the statement: no duplicates. */
  lemma NoDuplicate(iso: string, i: nat)
    requires i < 3
    ensures !IsDuplicate(ErpLedger(), NormalStatement(iso), Invoice(Ids[i]))
  {
    var erp, nb, inv := ErpLedger(), NormalStatement(iso), Invoice(Ids[i]);
    forall k | 0 <= k < |erp| ensures ColumnId(erp[k]) == inv <==> k == i {
      IdCells(iso, k);
      InvoicesDistinct(k, i);
    }
    UniqueIdCount(erp, inv, i);
    forall k | 0 <= k < |nb| ensures ColumnId(nb[k]) == inv <==> k == i {
      IdCells(iso, k);
      InvoicesDistinct(k, i);
    }
    UniqueIdCount(nb, inv, i);
  }

  /** The demands of the classifier on the pair for invoice `i` hold. */
  lemma PairOkExample(iso: string, ratio: Similarity, i: nat)
    requires i < 2
    ensures PairOk(ErpLedger(), NormalStatement(iso), Assigned(iso, ratio, i))
  {
    ColumnNamesDistinct();
    IdCells(iso, i);
    StatementCells(iso, i);
  }

  /** The pair for invoice `i` is classified by its amount difference alone. */
  lemma PairExample(iso: string, ratio: Similarity, i: nat)
    requires i < 2
    ensures var d := Abs(ErpAmounts[i] - BankAmounts[i]);
      PairResult(ErpLedger(), NormalStatement(iso), Assigned(iso, ratio, i))
        == Reconciliation(Some(i), Some(i), AmountStatus(Some(d)), Some(d), AmountRationale(Some(d)))
  {
    var erp, nb := ErpLedger(), NormalStatement(iso);
    ColumnNamesDistinct();
    IdCells(iso, i);
    StatementCells(iso, i);
    IdsShape(i);
    InvIdNormal(Ids[i]);
    assert InvoiceOf(erp[i]) == Invoice(Ids[i]);
    NoDuplicate(iso, i);
    assert Get(erp[i], "Amount") == Num(ErpAmounts[i]);
    assert AmountDiff(erp[i], nb[i]) == Some(Abs(ErpAmounts[i] - BankAmounts[i]));
  }

  /** Two pairs with different keys: deduplication keeps both and each is classified. */
  lemma PairResultsTwo(erp: seq<Row>, bank: seq<Row>, a0: Assignment, a1: Assignment)
    requires Key(a0) != Key(a1) && AllPairsOk(erp, bank, [a0, a1])
    ensures Distinct([a0, a1]) == [a0, a1]
    ensures PairResults(erp, bank, [a0, a1]) == [PairResult(erp, bank, a0), PairResult(erp, bank, a1)]
  {
    assert [a0, a1][..1] == [a0];
    assert [a0][..0] == [];
    assert KeySet([a0]) == {Key(a0)};
    assert Distinct([a0]) == [a0];
    assert Distinct([a0, a1]) == Distinct([a0]) + [a1];
  }

  /** The unmatched positions in ascending order: one ERP record, no bank line. */
  lemma UnmatchedRecords()
    ensures MissingBankRecords(Ascending([2])) == [Reconciliation(Some(2), None, MissingInBank, None, [NoBankNote])]
    ensures MissingErpRecords(Ascending([])) == []
  {
    AscendingSpec([2]);
    assert Elements([2]) == {2};
    var a := Ascending([2]);
    assert |a| == 1 && a[0] in a;
    assert a == [2];
    AscendingSpec([]);
    assert Elements([]) == {};
  }

  /** The two pairs: the first amounts agree, the second differ by three cents. */
  lemma PairValues(iso: string, ratio: Similarity)
    ensures PairResult(ErpLedger(), NormalStatement(iso), Assigned(iso, ratio, 0)) == ExpectedReport()[0]
    ensures PairResult(ErpLedger(), NormalStatement(iso), Assigned(iso, ratio, 1)) == ExpectedReport()[1]
  {
    PairExample(iso, ratio, 0);
    PairExample(iso, ratio, 1);
    assert Abs(ErpAmounts[0] - BankAmounts[0]) == 0;
    assert Abs(ErpAmounts[1] - BankAmounts[1]) == 3;
  }

  /** The classification of the matches: exact, rounding difference, missing in bank. */
  lemma ClassifyExample(iso: string, ratio: Similarity)
    ensures var ms := [Assigned(iso, ratio, 0), Assigned(iso, ratio, 1)];
      && AllPairsOk(ErpLedger(), NormalStatement(iso), ms)
      && ClassifySpec(ErpLedger(), NormalStatement(iso), ms, [2], []) == ExpectedReport()
  {
    var erp, nb := ErpLedger(), NormalStatement(iso);
    var a0, a1 := Assigned(iso, ratio, 0), Assigned(iso, ratio, 1);
    PairOkExample(iso, ratio, 0);
    PairOkExample(iso, ratio, 1);
    assert AllPairsOk(erp, nb, [a0, a1]);
    PairResultsTwo(erp, nb, a0, a1);
    PairValues(iso, ratio);
    UnmatchedRecords();
    var r := ExpectedReport();
    assert ClassifySpec(erp, nb, [a0, a1], [2], []) == [r[0], r[1]] + [r[2]] + [];
    ThreeEntries(r, r[0], r[1], r[2]);
  }

  /**
   * The whole run: the dates are parsed, the matcher raises on no record,
   * and the report holds an exact match, a rounding difference of three
   * cents and the unpaid third invoice.
   */
  lemma EndToEnd(date: string, parse: DateParser, ratio: Similarity)
    requires date != "" && parse(date).Some?
    ensures var erp := NormalizeErp(ErpLedger(), parse);
      var bank := NormalizeBank(Statement(date), parse);
      var m := MatchSpec(erp, bank, ratio);
      && (forall i :: 0 <= i < |erp| ==> !RowRaises(erp[i], bank, ratio))
      && AllPairsOk(erp, bank, m.matches)
      && ClassifySpec(erp, bank, m.matches, m.erpUnmatched, m.bankUnmatched) == ExpectedReport()
  {
    var iso := IsoText(parse(date).value);
    ErpLedgerNormal(parse);
    StatementNormal(date, parse);
    forall i | 0 <= i < 3 ensures !RowRaises(ErpLedger()[i], NormalStatement(iso), ratio) {
      NoneRaises(iso, ratio, i);
    }
    MatchExample(iso, ratio);
    ClassifyExample(iso, ratio);
  }
}
