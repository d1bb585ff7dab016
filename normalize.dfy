/**
 * `normalize_erp` and `normalize_bank` of src/tools/normalize_tools.py. Each
 * rebuilds a DataFrame from the records and overwrites the columns it knows
 * (Date, Amount, Invoice ID, Status) cell by cell; every other column, and
 * the order and number of records, stay as they were.
 */
module Normalize {
  import opened Text
  import opened Values
  import opened Amounts
  import opened Dates

  // ---------------------------------------------------------------- extract_inv

  /** `[-\s]`. */
  predicate IsSeparator(c: char) {
    c == '-' || IsSpace(c)
  }

  /** "INV" in any letter case at offset `p`. */
  predicate InvAt(s: string, p: nat) {
    p + 3 <= |s| && LowerChar(s[p]) == 'i' && LowerChar(s[p + 1]) == 'n' && LowerChar(s[p + 2]) == 'v'
  }

  /**
   * Where `INV[-\s]?(\d+)` puts its digit group when it matches at `p`: one
   * separator is taken only when a digit follows it.
   */
  function DigitStart(s: string, p: nat): (r: Option<nat>)
    ensures r.Some? ==> r.value < |s| && IsDigit(s[r.value]) && (r.value == p + 3 || r.value == p + 4)
  {
    if !InvAt(s, p) then None
    else if p + 4 < |s| && IsSeparator(s[p + 3]) && IsDigit(s[p + 4]) then Some(p + 4)
    else if p + 3 < |s| && IsDigit(s[p + 3]) then Some(p + 3)
    else None
  }

  /** The greedy `\d+` starting at `q`. */
  function DigitRun(s: string, q: nat): (r: string)
    requires q <= |s|
    ensures q + |r| <= |s| && r == s[q..q + |r|] && AllDigits(r)
    ensures q + |r| == |s| || !IsDigit(s[q + |r|])
    decreases |s| - q
  {
    if q < |s| && IsDigit(s[q]) then [s[q]] + DigitRun(s, q + 1) else []
  }

  /** `re.search`: the leftmost offset from `p` on where the pattern matches. */
  function Search(s: string, p: nat): (r: Option<nat>)
    ensures r.Some? ==> p <= r.value && DigitStart(s, r.value).Some?
    decreases |s| - p
  {
    if p >= |s| then None
    else if DigitStart(s, p).Some? then Some(p)
    else Search(s, p + 1)
  }

  /** `extract_inv(text)`: "INV" and the first digit group, zero-padded to four; None for non-text or no match. */
  function ExtractInv(v: Val): Option<string> {
    if !v.Text? then None
    else match Search(v.s, 0)
      case None => None
      case Some(p) => Some("INV" + ZFill(DigitRun(v.s, DigitStart(v.s, p).value), 4))
  }

  /** `Search` finds the first matching offset, and finds none only when there is none. */
  lemma {:induction false} SearchSpec(s: string, p: nat)
    ensures Search(s, p).Some? ==>
      var k := Search(s, p).value;
      p <= k && DigitStart(s, k).Some? && forall j :: p <= j < k ==> DigitStart(s, j).None?
    ensures Search(s, p).None? ==> forall j :: p <= j ==> DigitStart(s, j).None?
    decreases |s| - p
  {
    if p < |s| && DigitStart(s, p).None? {
      SearchSpec(s, p + 1);
    }
  }

  /**
   * What `extract_inv` returns: None exactly when the text has no match;
   * otherwise "INV" and the digit run of the leftmost match, left-padded
   * with '0' to four digits, a longer run kept whole.
   */
  lemma ExtractInvSpec(s: string)
    ensures ExtractInv(Text(s)).None? <==> forall j :: DigitStart(s, j).None?
    ensures ExtractInv(Text(s)).Some? ==> exists p, run ::
      DigitStart(s, p).Some? && (forall j :: j < p ==> DigitStart(s, j).None?)
      && run == DigitRun(s, DigitStart(s, p).value) && |run| >= 1
      && ExtractInv(Text(s)).value == "INV" + ZFill(run, 4)
  {
    SearchSpec(s, 0);
    if Search(s, 0).Some? {
      var p := Search(s, 0).value;
      var run := DigitRun(s, DigitStart(s, p).value);
      assert |run| >= 1;
    }
  }

  /** "INV" followed by digits has no lower-case letter, so upper-casing keeps it. */
  lemma InvDigitsUpper(z: string)
    requires AllDigits(z)
    ensures Upper("INV" + z) == "INV" + z
  {
    var id := "INV" + z;
    forall i | 0 <= i < |id| ensures !IsLower(id[i]) {
      if i >= 3 {
        assert id[i] == z[i - 3];
      }
    }
    UpperUnchanged(id);
  }

  /** "INV" and a zero-padded digit run: at least seven characters, digits after the prefix, upper case without spaces. */
  lemma InvIdShape(run: string)
    requires AllDigits(run)
    ensures var id := "INV" + ZFill(run, 4);
      |id| >= 7 && id[..3] == "INV" && AllDigits(id[3..]) && Upper(Strip(id)) == id
  {
    ZFillValue(run, 4);
    var z := ZFill(run, 4);
    var id := "INV" + z;
    assert id[..3] == "INV" && id[3..] == z;
    assert !IsSpace(id[0]) && IsDigit(id[|id| - 1]);
    StripUnchanged(id);
    InvDigitsUpper(z);
  }

  /** A derived bank invoice id is "INV" and at least four digits, and normalizing it as an ERP id changes nothing. */
  lemma ExtractedIdShape(v: Val)
    requires ExtractInv(v).Some?
    ensures var id := ExtractInv(v).value;
      |id| >= 7 && id[..3] == "INV" && AllDigits(id[3..]) && Upper(Strip(id)) == id
  {
    var p := Search(v.s, 0).value;
    InvIdShape(DigitRun(v.s, DigitStart(v.s, p).value));
  }

  /** "Payment INV0001" gives "INV0001". */
  lemma ExtractPaddedId()
    ensures ExtractInv(Text("Payment INV0001")) == Some("INV0001")
  {
    var s := "Payment INV0001";
    forall j | j < 8 ensures DigitStart(s, j).None? {
      assert !InvAt(s, j);
    }
    assert DigitStart(s, 8) == Some(11);
    SearchSkips(s, 0, 8);
    assert DigitRun(s, 15) == [];
    assert DigitRun(s, 11) == "0001";
    assert ZFill("0001", 4) == "0001";
    assert ExtractInv(Text(s)) == Some("INV" + ZFill(DigitRun(s, 11), 4));
    assert "INV" + "0001" == "INV0001";
  }

  /** "paid inv-7" gives "INV0007": any letter case, one separator, padding to four. */
  lemma ExtractShortId()
    ensures ExtractInv(Text("paid inv-7")) == Some("INV0007")
  {
    var s := "paid inv-7";
    forall j | j < 5 ensures DigitStart(s, j).None? {
      assert !InvAt(s, j);
    }
    assert DigitStart(s, 5) == Some(9);
    SearchSkips(s, 0, 5);
    assert DigitRun(s, 9) == "7";
    assert ZFill("7", 4) == "0007";
    assert ExtractInv(Text(s)) == Some("INV" + ZFill(DigitRun(s, 9), 4));
    assert "INV" + "0007" == "INV0007";
  }

  lemma {:induction false} SearchSkips(s: string, p: nat, k: nat)
    requires p <= k < |s| && DigitStart(s, k).Some?
    requires forall j :: p <= j < k ==> DigitStart(s, j).None?
    ensures Search(s, p) == Some(k)
    decreases k - p
  {
    if p < k {
      SearchSkips(s, p + 1, k);
    }
  }

  // ---------------------------------------------------------------- records

  /** The ERP cell that the column `col` holds after normalization. */
  function NormalizeErpCell(col: string, v: Val, parse: DateParser): Val {
    if col == "Date" then ToDate(v, parse)
    else if col == "Amount" then AmountCell(ToAmount(v))
    else if col == "Invoice ID" then Text(Upper(Strip(CellText(v))))
    else if col == "Status" then Text(Title(Strip(CellText(v))))
    else v
  }

  function NormalizeErpRow(row: Row, parse: DateParser): (r: Row)
    ensures r.Keys == row.Keys
  {
    map k | k in row :: NormalizeErpCell(k, row[k], parse)
  }

  /** `normalize_erp`: one output record per input record, in order, each carrying every column. */
  function NormalizeErp(records: seq<Row>, parse: DateParser): (out: seq<Row>)
    ensures |out| == |records|
    ensures forall i :: 0 <= i < |out| ==> out[i].Keys == Columns(records)
  {
    ErpRecords(records, Columns(records), parse)
  }

  function ErpRecords(records: seq<Row>, cols: set<string>, parse: DateParser): (out: seq<Row>)
    ensures |out| == |records|
    ensures forall i :: 0 <= i < |out| ==> out[i] == NormalizeErpRow(Fill(records[i], cols), parse)
    ensures forall i :: 0 <= i < |out| ==> out[i].Keys == cols
  {
    seq(|records|, i requires 0 <= i < |records| => NormalizeErpRow(Fill(records[i], cols), parse))
  }

  /** The bank cell that the column `col` holds after normalization. */
  function NormalizeBankCell(col: string, row: Row, parse: DateParser): Val
    requires col in row || (col == "Invoice ID" && "Description" in row)
  {
    if col == "Invoice ID" && "Description" in row then
      match ExtractInv(row["Description"]) case None => Missing case Some(id) => Text(id)
    else if col == "Date" then ToDate(row[col], parse)
    else if col == "Amount" then AmountCell(ToAmount(row[col]))
    else row[col]
  }

  function BankColumns(cols: set<string>): set<string> {
    cols + (if "Description" in cols then {"Invoice ID"} else {})
  }

  function NormalizeBankRow(row: Row, parse: DateParser): (r: Row)
    ensures r.Keys == BankColumns(row.Keys)
  {
    map k | k in BankColumns(row.Keys) :: NormalizeBankCell(k, row, parse)
  }

  /**
   * `normalize_bank`: one output record per input record, in order; an
   * Invoice ID column is added exactly when a Description column exists.
   */
  function NormalizeBank(records: seq<Row>, parse: DateParser): (out: seq<Row>)
    ensures |out| == |records|
    ensures forall i :: 0 <= i < |out| ==> out[i].Keys == BankColumns(Columns(records))
  {
    BankRecords(records, Columns(records), parse)
  }

  function BankRecords(records: seq<Row>, cols: set<string>, parse: DateParser): (out: seq<Row>)
    ensures |out| == |records|
    ensures forall i :: 0 <= i < |out| ==> out[i] == NormalizeBankRow(Fill(records[i], cols), parse)
    ensures forall i :: 0 <= i < |out| ==> out[i].Keys == BankColumns(cols)
  {
    seq(|records|, i requires 0 <= i < |records| => NormalizeBankRow(Fill(records[i], cols), parse))
  }

  // ---------------------------------------------------------------- properties

  /** Records that all carry the same columns have exactly those columns. */
  lemma ColumnsOfUniform(rows: seq<Row>, cols: set<string>)
    requires |rows| > 0 && forall i :: 0 <= i < |rows| ==> rows[i].Keys == cols
    ensures Columns(rows) == cols
  {
    assert rows[0].Keys == cols;
    ColumnsFromRecords(rows);
  }

  /** A record that already has every column is unchanged by the fill. */
  lemma FillFull(row: Row, cols: set<string>)
    requires row.Keys == cols
    ensures Fill(row, cols) == row
  {
  }

  /** One ERP cell normalized twice is normalized once. */
  lemma ErpCellIdempotent(col: string, v: Val, parse: DateParser)
    requires forall d: CalendarDate :: parse(IsoText(d)) == Some(d)
    ensures NormalizeErpCell(col, NormalizeErpCell(col, v, parse), parse) == NormalizeErpCell(col, v, parse)
  {
    if col == "Date" {
      ToDateIdempotent(v, parse);
    } else if col == "Amount" {
      ToAmountIdempotent(v);
    } else if col == "Invoice ID" {
      StripUpperIdempotent(CellText(v));
    } else if col == "Status" {
      StripTitleIdempotent(CellText(v));
    }
  }

  /** One ERP record normalized twice is normalized once. */
  lemma ErpRowIdempotent(row: Row, parse: DateParser)
    requires forall d: CalendarDate :: parse(IsoText(d)) == Some(d)
    ensures NormalizeErpRow(NormalizeErpRow(row, parse), parse) == NormalizeErpRow(row, parse)
  {
    var once := NormalizeErpRow(row, parse);
    forall k | k in once
      ensures NormalizeErpCell(k, once[k], parse) == once[k]
    {
      ErpCellIdempotent(k, row[k], parse);
    }
  }

  /**
   * Normalizing normalized ERP records changes nothing, given a date parser
   * that reads ISO text back as the same date.
   */
  lemma NormalizeErpIdempotent(records: seq<Row>, parse: DateParser)
    requires forall d: CalendarDate :: parse(IsoText(d)) == Some(d)
    ensures NormalizeErp(NormalizeErp(records, parse), parse) == NormalizeErp(records, parse)
  {
    var out := NormalizeErp(records, parse);
    var cols := Columns(records);
    if |out| > 0 {
      ColumnsOfUniform(out, cols);
      forall i | 0 <= i < |out|
        ensures NormalizeErpRow(Fill(out[i], cols), parse) == out[i]
      {
        FillFull(out[i], cols);
        ErpRowIdempotent(Fill(records[i], cols), parse);
      }
    }
  }

  /** One bank record normalized twice is normalized once. */
  lemma BankRowIdempotent(row: Row, parse: DateParser)
    requires forall d: CalendarDate :: parse(IsoText(d)) == Some(d)
    ensures NormalizeBankRow(NormalizeBankRow(row, parse), parse) == NormalizeBankRow(row, parse)
  {
    var once := NormalizeBankRow(row, parse);
    forall k | k in once
      ensures NormalizeBankCell(k, once, parse) == once[k]
    {
      if k == "Date" {
        ToDateIdempotent(row[k], parse);
      } else if k == "Amount" {
        ToAmountIdempotent(row[k]);
      }
    }
  }

  /** One normalized bank record, filled to the normalized columns and normalized again, is unchanged. */
  lemma BankRecordStable(records: seq<Row>, parse: DateParser, i: nat)
    requires forall d: CalendarDate :: parse(IsoText(d)) == Some(d)
    requires i < |records|
    ensures var out := NormalizeBank(records, parse);
      NormalizeBankRow(Fill(out[i], BankColumns(Columns(records))), parse) == out[i]
  {
    var cols := Columns(records);
    var out := NormalizeBank(records, parse);
    FillFull(out[i], BankColumns(cols));
    BankRowIdempotent(Fill(records[i], cols), parse);
  }

  /** Normalizing normalized bank records changes nothing (same parser assumption). */
  lemma NormalizeBankIdempotent(records: seq<Row>, parse: DateParser)
    requires forall d: CalendarDate :: parse(IsoText(d)) == Some(d)
    ensures NormalizeBank(NormalizeBank(records, parse), parse) == NormalizeBank(records, parse)
  {
    var out := NormalizeBank(records, parse);
    var cols := Columns(records);
    if |out| > 0 {
      ColumnsOfUniform(out, BankColumns(cols));
      assert BankColumns(BankColumns(cols)) == BankColumns(cols);
      forall i | 0 <= i < |out|
        ensures NormalizeBankRow(Fill(out[i], BankColumns(cols)), parse) == out[i]
      {
        BankRecordStable(records, parse, i);
      }
    }
  }

  /** Columns `normalize_erp` does not know pass through untouched, missing cells filled. */
  lemma ErpPassThrough(records: seq<Row>, parse: DateParser, i: nat, k: string)
    requires i < |records| && k in Columns(records)
    requires k != "Date" && k != "Amount" && k != "Invoice ID" && k != "Status"
    ensures NormalizeErp(records, parse)[i][k] == Get(records[i], k)
  {
    var filled := Fill(records[i], Columns(records));
    assert NormalizeErp(records, parse)[i] == NormalizeErpRow(filled, parse);
  }

  /** Columns `normalize_bank` does not know pass through untouched, missing cells filled. */
  lemma BankPassThrough(records: seq<Row>, parse: DateParser, i: nat, k: string)
    requires i < |records| && k in Columns(records)
    requires k != "Date" && k != "Amount" && k != "Invoice ID"
    ensures NormalizeBank(records, parse)[i][k] == Get(records[i], k)
  {
    var filled := Fill(records[i], Columns(records));
    assert NormalizeBank(records, parse)[i] == NormalizeBankRow(filled, parse);
  }

  /**
   * Normalized ERP amounts are numbers or missing, invoice ids are upper-case
   * text without surrounding space, dates are ISO text or missing.
   */
  lemma NormalizedErpShape(records: seq<Row>, parse: DateParser, i: nat)
    requires i < |records|
    ensures var row := NormalizeErp(records, parse)[i];
      && !Get(row, "Amount").Text?
      && ("Invoice ID" in row ==>
            row["Invoice ID"].Text? && Upper(Strip(row["Invoice ID"].s)) == row["Invoice ID"].s)
      && ("Date" in row ==> row["Date"].Missing? || ParseIso(row["Date"].s).Some?)
  {
    var filled := Fill(records[i], Columns(records));
    var row := NormalizeErp(records, parse)[i];
    assert row == NormalizeErpRow(filled, parse);
    if "Amount" in row {
      assert row["Amount"] == AmountCell(ToAmount(filled["Amount"]));
    }
    if "Invoice ID" in row {
      assert row["Invoice ID"] == Text(Upper(Strip(CellText(filled["Invoice ID"]))));
      StripUpperIdempotent(CellText(filled["Invoice ID"]));
    }
    if "Date" in row {
      assert row["Date"] == ToDate(filled["Date"], parse);
    }
  }

  lemma BankRowShape(row: Row, parse: DateParser)
    requires "Description" in row
    ensures var r := NormalizeBankRow(row, parse);
      && !Get(r, "Amount").Text?
      && (r["Invoice ID"].Missing? || r["Invoice ID"].Text?)
      && (r["Invoice ID"].Text? ==> Upper(Strip(r["Invoice ID"].s)) == r["Invoice ID"].s)
  {
    var v := row["Description"];
    if ExtractInv(v).Some? {
      ExtractedIdShape(v);
    }
  }

  /** Normalized bank amounts are numbers or missing; a derived id has the INV shape. */
  lemma NormalizedBankShape(records: seq<Row>, parse: DateParser, i: nat)
    requires i < |records| && "Description" in Columns(records)
    ensures var row := NormalizeBank(records, parse)[i];
      && !Get(row, "Amount").Text?
      && (row["Invoice ID"].Missing? || row["Invoice ID"].Text?)
      && (row["Invoice ID"].Text? ==> Upper(Strip(row["Invoice ID"].s)) == row["Invoice ID"].s)
  {
    BankRowShape(Fill(records[i], Columns(records)), parse);
  }

  // ---------------------------------------------------------------- the column passes

  /** `df[col] = df[col].apply(...)` at one ERP record: the column's cell rewritten, if the column exists. */
  function ErpColumnStep(row: Row, col: string, parse: DateParser): (r: Row)
    ensures r.Keys == row.Keys
    ensures col in row ==> r[col] == NormalizeErpCell(col, row[col], parse)
    ensures forall k :: k in row && k != col ==> r[k] == row[k]
  {
    if col in row then row[col := NormalizeErpCell(col, row[col], parse)] else row
  }

  /** Lines 37-40 at one record: the four passes in the source's order. */
  function ErpPasses(row: Row, parse: DateParser): Row {
    ErpColumnStep(ErpColumnStep(ErpColumnStep(ErpColumnStep(row, "Date", parse), "Amount", parse), "Invoice ID", parse), "Status", parse)
  }

  /** The four column passes, one after the other, normalize every cell of the record once. */
  lemma ErpPassesSpec(row: Row, parse: DateParser)
    ensures ErpPasses(row, parse) == NormalizeErpRow(row, parse)
  {
    var r1 := ErpColumnStep(row, "Date", parse);
    var r2 := ErpColumnStep(r1, "Amount", parse);
    var r3 := ErpColumnStep(r2, "Invoice ID", parse);
    var r4 := ErpColumnStep(r3, "Status", parse);
    forall k | k in row ensures r4[k] == NormalizeErpCell(k, row[k], parse) {
      if k == "Date" {
        assert r1[k] == NormalizeErpCell(k, row[k], parse);
        assert r4[k] == r3[k] == r2[k] == r1[k];
      } else if k == "Amount" {
        assert r2[k] == NormalizeErpCell(k, r1[k], parse);
        assert r4[k] == r3[k] == r2[k];
      } else if k == "Invoice ID" {
        assert r3[k] == NormalizeErpCell(k, r2[k], parse);
        assert r4[k] == r3[k];
      } else if k == "Status" {
        assert r4[k] == NormalizeErpCell(k, r3[k], parse);
      } else {
        assert r4[k] == r3[k] == r2[k] == r1[k] == row[k];
      }
    }
  }

  /** `apply` over every record of the table, in place. */
  method ApplyToRecords(table: array<Row>, f: Row -> Row)
    modifies table
    ensures forall i :: 0 <= i < table.Length ==> table[i] == f(old(table[i]))
  {
    var i := 0;
    while i < table.Length
      invariant 0 <= i <= table.Length
      invariant forall k :: 0 <= k < i ==> table[k] == f(old(table[k]))
      invariant forall k :: i <= k < table.Length ==> table[k] == old(table[k])
    {
      table[i] := f(table[i]);
      i := i + 1;
    }
  }

  /** `if col in df: df[col] = df[col].apply(...)` of `normalize_erp`, on a table whose records carry `cols`. */
  method ErpPass(table: array<Row>, cols: set<string>, col: string, parse: DateParser)
    requires forall i :: 0 <= i < table.Length ==> table[i].Keys == cols
    modifies table
    ensures forall i :: 0 <= i < table.Length ==> table[i] == ErpColumnStep(old(table[i]), col, parse)
  {
    if col in cols {
      ApplyToRecords(table, r => ErpColumnStep(r, col, parse));
    }
  }

  /**
   * Lines 36-41: the table is built, then Date, Amount, Invoice ID and
   * Status are rewritten in place, each only when the column exists. The
   * result is `normalize_erp` of the records.
   */
  method NormalizeErpTable(table: array<Row>, parse: DateParser)
    modifies table
    ensures table[..] == NormalizeErp(old(table[..]), parse)
  {
    var cols := Columns(table[..]);
    ApplyToRecords(table, r => Fill(r, cols));
    ghost var filled := table[..];
    ErpPass(table, cols, "Date", parse);
    ghost var t1 := table[..];
    ErpPass(table, cols, "Amount", parse);
    ghost var t2 := table[..];
    ErpPass(table, cols, "Invoice ID", parse);
    ghost var t3 := table[..];
    ErpPass(table, cols, "Status", parse);
    forall i | 0 <= i < table.Length
      ensures table[i] == NormalizeErpRow(Fill(old(table[i]), cols), parse)
    {
      assert table[i] == ErpPasses(filled[i], parse) by {
        assert t1[i] == ErpColumnStep(filled[i], "Date", parse);
        assert t2[i] == ErpColumnStep(t1[i], "Amount", parse);
        assert t3[i] == ErpColumnStep(t2[i], "Invoice ID", parse);
      }
      ErpPassesSpec(filled[i], parse);
    }
  }

  /** A Date or Amount pass of `normalize_bank` at one record. */
  function BankColumnStep(row: Row, col: string, parse: DateParser): (r: Row)
    ensures r.Keys == row.Keys
    ensures col in row ==> r[col] == NormalizeBankCell(col, row, parse)
    ensures forall k :: k in row && k != col ==> r[k] == row[k]
  {
    if col in row then row[col := NormalizeBankCell(col, row, parse)] else row
  }

  /** Line 66 at one record: the Invoice ID derived from the Description, if there is one. */
  function InvoiceStep(row: Row, parse: DateParser): (r: Row)
    ensures r.Keys == BankColumns(row.Keys)
    ensures "Description" in row ==> r["Invoice ID"] == NormalizeBankCell("Invoice ID", row, parse)
    ensures forall k :: k in row && k != "Invoice ID" ==> r[k] == row[k]
  {
    if "Description" in row then row["Invoice ID" := NormalizeBankCell("Invoice ID", row, parse)] else row
  }

  /** Lines 59-66 at one record. */
  function BankPasses(row: Row, parse: DateParser): Row {
    InvoiceStep(BankColumnStep(BankColumnStep(row, "Date", parse), "Amount", parse), parse)
  }

  /** The Date and Amount passes leave the Description, so the derived id is the one of the original record. */
  lemma BankPassesSpec(row: Row, parse: DateParser)
    ensures BankPasses(row, parse) == NormalizeBankRow(row, parse)
  {
    var r1 := BankColumnStep(row, "Date", parse);
    var r2 := BankColumnStep(r1, "Amount", parse);
    var r3 := InvoiceStep(r2, parse);
    forall k | k in r3 ensures r3[k] == NormalizeBankCell(k, row, parse) {
      if k == "Invoice ID" && "Description" in row {
        assert r2["Description"] == row["Description"];
      } else if k == "Date" {
        assert r3[k] == r2[k] == r1[k];
      } else if k == "Amount" {
        assert r3[k] == r2[k];
      } else {
        assert r3[k] == r2[k] == r1[k] == row[k];
      }
    }
  }

  /** `if col in df: df[col] = df[col].apply(...)` of `normalize_bank`, on a table whose records carry `cols`. */
  method BankPass(table: array<Row>, cols: set<string>, col: string, parse: DateParser)
    requires forall i :: 0 <= i < table.Length ==> table[i].Keys == cols
    modifies table
    ensures forall i :: 0 <= i < table.Length ==> table[i] == BankColumnStep(old(table[i]), col, parse)
  {
    if col in cols {
      ApplyToRecords(table, r => BankColumnStep(r, col, parse));
    }
  }

  /** `if "Description" in df: df["Invoice ID"] = df["Description"].apply(extract_inv)`. */
  method InvoicePass(table: array<Row>, cols: set<string>, parse: DateParser)
    requires forall i :: 0 <= i < table.Length ==> table[i].Keys == cols
    modifies table
    ensures forall i :: 0 <= i < table.Length ==> table[i] == InvoiceStep(old(table[i]), parse)
  {
    if "Description" in cols {
      ApplyToRecords(table, r => InvoiceStep(r, parse));
    }
  }

  /**
   * Lines 58-67: the table is built, Date and Amount are rewritten in place
   * and the Invoice ID column derived, each only when its source column
   * exists. The result is `normalize_bank` of the records.
   */
  method NormalizeBankTable(table: array<Row>, parse: DateParser)
    modifies table
    ensures table[..] == NormalizeBank(old(table[..]), parse)
  {
    var cols := Columns(table[..]);
    ApplyToRecords(table, r => Fill(r, cols));
    ghost var filled := table[..];
    BankPass(table, cols, "Date", parse);
    ghost var t1 := table[..];
    BankPass(table, cols, "Amount", parse);
    ghost var t2 := table[..];
    InvoicePass(table, cols, parse);
    forall i | 0 <= i < table.Length
      ensures table[i] == NormalizeBankRow(Fill(old(table[i]), cols), parse)
    {
      assert table[i] == BankPasses(filled[i], parse) by {
        assert t1[i] == BankColumnStep(filled[i], "Date", parse);
        assert t2[i] == BankColumnStep(t1[i], "Amount", parse);
      }
      BankPassesSpec(filled[i], parse);
    }
  }
}
