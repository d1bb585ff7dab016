/**
 * The table handling inside `read_bank_pdf` (src/tools/file_tools.py). Every
 * table found on a page contributes one record per row after its header
 * row, keyed by the stripped header names (or `col_<i>` past the header's
 * end); the columns of the resulting frame are then renamed to the
 * canonical Date, Description, Amount and Ref ID by a first-match rule.
 * Opening the PDF and extracting the tables is not part of this model: the
 * extracted pages are the input.
 */
module BankTable {
  import opened Text
  import opened Values

  /** A cell as the PDF extractor returns it: text, or None for an empty cell. */
  type Cell = Option<string>

  type TableRow = seq<Cell>

  /** An extracted table; its first row is the header row. */
  type Table = seq<TableRow>

  // ---------------------------------------------------------------- header and row keying

  /** Line 45, one header cell: a string is stripped, anything else becomes "". */
  function HeaderName(h: Cell): (r: string)
    ensures r == [] || (!IsSpace(r[0]) && !IsSpace(r[|r| - 1]))
    ensures h.Some? ==> |r| <= |h.value|
    ensures h.None? ==> r == ""
  {
    match h
    case None => ""
    case Some(s) => StripEnds(s); Strip(s)
  }

  /** A cleaned header name is its own strip: cleaning twice changes nothing. */
  lemma HeaderNameStable(h: Cell)
    ensures Strip(HeaderName(h)) == HeaderName(h)
    ensures HeaderName(Some(HeaderName(h))) == HeaderName(h)
  {
    StripUnchanged(HeaderName(h));
  }

  function Header(row: TableRow): seq<string> {
    seq(|row|, i requires 0 <= i < |row| => HeaderName(row[i]))
  }

  /** `f"col_{i}"`. */
  function ColName(i: nat): string {
    "col_" + NatText(i)
  }

  /** The key of cell `i`: its header name, or `col_<i>` past the header's end. */
  function KeyAt(header: seq<string>, i: nat): string {
    if i < |header| then header[i] else ColName(i)
  }

  function CellVal(c: Cell): Val {
    match c
    case None => Missing
    case Some(s) => Text(s)
  }

  /**
   * Line 47: the record of one table row. The comprehension inserts the
   * cells in order, so a later cell whose key repeats an earlier one's
   * overwrites it.
   */
  function RowRecord(header: seq<string>, r: TableRow): (rec: Row)
    ensures rec.Keys == set i | 0 <= i < |r| :: KeyAt(header, i)
  {
    if r == [] then map[]
    else
      var init := RowRecord(header, r[..|r| - 1]);
      assert forall i :: 0 <= i < |r| - 1 ==> r[..|r| - 1][i] == r[i];
      init[KeyAt(header, |r| - 1) := CellVal(r[|r| - 1])]
  }

  /** Keys past the header's end never collide with each other. */
  lemma ColNamesDistinct(i: nat, j: nat)
    requires i != j
    ensures ColName(i) != ColName(j)
  {
    if ColName(i) == ColName(j) {
      assert NatText(i) == ColName(i)[4..] == ColName(j)[4..] == NatText(j);
      NatTextValue(i);
      NatTextValue(j);
    }
  }

  /** A cell lands under its key unless a later cell of the same row has the same key. */
  lemma {:induction false} RowRecordLastWins(header: seq<string>, r: TableRow, i: nat)
    requires i < |r|
    requires forall j :: i < j < |r| ==> KeyAt(header, j) != KeyAt(header, i)
    ensures RowRecord(header, r)[KeyAt(header, i)] == CellVal(r[i])
  {
    if i < |r| - 1 {
      var init := r[..|r| - 1];
      RowRecordLastWins(header, init, i);
      assert init[i] == r[i];
    }
  }

  /** No two of the first `n` cells share a key. */
  predicate DistinctKeys(header: seq<string>, n: nat) {
    forall i, j :: 0 <= i < j < n ==> KeyAt(header, i) != KeyAt(header, j)
  }

  /** With distinct header names, every cell of the row lands under its own key. */
  lemma RowRecordSpec(header: seq<string>, r: TableRow)
    requires DistinctKeys(header, |r|)
    ensures forall i :: 0 <= i < |r| ==> RowRecord(header, r)[KeyAt(header, i)] == CellVal(r[i])
  {
    forall i | 0 <= i < |r|
      ensures RowRecord(header, r)[KeyAt(header, i)] == CellVal(r[i])
    {
      RowRecordLastWins(header, r, i);
    }
  }

  /** A row no longer than its header never produces a `col_` key. */
  lemma ShortRowKeys(header: seq<string>, r: TableRow)
    requires |r| <= |header|
    ensures RowRecord(header, r).Keys == set i | 0 <= i < |r| :: header[i]
  {
    forall x | x in RowRecord(header, r).Keys
      ensures x in set i | 0 <= i < |r| :: header[i]
    {
      var i :| 0 <= i < |r| && x == KeyAt(header, i);
      assert x == header[i];
    }
    forall i | 0 <= i < |r|
      ensures header[i] in RowRecord(header, r).Keys
    {
      assert header[i] == KeyAt(header, i);
    }
  }

  /** The cells past the header's end are all kept, each under its own `col_` key. */
  lemma OverflowCellsKept(header: seq<string>, r: TableRow, i: nat)
    requires |header| <= i < |r|
    ensures ColName(i) in RowRecord(header, r) && RowRecord(header, r)[ColName(i)] == CellVal(r[i])
  {
    forall j | i < j < |r|
      ensures KeyAt(header, j) != KeyAt(header, i)
    {
      ColNamesDistinct(i, j);
    }
    RowRecordLastWins(header, r, i);
  }

  // ---------------------------------------------------------------- collecting the rows

  /** `tables or []`: a page without tables contributes none. */
  function PageTables(page: Option<seq<Table>>): seq<Table> {
    match page
    case None => []
    case Some(ts) => ts
  }

  /** Every table has a header row, as line 45 reads `table[0]`. */
  predicate HaveHeaders(ts: seq<Table>) {
    forall q :: 0 <= q < |ts| ==> |ts[q]| > 0
  }

  predicate PagesHaveHeaders(pages: seq<Option<seq<Table>>>) {
    forall p :: 0 <= p < |pages| ==> HaveHeaders(PageTables(pages[p]))
  }

  /** Lines 46-48 for one table: one record per row after the header row. */
  function TableRows(t: Table): (rows: seq<Row>)
    requires |t| > 0
  {
    seq(|t| - 1, j requires 0 <= j < |t| - 1 => RowRecord(Header(t[0]), t[j + 1]))
  }

  /** The records of a page's tables, table after table. */
  function TablesRows(ts: seq<Table>): seq<Row>
    requires HaveHeaders(ts)
  {
    if ts == [] then [] else TablesRows(ts[..|ts| - 1]) + TableRows(ts[|ts| - 1])
  }

  /** The records of all pages, page after page. */
  function PagesRows(pages: seq<Option<seq<Table>>>): seq<Row>
    requires PagesHaveHeaders(pages)
  {
    if pages == [] then []
    else PagesRows(pages[..|pages| - 1]) + TablesRows(PageTables(pages[|pages| - 1]))
  }

  /** Lines 40-48: the nested page, table and row loops appending to `rows`. */
  method CollectRows(pages: seq<Option<seq<Table>>>) returns (rows: seq<Row>)
    requires PagesHaveHeaders(pages)
    ensures rows == PagesRows(pages)
  {
    rows := [];
    var p := 0;
    while p < |pages|
      invariant p <= |pages|
      invariant rows == PagesRows(pages[..p])
    {
      rows := CollectPage(rows, PageTables(pages[p]));
      assert pages[..p + 1][..p] == pages[..p];
      p := p + 1;
    }
    assert pages[..p] == pages;
  }

  /** Lines 44-48 for one page: its tables one after the other. */
  method CollectPage(before: seq<Row>, tables: seq<Table>) returns (rows: seq<Row>)
    requires HaveHeaders(tables)
    ensures rows == before + TablesRows(tables)
  {
    rows := before;
    var q := 0;
    while q < |tables|
      invariant q <= |tables|
      invariant rows == before + TablesRows(tables[..q])
    {
      rows := CollectTable(rows, tables[q]);
      assert tables[..q + 1][..q] == tables[..q];
      q := q + 1;
    }
    assert tables[..q] == tables;
  }

  /** Lines 45-48 for one table: the header is cleaned, then every later row is appended. */
  method CollectTable(before: seq<Row>, table: Table) returns (rows: seq<Row>)
    requires |table| > 0
    ensures rows == before + TableRows(table)
  {
    var header := Header(table[0]);
    rows := before;
    var j := 1;
    while j < |table|
      invariant 1 <= j <= |table|
      invariant rows == before + TableRows(table)[..j - 1]
    {
      rows := rows + [RowRecord(header, table[j])];
      j := j + 1;
    }
    assert TableRows(table)[..j - 1] == TableRows(table);
  }

  /** How many tables the pages hold. */
  function TableCount(pages: seq<Option<seq<Table>>>): nat {
    if pages == [] then 0 else |PageTables(pages[0])| + TableCount(pages[1..])
  }

  /** How many rows, header rows included, the tables of the pages hold. */
  function RowCount(ts: seq<Table>): nat {
    if ts == [] then 0 else |ts[0]| + RowCount(ts[1..])
  }

  function PagesRowCount(pages: seq<Option<seq<Table>>>): nat {
    if pages == [] then 0 else RowCount(PageTables(pages[0])) + PagesRowCount(pages[1..])
  }

  lemma {:induction false} RowCountAppend(ts: seq<Table>, t: Table)
    ensures RowCount(ts + [t]) == RowCount(ts) + |t|
  {
    if ts != [] {
      RowCountAppend(ts[1..], t);
      assert (ts + [t])[1..] == ts[1..] + [t];
    }
  }

  /** Every row but a table's header row becomes exactly one record. */
  lemma {:induction false} TablesRowsCount(ts: seq<Table>)
    requires HaveHeaders(ts)
    ensures |TablesRows(ts)| + |ts| == RowCount(ts)
  {
    if ts != [] {
      var init := ts[..|ts| - 1];
      TablesRowsCount(init);
      RowCountAppend(init, ts[|ts| - 1]);
      assert init + [ts[|ts| - 1]] == ts;
    }
  }

  lemma {:induction false} PagesCountAppend(pages: seq<Option<seq<Table>>>, page: Option<seq<Table>>)
    ensures TableCount(pages + [page]) == TableCount(pages) + |PageTables(page)|
    ensures PagesRowCount(pages + [page]) == PagesRowCount(pages) + RowCount(PageTables(page))
  {
    if pages != [] {
      PagesCountAppend(pages[1..], page);
      assert (pages + [page])[1..] == pages[1..] + [page];
    }
  }

  /** Over all pages: the records plus one header row per table are all the rows. */
  lemma {:induction false} PagesRowsCount(pages: seq<Option<seq<Table>>>)
    requires PagesHaveHeaders(pages)
    ensures |PagesRows(pages)| + TableCount(pages) == PagesRowCount(pages)
  {
    if pages != [] {
      var init := pages[..|pages| - 1];
      var last := pages[|pages| - 1];
      PagesRowsCount(init);
      TablesRowsCount(PageTables(last));
      PagesCountAppend(init, last);
      assert init + [last] == pages;
    }
  }

  /** Each record of a table is the keyed form of one of its rows after the header. */
  lemma {:induction false} TablesRowsOrigin(ts: seq<Table>, k: nat)
    requires HaveHeaders(ts) && k < |TablesRows(ts)|
    ensures exists q, j ::
      0 <= q < |ts| && 1 <= j < |ts[q]| && TablesRows(ts)[k] == RowRecord(Header(ts[q][0]), ts[q][j])
  {
    var init := ts[..|ts| - 1];
    var last := ts[|ts| - 1];
    if k < |TablesRows(init)| {
      TablesRowsOrigin(init, k);
      var q, j :| 0 <= q < |init| && 1 <= j < |init[q]| &&
        TablesRows(init)[k] == RowRecord(Header(init[q][0]), init[q][j]);
      assert init[q] == ts[q];
    } else {
      var j := k - |TablesRows(init)| + 1;
      assert TablesRows(ts)[k] == TableRows(last)[j - 1];
      assert ts[|ts| - 1] == last;
    }
  }

  // ---------------------------------------------------------------- renaming

  /** Line 52: `str(col).lower().strip()`. */
  function Folded(col: string): string {
    Strip(Lower(col))
  }

  /** The names the rename rule can give. */
  const Canonical := {"Date", "Description", "Amount", "Ref ID"}

  /** Lines 53-56: the first rule that fits the folded name gives the new name; None keeps the column's name. */
  function RenameRule(col: string): (r: Option<string>)
    ensures r.Some? ==> r.value in Canonical
  {
    var low := Folded(col);
    if low == "date" then Some("Date")
    else if Contains(low, "description") then Some("Description")
    else if Contains(low, "amount") then Some("Amount")
    else if Contains(low, "ref") || low == "id" || low == "ref id" then Some("Ref ID")
    else None
  }

  /** The name a column has after line 57. */
  function RenamedName(col: string): string {
    match RenameRule(col)
    case Some(n) => n
    case None => col
  }

  /** Text holding none of the character `c` does not contain a text that holds it. */
  lemma {:induction false} MissingCharNotContained(s: string, t: string, c: char)
    requires c in t && c !in s
    ensures !Contains(s, t)
    decreases |s|
  {
    if |s| > 0 {
      MissingCharNotContained(s[1..], t, c);
    }
  }

  /** A text contains whatever starts at one of its offsets. */
  lemma ContainedAt(s: string, t: string, i: nat)
    requires i + |t| <= |s| && s[i..i + |t|] == t
    ensures Contains(s, t)
  {
    assert IsPrefix(t, s[i..]);
    ContainsSpec(s, t);
  }

  lemma LowerUpperInvariant(col: string)
    ensures Lower(Upper(col)) == Lower(col)
    ensures Lower(Lower(col)) == Lower(col)
  {
  }

  /** The rule ignores letter case. */
  lemma RenameCaseInsensitive(col: string)
    ensures RenameRule(Upper(col)) == RenameRule(col)
    ensures RenameRule(Lower(col)) == RenameRule(col)
  {
    LowerUpperInvariant(col);
  }

  /** The rule ignores leading whitespace. */
  lemma RenameIgnoresIndent(col: string)
    ensures RenameRule(" " + col) == RenameRule(col)
  {
    assert Lower(" " + col) == " " + Lower(col);
    assert TrimStart(" " + Lower(col)) == TrimStart(Lower(col));
  }

  /** A lower-case name without surrounding whitespace folds to itself. */
  lemma FoldedAs(col: string, low: string)
    requires Lower(col) == low
    requires low == [] || (!IsSpace(low[0]) && !IsSpace(low[|low| - 1]))
    ensures Folded(col) == low
  {
    StripUnchanged(low);
  }

  /** Without a 'p', an 'm' or an 'f' a folded name fits none of the three containment rules. */
  lemma FitsNoContainment(low: string)
    requires 'p' !in low && 'm' !in low && 'f' !in low
    ensures !Contains(low, "description") && !Contains(low, "amount") && !Contains(low, "ref")
  {
    MissingCharNotContained(low, "description", 'p');
    MissingCharNotContained(low, "amount", 'm');
    MissingCharNotContained(low, "ref", 'f');
  }

  lemma DateKept(col: string)
    requires col == "Date"
    ensures RenameRule(col) == Some("Date")
  {
    FoldedAs(col, "date");
  }

  lemma DescriptionKept(col: string)
    requires col == "Description"
    ensures RenameRule(col) == Some("Description")
  {
    var low := "description";
    FoldedAs(col, low);
    ContainedAt(low, "description", 0);
  }

  lemma AmountKept(col: string)
    requires col == "Amount"
    ensures RenameRule(col) == Some("Amount")
  {
    var low := "amount";
    FoldedAs(col, low);
    MissingCharNotContained(low, "description", 'd');
    ContainedAt(low, "amount", 0);
  }

  lemma RefIdKept(col: string)
    requires col == "Ref ID"
    ensures RenameRule(col) == Some("Ref ID")
  {
    var low := "ref id";
    FoldedAs(col, low);
    MissingCharNotContained(low, "description", 's');
    MissingCharNotContained(low, "amount", 'a');
    ContainedAt(low, "ref", 0);
  }

  /** Renaming a renamed column changes nothing more: each canonical name keeps itself. */
  lemma RenameIdempotent(col: string)
    ensures RenamedName(RenamedName(col)) == RenamedName(col)
  {
    match RenameRule(col)
    case None =>
    case Some(n) =>
      if n == "Date" {
        DateKept(n);
      } else if n == "Description" {
        DescriptionKept(n);
      } else if n == "Amount" {
        AmountKept(n);
      } else {
        RefIdKept(n);
      }
  }

  /** A folded name that is none of the exact names and lacks 'p', 'm' and 'f' fits no rule. */
  lemma KeptWhenNoneFits(col: string, low: string)
    requires Folded(col) == low && low != "date" && low != "id" && low != "ref id"
    requires 'p' !in low && 'm' !in low && 'f' !in low
    ensures RenameRule(col) == None
  {
    FitsNoContainment(low);
  }

  /** A folded name holding "description" and not exactly "date" is the description. */
  lemma DescriptionFits(col: string, low: string, i: nat)
    requires Folded(col) == low && low != "date"
    requires i + 11 <= |low| && low[i..i + 11] == "description"
    ensures RenameRule(col) == Some("Description")
  {
    ContainedAt(low, "description", i);
  }

  /** A folded name holding "amount" but no 'p' (so no "description") is the amount. */
  lemma AmountFits(col: string, low: string, i: nat)
    requires Folded(col) == low && low != "date" && 'p' !in low
    requires i + 6 <= |low| && low[i..i + 6] == "amount"
    ensures RenameRule(col) == Some("Amount")
  {
    MissingCharNotContained(low, "description", 'p');
    ContainedAt(low, "amount", i);
  }

  /** A date column with a qualifier fits no rule and keeps its name. */
  lemma QualifiedDateKept(col: string)
    requires col == "Transaction Date"
    ensures RenameRule(col) == None
  {
    var low := "transaction date";
    FoldedAs(col, low);
    KeptWhenNoneFits(col, low);
  }

  /** A name fitting two rules takes the first: a description rule beats an amount rule. */
  lemma FirstRuleWins(col: string)
    requires col == "Amount Description"
    ensures RenameRule(col) == Some("Description")
  {
    var low := "amount description";
    FoldedAs(col, low);
    DescriptionFits(col, low, 7);
  }

  /** A qualified amount column is the amount. */
  lemma DebitAmountIsAmount(col: string)
    requires col == "Debit Amount"
    ensures RenameRule(col) == Some("Amount")
  {
    var low := "debit amount";
    FoldedAs(col, low);
    AmountFits(col, low, 6);
  }

  /** A bare "id", padded and in capitals, is the reference. */
  lemma PaddedIdIsRef(col: string)
    requires col == " ID "
    ensures RenameRule(col) == Some("Ref ID")
  {
    assert Lower(col) == " id ";
    assert TrimStart(" id ") == "id ";
    assert TrimEnd("id ") == "id";
    FitsNoContainment("id");
  }

  /** The rename map of lines 50-56 for the given columns. */
  function RenameMap(cols: set<string>): (m: map<string, string>)
    ensures m.Keys <= cols
  {
    map c | c in cols && RenameRule(c).Some? :: RenameRule(c).value
  }

  /** Lines 50-56: the loop over the columns filling `rename_map`. */
  method BuildRenameMap(cols: set<string>) returns (m: map<string, string>)
    ensures forall c :: c in cols ==> (c in m <==> RenameRule(c).Some?)
    ensures forall c :: c in m ==> c in cols && m[c] == RenameRule(c).value
  {
    m := map[];
    var rest := cols;
    while rest != {}
      invariant rest <= cols
      invariant forall c :: c in cols - rest ==> (c in m <==> RenameRule(c).Some?)
      invariant forall c :: c in m ==> c in cols - rest && m[c] == RenameRule(c).value
      decreases |rest|
    {
      var col :| col in rest;
      var low := Strip(Lower(col));
      if low == "date" {
        m := m[col := "Date"];
      } else if Contains(low, "description") {
        m := m[col := "Description"];
      } else if Contains(low, "amount") {
        m := m[col := "Amount"];
      } else if Contains(low, "ref") || low == "id" || low == "ref id" {
        m := m[col := "Ref ID"];
      }
      rest := rest - {col};
    }
  }

  /** The name `df.rename` gives a column under the map `m`. */
  function Renamed(m: map<string, string>, k: string): string {
    if k in m then m[k] else k
  }

  /** No two columns end up with the same name. */
  predicate KeptApart(cols: set<string>, m: map<string, string>) {
    forall a, b :: a in cols && b in cols && Renamed(m, a) == Renamed(m, b) ==> a == b
  }

  /** Line 57 on one record: every cell moves to its column's new name. */
  function RenameRecord(rec: Row, m: map<string, string>): (r: Row)
    requires KeptApart(rec.Keys, m)
    ensures r.Keys == set k | k in rec.Keys :: Renamed(m, k)
    ensures forall k :: k in rec ==> r[Renamed(m, k)] == rec[k]
  {
    map k | k in rec.Keys :: Renamed(m, k) := rec[k]
  }

  /** Lines 49, 57 and 58: the frame's records, completed to all columns, then renamed. */
  function FrameRecords(rows: seq<Row>, cols: set<string>, m: map<string, string>): (out: seq<Row>)
    requires KeptApart(cols, m)
    ensures |out| == |rows|
    ensures forall i :: 0 <= i < |out| ==> out[i].Keys == set k | k in cols :: Renamed(m, k)
    ensures forall i, k :: 0 <= i < |out| && k in cols ==> out[i][Renamed(m, k)] == Get(rows[i], k)
  {
    seq(|rows|, i requires 0 <= i < |rows| => RenameRecord(Fill(rows[i], cols), m))
  }

  /** The rename map renames each of its columns exactly as the rule says. */
  lemma RenameMapRenames(cols: set<string>, m: map<string, string>)
    requires forall c :: c in cols ==> (c in m <==> RenameRule(c).Some?)
    requires forall c :: c in m ==> c in cols && m[c] == RenameRule(c).value
    ensures forall k :: k in cols ==> Renamed(m, k) == RenamedName(k)
  {
  }

  /** No two of the columns get the same new name by the rule. */
  predicate NamesApart(cols: set<string>) {
    forall a, b :: a in cols && b in cols && RenamedName(a) == RenamedName(b) ==> a == b
  }

  /**
   * Lines 40-58 after extraction: the collected records, completed to the
   * frame's columns, with every column renamed by the rule.
   */
  method ReadBankTables(pages: seq<Option<seq<Table>>>) returns (columns: set<string>, records: seq<Row>)
    requires PagesHaveHeaders(pages)
    requires NamesApart(Columns(PagesRows(pages)))
    ensures columns == set k | k in Columns(PagesRows(pages)) :: RenamedName(k)
    ensures |records| == |PagesRows(pages)|
    ensures forall i :: 0 <= i < |records| ==> records[i].Keys == columns
    ensures forall i, k :: 0 <= i < |records| && k in Columns(PagesRows(pages)) ==>
      records[i][RenamedName(k)] == Get(PagesRows(pages)[i], k)
  {
    var rows := CollectRows(pages);
    var cols := Columns(rows);
    var m := BuildRenameMap(cols);
    RenameMapRenames(cols, m);
    columns := set k | k in cols :: Renamed(m, k);
    records := FrameRecords(rows, cols, m);
  }
}
