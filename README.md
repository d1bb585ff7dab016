# Financial reconciliation core, modelled in Dafny

This project models the deterministic core of the agentic financial
reconciliation pipeline. An ERP ledger (invoices with an Invoice ID and an
Amount) is reconciled against a bank statement (transactions with a Date, a
Description and an Amount) in four steps:

- **Bank table reading** (`read_bank_pdf`, after PDF extraction) cleans each
  table's header and keys every later row by it. It then renames the columns
  by a first-rule-wins, case-insensitive rule (`Date`, `Description`,
  `Amount`, `Ref ID`).
- **Normalization** (`normalize_erp`, `normalize_bank`) works column by column:
  - dates become ISO `YYYY-MM-DD` text or None;
  - amounts lose their commas and are rounded to cents;
  - ERP invoice ids are stripped and upper-cased, and statuses are stripped
    and title-cased;
  - a bank Invoice ID is derived from the Description: the first
    `INV[-\s]?digits` match, zero-padded to four digits.
- **Matching** (`_match_row`, `match_records`) is one greedy pass in ERP order:
  - filter the bank rows by exact invoice id;
  - rank them by amount gap, then by description similarity;
  - resolve the winner to the first bank row with the same Date and Amount;
  - book that row unless it is already used, with no fallback.
- **Classification** (`classify_discrepancies`) drops repeated
  (ERP, bank) pairs. It labels each pair by its amount difference against a
  5-cent tolerance, with a Duplicate override. It then reports the unmatched
  records as Missing in Bank or Missing in ERP.
- **Reporting** (`export_outputs`, without the file output) flattens each
  result into one row with its rationale joined by `" | "`, and counts rows
  per status.

## How the model is organised

- **Cells.** A cell is `Val = Missing | Text(s) | Num(cents)`, and a record
  is a `map<string, Val>`.
  - Amounts are integers in cents, so the 0.05 tolerance is exact.
  - `Missing` is Python's `None`; `str(None)` is `"None"`.
  - A column a record lacks reads as `Missing`, as after pandas fills it.
- **Normalization** is pure functions on records. The in-place column passes
  are methods over an `array<Row>`, proved equal to those functions.
- **Matching** is specified by the functions `BestCandidate`, `ProposalFor`,
  `Greedy` and `MatchSpec`. The loops (`RankCandidates`, `BookAll`,
  `MatchRecords`) are methods proved against them.
- **Classification** is specified by `ClassifySpec`. The loops are the
  methods `ClassifyPairs`, `ReportMissingBank`, `ReportMissingErp` and
  `Classify`.
- **Parameters.** The date parser (`dateutil`) and the fuzzy matcher
  (`rapidfuzz.fuzz.partial_ratio`) are function parameters of the model:
  `DateParser` returns an optional calendar date, and `Similarity` returns a
  real number of points between 0 and 100, fraction included.
- **Pipeline** runs the stages end to end on a three-invoice ledger and a
  two-line statement. The report is an exact match, a 3-cent rounding
  difference and an invoice missing from the bank.

`_match_row` (src/tools/match_tools.py:9-20) ranks every bank row that
passes the id filter, including rows an earlier ERP record already booked. A
winner that is already booked leaves the ERP record unmatched: there is no
fallback to the next candidate.

## Model

| member | source | states |
|---|---|---|
| Text.TrimStart | src/tools/normalize_tools.py:39 | `lstrip` drops only leading whitespace and leaves a text that does not start with whitespace |
| Text.TrimEnd | src/tools/normalize_tools.py:39 | `rstrip` drops only trailing whitespace and leaves a text that does not end with whitespace |
| Text.TrimStartSlice | src/tools/normalize_tools.py:39 | the left-stripped text is a suffix of the input |
| Text.TrimEndSlice | src/tools/normalize_tools.py:39 | the right-stripped text is a prefix of the input |
| Text.Strip | src/tools/normalize_tools.py:39 | `strip` never lengthens the text |
| Text.StripEnds | src/tools/normalize_tools.py:39 | a stripped text neither starts nor ends with whitespace |
| Text.StripUnchanged | src/tools/normalize_tools.py:39 | a text without surrounding whitespace is its own strip |
| Text.StripIdempotent | src/tools/normalize_tools.py:39 | stripping twice is stripping once |
| Text.Upper | src/tools/normalize_tools.py:39 | `upper` keeps the length |
| Text.UpperSpec | src/tools/normalize_tools.py:39 | `upper` leaves no lower-case letter and changes each character only in case |
| Text.UpperUnchanged | src/tools/normalize_tools.py:39 | a text without lower-case letters is its own upper-case form |
| Text.UpperIdempotent | src/tools/normalize_tools.py:39 | upper-casing twice is upper-casing once |
| Text.StripUpperIdempotent | src/tools/normalize_tools.py:39 | the Invoice ID rewrite `strip().upper()` is idempotent |
| Text.Lower | src/tools/file_tools.py:52 | `lower` keeps the length |
| Text.Title | src/tools/normalize_tools.py:40 | `title` keeps the length |
| Text.TitleSpec | src/tools/normalize_tools.py:40 | `title` yields words that start upper-case and go on lower-case, and changes only letter case |
| Text.TitleIdempotent | src/tools/normalize_tools.py:40 | title-casing twice is title-casing once |
| Text.StripTitleIdempotent | src/tools/normalize_tools.py:40 | the Status rewrite `strip().title()` is idempotent |
| Text.ContainsSpec | src/tools/file_tools.py:54-56 | `t in s` holds exactly when `t` occurs at some offset of `s` |
| Text.NatText | src/tools/file_tools.py:47 | `str(n)` is a non-empty digit string with no leading zero unless n is 0 |
| Text.NatTextValue | src/tools/file_tools.py:47 | the digits of `str(n)` read back as n |
| Text.ZFill | src/tools/normalize_tools.py:65 | `zfill(w)` has width w, or the input's length if that is longer |
| Text.ZFillValue | src/tools/normalize_tools.py:65 | zero-padding keeps the digits as a suffix and their value |
| Text.ZFillOfValue | src/tools/normalize_tools.py:11 | a digit string of width w is `str(v).zfill(w)` of its own value v |
| Values.Columns | src/tools/normalize_tools.py:36 | every key of every record is a column of the frame |
| Values.ColumnsFromRecords | src/tools/normalize_tools.py:36 | every column of the frame is a key of some record |
| Values.Fill | src/tools/normalize_tools.py:41 | a record from `to_dict` carries every column, with a missing cell where the input had none |
| Values.CellText | src/tools/normalize_tools.py:39 | defines `str(cell)`: None is "None", text is itself, a number is its float text (see `Amounts.FloatTextCents`) |
| Values.OrEmpty | src/tools/match_tools.py:7 | defines `str(cell or "")`: the falsy cells None and 0 give "" |
| Values.OutsideSpec | src/tools/match_tools.py:52-53 | the unmatched list is increasing and holds exactly the indices below n outside the set |
| Values.AmongSpec | src/tools/discrepancy_tools.py:24-25 | the set's indices below n, listed in increasing order |
| Values.OutsideAmongLength | src/tools/match_tools.py:52-53 | every index below n is listed by exactly one of the two lists |
| Values.OutsideCount | src/tools/match_tools.py:52-53 | the unlisted indices and the set together count n |
| Values.AmongCount | src/tools/discrepancy_tools.py:24-25 | each member of the set is listed once |
| Values.AscendingSpec | src/tools/discrepancy_tools.py:24-25 | the model's fixed iteration order for `set(xs)`: each distinct element once, in increasing order |
| Amounts.RemoveCommas | src/tools/normalize_tools.py:17 | `replace(',', '')` leaves no comma and never lengthens the text |
| Amounts.RemoveCommasKeepsRest | src/tools/normalize_tools.py:17 | text without commas is unchanged |
| Amounts.ParseDecimal | src/tools/normalize_tools.py:17 | a parsed `float()` literal has a digit string on both sides of the point |
| Amounts.RoundHalfEven | src/tools/normalize_tools.py:17 | defines Python's `round` to a step: nearest, ties to even (proved in `Amounts.RoundingIsNearest`) |
| Amounts.Cents | src/tools/normalize_tools.py:17 | defines `round(value, 2)` in cents (proved in `Amounts.CentsSpec`) |
| Amounts.ToAmount | src/tools/normalize_tools.py:15-19 | defines `_to_amount`: commas removed, parsed, rounded to cents, None when it does not parse (see `Amounts.ToAmountIdempotent`, `Amounts.ThousandsSeparator`) |
| Amounts.PlainDecimalParses | src/tools/normalize_tools.py:17 | "1234.50" parses to whole part 1234 and fraction 50 |
| Amounts.PlainDecimalCents | src/tools/normalize_tools.py:17 | that literal is 123450 cents |
| Amounts.RoundingIsNearest | src/tools/normalize_tools.py:17 | `round` moves by at most half a step and breaks ties to even |
| Amounts.CentsSpec | src/tools/normalize_tools.py:17 | `round(x, 2)` is exact with two decimals or fewer, otherwise within half a cent, and keeps the sign |
| Amounts.ToAmountIgnoresCommas | src/tools/normalize_tools.py:17 | `_to_amount` of a text equals `_to_amount` of the text without commas |
| Amounts.ThousandsSeparator | src/tools/normalize_tools.py:15-19 | `_to_amount("1,234.50")` is 1234.50 |
| Amounts.CommaRemoved | src/tools/normalize_tools.py:17 | removing the commas from "1,234.50" gives "1234.50" |
| Amounts.Unparseable | src/tools/normalize_tools.py:15-19 | text that is not a number gives None |
| Amounts.MissingUnparseable | src/tools/normalize_tools.py:15-19 | a missing cell gives None |
| Amounts.NotANumber | src/tools/normalize_tools.py:15-19 | any text starting with a letter, with no point and no comma, gives None, unless it is `inf`, `infinity` or `nan` in any case, which `float()` reads as numbers |
| Amounts.SignedDecimalParses | src/tools/normalize_tools.py:17 | a signed literal with digits on both sides of the point parses to its parts |
| Amounts.FloatTextParses | src/tools/normalize_tools.py:17 | `str` of a two-decimal float parses back to its own sign, whole part and fraction |
| Amounts.FloatTextCents | src/tools/normalize_tools.py:17 | the cents that `str(cents / 100)` spells are those cents again |
| Amounts.FloatTextHasNoComma | src/tools/normalize_tools.py:17 | a rendered number has no comma for the comma removal to touch |
| Amounts.ToAmountIdempotent | src/tools/normalize_tools.py:15-19 | `_to_amount` applied to its own result returns that result |
| Amounts.ToAmountOfNumber | src/tools/normalize_tools.py:15-19 | a numeric cell is read back exactly |
| Dates.ToDate | src/tools/normalize_tools.py:7-13 | missing and empty cells give None; otherwise None exactly when the parser fails, and on success the ISO text of the parsed date, which parses back to that date |
| Dates.PaddedField | src/tools/normalize_tools.py:11 | a date field of w digits holds its value zero-padded to w |
| Dates.IsoRoundTrip | src/tools/normalize_tools.py:11 | reading the ISO text of a date gives the date back |
| Dates.IsoCanonical | src/tools/normalize_tools.py:11 | ISO text that parses is the ISO text of the date it parses to |
| Dates.ToDateIdempotent | src/tools/normalize_tools.py:7-13 | with a parser that reads ISO text back, `_to_date` of a normalized date changes nothing |
| Normalize.DigitStart | src/tools/normalize_tools.py:64 | a match at p puts its digits right after "INV", or after one separator |
| Normalize.DigitRun | src/tools/normalize_tools.py:64 | `\d+` takes the longest digit run from its start |
| Normalize.Search | src/tools/normalize_tools.py:64 | a search result is a matching offset at or after the start |
| Normalize.SearchSpec | src/tools/normalize_tools.py:64 | `re.search` finds the leftmost match, and finds none only when there is none |
| Normalize.SearchSkips | src/tools/normalize_tools.py:64 | the search skips every offset where no match starts and stops at the first where one does |
| Normalize.ExtractInv | src/tools/normalize_tools.py:62-65 | defines `extract_inv`: None for non-text, otherwise "INV" and the first match's digits zero-padded to four (proved in `Normalize.ExtractInvSpec`) |
| Normalize.ExtractInvSpec | src/tools/normalize_tools.py:62-65 | None exactly when nothing matches; otherwise "INV" and the leftmost digit run zero-padded to four, a longer run kept whole |
| Normalize.InvDigitsUpper | src/tools/normalize_tools.py:65 | "INV" and digits is its own upper-case form |
| Normalize.InvIdShape | src/tools/normalize_tools.py:65 | a derived id has at least 7 characters, starts "INV", then digits, and is its own `strip().upper()` |
| Normalize.ExtractedIdShape | src/tools/normalize_tools.py:62-65 | every id `extract_inv` returns has that shape |
| Normalize.ExtractPaddedId | src/tools/normalize_tools.py:62-65 | "Payment INV0001" gives "INV0001" |
| Normalize.ExtractShortId | src/tools/normalize_tools.py:64-65 | "paid inv-7" gives "INV0007": any case, one separator, padding to four |
| Normalize.NormalizeErpRow | src/tools/normalize_tools.py:37-40 | an ERP record keeps its columns |
| Normalize.NormalizeErpCell | src/tools/normalize_tools.py:37-40 | defines the rewrite of one ERP cell by its column: Date by `_to_date`, Amount by `_to_amount`, Invoice ID stripped and upper-cased, Status stripped and title-cased, others kept (see `Normalize.ErpCellIdempotent`) |
| Normalize.ErpRecords | src/tools/normalize_tools.py:36-41 | each record is filled to the frame's columns and then normalized, in order |
| Normalize.NormalizeErp | src/tools/normalize_tools.py:36-41 | one record out per record in, in order, each with every column of the frame |
| Normalize.NormalizeBankRow | src/tools/normalize_tools.py:59-66 | a bank record gains an Invoice ID column exactly when it has a Description |
| Normalize.NormalizeBankCell | src/tools/normalize_tools.py:59-66 | defines the rewrite of one bank cell: Invoice ID from the Description when there is one, Date and Amount as for the ERP, others kept (see `Normalize.BankRowShape`) |
| Normalize.BankRecords | src/tools/normalize_tools.py:58-67 | each record is filled to the frame's columns and then normalized, and has those columns plus Invoice ID when Description is one |
| Normalize.NormalizeBank | src/tools/normalize_tools.py:58-67 | one record out per record in, in order; Invoice ID is added exactly when a Description column exists |
| Normalize.ErpCellIdempotent | src/tools/normalize_tools.py:37-40 | normalizing an ERP cell twice is normalizing it once |
| Normalize.ErpRowIdempotent | src/tools/normalize_tools.py:37-40 | normalizing an ERP record twice is normalizing it once |
| Normalize.NormalizeErpIdempotent | src/tools/normalize_tools.py:36-41 | `normalize_erp` of its own output changes nothing |
| Normalize.BankRowIdempotent | src/tools/normalize_tools.py:59-66 | normalizing a bank record twice is normalizing it once |
| Normalize.BankRecordStable | src/tools/normalize_tools.py:58-67 | a normalized bank record, refilled and normalized again, is unchanged |
| Normalize.NormalizeBankIdempotent | src/tools/normalize_tools.py:58-67 | `normalize_bank` of its own output changes nothing |
| Normalize.ErpPassThrough | src/tools/normalize_tools.py:36-41 | ERP columns other than Date, Amount, Invoice ID and Status pass through unchanged |
| Normalize.BankPassThrough | src/tools/normalize_tools.py:58-67 | bank columns other than Date, Amount and Invoice ID pass through unchanged |
| Normalize.NormalizedErpShape | src/tools/normalize_tools.py:37-39 | normalized ERP amounts are numbers or missing, ids are stripped upper-case text, dates are ISO text or missing |
| Normalize.BankRowShape | src/tools/normalize_tools.py:61-66 | a normalized bank record's amount is not text and its derived id is missing or of INV shape |
| Normalize.NormalizedBankShape | src/tools/normalize_tools.py:58-67 | the same for every record of `normalize_bank` |
| Normalize.ErpColumnStep | src/tools/normalize_tools.py:37-40 | one column pass rewrites that column's cell and no other |
| Normalize.ErpPassesSpec | src/tools/normalize_tools.py:37-40 | the four column passes in turn normalize every cell once |
| Normalize.ApplyToRecords | src/tools/normalize_tools.py:37 | `apply` replaces each record by the function's result, in place |
| Normalize.ErpPass | src/tools/normalize_tools.py:37-40 | a guarded column pass is that column's step on every record |
| Normalize.NormalizeErpTable | src/tools/normalize_tools.py:36-41 | the in-place passes leave the table equal to `normalize_erp` of its records |
| Normalize.BankColumnStep | src/tools/normalize_tools.py:59-60 | a Date or Amount pass rewrites that column's cell and no other |
| Normalize.InvoiceStep | src/tools/normalize_tools.py:61-66 | the id pass adds or overwrites only Invoice ID, from the Description, when there is one |
| Normalize.BankPassesSpec | src/tools/normalize_tools.py:59-66 | the passes in turn give the normalized bank record, since the id is derived from the untouched Description |
| Normalize.BankPass | src/tools/normalize_tools.py:59-60 | a guarded Date or Amount pass is that column's step on every record |
| Normalize.InvoicePass | src/tools/normalize_tools.py:61-66 | the guarded id pass is the id step on every record |
| Normalize.NormalizeBankTable | src/tools/normalize_tools.py:58-67 | the in-place passes leave the table equal to `normalize_bank` of its records |
| Matching.PrecedesIrreflexive | src/tools/match_tools.py:12-17 | no row sorts before itself |
| Matching.PrecedesTotal | src/tools/match_tools.py:12-17 | of two different rows one sorts first |
| Matching.PrecedesTransitive | src/tools/match_tools.py:12-17 | the sort order is transitive |
| Matching.InvoiceKey | src/tools/match_tools.py:7 | defines `inv`: the ERP id, or "" when falsy, stripped and upper-cased |
| Matching.Gap | src/tools/match_tools.py:12-14 | defines `amt_diff` in cents, None (NaN) for a row without amount, 0 for every row when there is no ranking by amount |
| Matching.DescScore | src/tools/match_tools.py:15-16 | defines `desc_score`: the similarity of the upper-cased Description to `inv`, untruncated, 0 when that column is not added |
| Matching.Score | src/tools/match_tools.py:21-22 | defines the returned score, in hundredths of a point: the description similarity truncated to an integer, less ten points per dollar of gap, a missing amount read as 0 (see `Pipeline.ScoreOfRow`) |
| Matching.BestCandidate | src/tools/match_tools.py:9-20 | `candidates.iloc[0]` is an existing bank position (its ranking is proved in `Matching.BestCandidateSpec`) |
| Matching.BestBelowSpec | src/tools/match_tools.py:9-20 | the first candidate below n: None iff there is none, otherwise a candidate ahead of every other |
| Matching.BestCandidateSpec | src/tools/match_tools.py:9-20 | `iloc[0]`: None iff no row passes the filter, otherwise a row with the ERP id that has the least gap and, among equal gaps, the highest untruncated similarity |
| Matching.LookupFromSpec | src/tools/match_tools.py:47-48 | the lookup finds the first row from k on with the same Date and Amount, or none |
| Matching.LookupOfRow | src/tools/match_tools.py:47-48 | a row is found iff its Date and Amount are present, and it is the first equal row, which may lie before the row itself |
| Matching.Lookup | src/tools/match_tools.py:47-48 | `idx[0]` is an existing bank position (proved first with equal Date and Amount in `Matching.LookupFromSpec`) |
| Matching.Proposals | src/tools/match_tools.py:44-48 | one proposal per ERP record, every position an existing bank row |
| Matching.ProposalsAt | src/tools/match_tools.py:44-48 | the i-th proposal is ERP record i's |
| Matching.RankCandidates | src/tools/match_tools.py:9-23 | one scan of the bank finds `BestCandidate` and its score |
| Matching.FindSameDateAmount | src/tools/match_tools.py:47-48 | one scan finds the positional lookup |
| Matching.Unlisted | src/tools/match_tools.py:52-53 | the comprehension computes `Outside` |
| Matching.Propose | src/tools/match_tools.py:45-48 | the per-record steps compute `ProposalFor` |
| Matching.BookOne | src/tools/match_tools.py:49-51 | booking computes `Book` |
| Matching.BookNext | src/tools/match_tools.py:44-51 | one loop turn advances the greedy state by one record |
| Matching.BookAll | src/tools/match_tools.py:43-51 | the loop computes the greedy state after all ERP records |
| Matching.MatchRecords | src/tools/match_tools.py:26-54 | `match_records` returns `MatchSpec` |
| Matching.ProposalForSpec | src/tools/match_tools.py:45-48 | a proposal exists iff there is a best candidate with Date and Amount; it then names the first row sharing them, which may not be the candidate's own, with the candidate's score and its bank record (without the added `amt_diff` and `desc_score` cells) |
| Matching.ProposalFor | src/tools/match_tools.py:45-48 | a proposal names an existing bank position (characterised in `Matching.ProposalForSpec`) |
| Matching.Book | src/tools/match_tools.py:49-51 | defines one booking: the proposed row is appended and marked used unless already used, with no fallback (see `Matching.BookBankBooked`) |
| Matching.Greedy | src/tools/match_tools.py:44-51 | defines the state after the first n ERP records of the loop (see `Matching.GreedyDecision`) |
| Matching.MatchSpec | src/tools/match_tools.py:26-54 | defines the result of `match_records`: the greedy matches and the two unmatched lists (see `Matching.MatchDecision`, `Matching.ErpPartition`, `Matching.BankPartition`) |
| Matching.BookErpOrdered | src/tools/match_tools.py:49-51 | booking keeps the matches in increasing ERP order |
| Matching.BookBankBooked | src/tools/match_tools.py:49-51 | booking never books a used bank row twice and keeps `used` equal to the booked rows |
| Matching.GreedyErpOrdered | src/tools/match_tools.py:44-51 | after any prefix of the pass, the matches are in increasing ERP order |
| Matching.GreedyBankBooked | src/tools/match_tools.py:44-51 | after any prefix, no bank row is booked twice |
| Matching.GreedyGrows | src/tools/match_tools.py:44-51 | matches are only appended, and later ones name later ERP records |
| Matching.MatchesExclusive | src/tools/match_tools.py:43-51 | no bank index appears twice, ERP indices are strictly increasing, all positions exist |
| Matching.IndexSetsSpec | src/tools/match_tools.py:43-51 | an ERP or bank index is in the booked set iff some match names it |
| Matching.ErpIndexSetSize | src/tools/match_tools.py:52 | matches in increasing ERP order name as many ERP records as there are matches |
| Matching.BankIndexSetSize | src/tools/match_tools.py:51 | matches with distinct bank rows make `used` as large as the matches |
| Matching.ErpUnmatchedSpec | src/tools/match_tools.py:52 | the ERP unmatched list is increasing, holds exactly the unmatched ERP positions, and with the matches counts all of them |
| Matching.ErpPartition | src/tools/match_tools.py:52 | the same for `match_records` |
| Matching.BankUnmatchedSpec | src/tools/match_tools.py:53 | the bank unmatched list is increasing, holds exactly the unbooked bank positions, and with the matches counts all of them |
| Matching.BankPartition | src/tools/match_tools.py:53 | the same for `match_records` |
| Matching.GreedyDecision | src/tools/match_tools.py:49-51 | record i is matched iff its proposal names a row no earlier record booked, and then to that proposal, with no fallback |
| Matching.MatchDecision | src/tools/match_tools.py:44-51 | the same for `match_records` |
| Discrepancy.AmountDiff | src/tools/discrepancy_tools.py:34-37 | the difference exists iff both amounts are present, and is their absolute difference |
| Discrepancy.AmountStatus | src/tools/discrepancy_tools.py:35-43 | Matched iff no difference or zero, Rounding difference iff 1 to 5 cents, 5 included, Amount mismatch iff more |
| Discrepancy.InvoiceOf | src/tools/discrepancy_tools.py:44 | defines `inv`: a text id stripped and upper-cased, "" for a missing one |
| Discrepancy.ColumnId | src/tools/discrepancy_tools.py:45-46 | defines one entry of `astype(str).str.upper()` on the Invoice ID column, without stripping |
| Discrepancy.RepeatedIn | src/tools/discrepancy_tools.py:45-46 | defines `dup_erp` / `dup_bank`: a non-empty id held more than once by a ledger with an Invoice ID column (see `Discrepancy.IdCountAtLeast`) |
| Discrepancy.IsDuplicate | src/tools/discrepancy_tools.py:45-47 | defines `dup_erp or dup_bank` |
| Discrepancy.PairResult | src/tools/discrepancy_tools.py:29-49 | defines the record for one pair (characterised in `Discrepancy.PairResultSpec`) |
| Discrepancy.Distinct | src/tools/discrepancy_tools.py:27-33 | defines the pairs that survive `seen_pairs`: each key at its first occurrence (proved in `Discrepancy.DistinctSpec`) |
| Discrepancy.ClassifySpec | src/tools/discrepancy_tools.py:21-54 | defines the result of `classify_discrepancies`: pair records, then Missing in Bank, then Missing in ERP (see `Discrepancy.ClassifyLayout`, `Discrepancy.UnmatchedReportedOnce`) |
| Discrepancy.PairResults | src/tools/discrepancy_tools.py:28-49 | one result per pair |
| Discrepancy.MissingBankRecords | src/tools/discrepancy_tools.py:50-51 | one record per unmatched ERP index |
| Discrepancy.MissingErpRecords | src/tools/discrepancy_tools.py:52-53 | one record per unmatched bank index |
| Discrepancy.ClassifyPair | src/tools/discrepancy_tools.py:34-49 | the step-by-step label, diff and rationale equal `PairResult` |
| Discrepancy.PairStep | src/tools/discrepancy_tools.py:28-49 | one loop turn extends `seen_pairs` and `results` by one pair |
| Discrepancy.ClassifyPairs | src/tools/discrepancy_tools.py:27-49 | the pair loop classifies each distinct pair once, in match order |
| Discrepancy.ReportMissingBank | src/tools/discrepancy_tools.py:50-51 | appends one Missing in Bank record per index |
| Discrepancy.ReportMissingErp | src/tools/discrepancy_tools.py:52-53 | appends one Missing in ERP record per index |
| Discrepancy.Classify | src/tools/discrepancy_tools.py:21-54 | `classify_discrepancies` returns `ClassifySpec` |
| Discrepancy.LabelsDistinct | src/tools/discrepancy_tools.py:35-53 | the six statuses have six different labels |
| Discrepancy.KeySetSpec | src/tools/discrepancy_tools.py:31-33 | `seen_pairs` holds exactly the keys of the pairs seen |
| Discrepancy.DistinctKeepsPairs | src/tools/discrepancy_tools.py:31-33 | de-duplication keeps only pairs of the input |
| Discrepancy.DistinctSpec | src/tools/discrepancy_tools.py:27-33 | de-duplication keeps every key once |
| Discrepancy.DistinctOfDistinct | src/tools/discrepancy_tools.py:31-33 | without repeated pairs nothing is dropped |
| Discrepancy.DistinctStep | src/tools/discrepancy_tools.py:31-33 | one more pair adds its key and is kept iff its key is new |
| Discrepancy.PairResultSpec | src/tools/discrepancy_tools.py:34-49 | a pair's diff is `AmountDiff`; Duplicate iff the id repeats, with the duplicate note last; otherwise the amount label; one note per present diff and per duplicate |
| Discrepancy.MissingAmountMatched | src/tools/discrepancy_tools.py:35-36 | a missing amount gives no diff and Matched with no note, unless Duplicate |
| Discrepancy.IdCountAtLeast | src/tools/discrepancy_tools.py:45-46 | two rows with the id count at least two |
| Discrepancy.IdCountPositive | src/tools/discrepancy_tools.py:45 | a record's own id counts at least once |
| Discrepancy.RepeatedErpIdIsDuplicate | src/tools/discrepancy_tools.py:44-48 | a second ERP record with the same id makes the pair Duplicate even when the amounts agree |
| Discrepancy.ClassifyLayout | src/tools/discrepancy_tools.py:27-54 | pair results in match order, then Missing in Bank, then Missing in ERP, each ascending |
| Discrepancy.ClassifyLength | src/tools/discrepancy_tools.py:24-54 | length is distinct pairs plus distinct unmatched indices on each side |
| Discrepancy.DistinctLength | src/tools/discrepancy_tools.py:31-33 | de-duplication never adds pairs |
| Discrepancy.MissingSegments | src/tools/discrepancy_tools.py:50-53 | after the pairs, each kind of missing record lists its indices in order |
| Discrepancy.MissingBankOnce | src/tools/discrepancy_tools.py:50-51 | an ERP index is reported Missing in Bank iff it is listed, at most once |
| Discrepancy.MissingErpOnce | src/tools/discrepancy_tools.py:52-53 | a bank index is reported Missing in ERP iff it is listed, at most once |
| Discrepancy.UnmatchedReportedOnce | src/tools/discrepancy_tools.py:24-53 | every unmatched index, and no other, is reported once on its side |
| Reporting.Flatten | src/tools/reporting_tools.py:29-31 | one report row per result, in order |
| Reporting.RowOf | src/tools/reporting_tools.py:31 | defines one report row: the indices, the status label, the diff and the joined rationale |
| Reporting.Join | src/tools/reporting_tools.py:31 | defines `sep.join(xs)` (proved in `Reporting.JoinLength`, `Reporting.JoinAt`) |
| Reporting.JoinLength | src/tools/reporting_tools.py:31 | the joined text is the entries plus one separator between each two |
| Reporting.JoinAt | src/tools/reporting_tools.py:31 | each entry sits in the joined text at its offset, so nothing is lost or reordered |
| Reporting.JoinShort | src/tools/reporting_tools.py:31 | an empty rationale gives "", a single entry gives itself |
| Reporting.JoinTwo | src/tools/reporting_tools.py:31 | two entries give the first, " \| ", the second |
| Reporting.Tally | src/tools/reporting_tools.py:46 | a status count never exceeds the rows |
| Reporting.LabelListed | src/tools/reporting_tools.py:46 | each status label is one of the six, listed once |
| Reporting.TallyPositive | src/tools/reporting_tools.py:46 | a count is positive iff the status occurs |
| Reporting.TallyTotal | src/tools/reporting_tools.py:46-50 | when each row carries one of the six labels, the counts sum to the total |
| Reporting.ValueCounts | src/tools/reporting_tools.py:46 | defines `value_counts().to_dict()`: each occurring status with its count (proved in `Reporting.ValueCountsSpec`) |
| Reporting.ValueCountsSpec | src/tools/reporting_tools.py:46 | `value_counts` lists exactly the occurring statuses with their counts |
| Reporting.ReportOfResults | src/tools/reporting_tools.py:29-50 | the counts of a classification's report sum to its "Total Records" |
| BankTable.HeaderName | src/tools/file_tools.py:45 | a header name has no surrounding whitespace; a non-string header is "" |
| BankTable.HeaderNameStable | src/tools/file_tools.py:45 | cleaning a cleaned header changes nothing |
| BankTable.Header | src/tools/file_tools.py:45 | defines `header`: the cleaned name of every cell of the first row |
| BankTable.RowRecord | src/tools/file_tools.py:47 | a record's keys are the keys of the row's cell positions |
| BankTable.KeyAt | src/tools/file_tools.py:47 | defines a cell's key: its header name, or `col_i` past the header's end (see `BankTable.ColNamesDistinct`) |
| BankTable.ColNamesDistinct | src/tools/file_tools.py:47 | different positions get different `col_i` keys |
| BankTable.RowRecordLastWins | src/tools/file_tools.py:47 | a cell lands under its key unless a later cell has the same key |
| BankTable.RowRecordSpec | src/tools/file_tools.py:47 | with distinct header names, each cell lands under its own key |
| BankTable.ShortRowKeys | src/tools/file_tools.py:47 | a row no longer than its header has only header keys |
| BankTable.OverflowCellsKept | src/tools/file_tools.py:47 | a cell past the header's end is kept under `col_i` |
| BankTable.CollectRows | src/tools/file_tools.py:40-48 | the nested loops append the records of all pages in order |
| BankTable.PageTables | src/tools/file_tools.py:44 | defines `tables or []`: a page without tables contributes none |
| BankTable.CollectPage | src/tools/file_tools.py:44-48 | a page appends the records of its tables in order |
| BankTable.CollectTable | src/tools/file_tools.py:45-48 | a table appends one record per row after its header |
| BankTable.TablesRowsCount | src/tools/file_tools.py:46-48 | records plus header rows equal the tables' rows |
| BankTable.PagesRowsCount | src/tools/file_tools.py:42-48 | over all pages, records plus one header per table equal all rows |
| BankTable.TablesRowsOrigin | src/tools/file_tools.py:46-48 | every record is the keyed form of a non-header row of some table |
| BankTable.RenameRule | src/tools/file_tools.py:53-56 | a renamed column gets one of the four canonical names |
| BankTable.Folded | src/tools/file_tools.py:52 | defines `str(col).lower().strip()` (see `BankTable.RenameCaseInsensitive`) |
| BankTable.RenameCaseInsensitive | src/tools/file_tools.py:52 | the rule ignores letter case |
| BankTable.RenameIgnoresIndent | src/tools/file_tools.py:52 | the rule ignores a leading space |
| BankTable.DateKept | src/tools/file_tools.py:53 | "Date" stays Date |
| BankTable.DescriptionKept | src/tools/file_tools.py:54 | "Description" stays Description |
| BankTable.AmountKept | src/tools/file_tools.py:55 | "Amount" stays Amount |
| BankTable.RefIdKept | src/tools/file_tools.py:56 | "Ref ID" stays Ref ID |
| BankTable.RenameIdempotent | src/tools/file_tools.py:52-57 | renaming a renamed column changes nothing |
| BankTable.KeptWhenNoneFits | src/tools/file_tools.py:52-57 | a name that fits no rule keeps its name |
| BankTable.DescriptionFits | src/tools/file_tools.py:54 | any name containing "description" (and not exactly "date") is Description |
| BankTable.AmountFits | src/tools/file_tools.py:55 | a name containing "amount" but not "description" is Amount |
| BankTable.QualifiedDateKept | src/tools/file_tools.py:53 | "Transaction Date" is not exactly "date" and keeps its name |
| BankTable.FirstRuleWins | src/tools/file_tools.py:53-56 | "Amount Description" fits two rules and takes the first, Description |
| BankTable.DebitAmountIsAmount | src/tools/file_tools.py:55 | "Debit Amount" is Amount |
| BankTable.PaddedIdIsRef | src/tools/file_tools.py:56 | " ID " is Ref ID |
| BankTable.RenameMap | src/tools/file_tools.py:50-56 | the map renames only existing columns |
| BankTable.BuildRenameMap | src/tools/file_tools.py:50-56 | the loop maps exactly the columns some rule fits, each to that rule's name |
| BankTable.RenameRecord | src/tools/file_tools.py:57 | every cell moves to its column's new name |
| BankTable.FrameRecords | src/tools/file_tools.py:49-58 | one record per row, each with every renamed column and its cell |
| BankTable.RenameMapRenames | src/tools/file_tools.py:50-57 | the built map renames each column as the rule says |
| BankTable.ReadBankTables | src/tools/file_tools.py:40-58 | the returned columns are the renamed frame columns, and each record holds every cell under its column's new name |
| Pipeline.ErpLedgerNormal | src/tools/normalize_tools.py:36-41 | the example ledger is already normal |
| Pipeline.PaymentId | src/tools/normalize_tools.py:62-65 | "Payment INV" and four digits gives "INV" and those digits |
| Pipeline.StatementNormal | src/tools/normalize_tools.py:58-67 | the statement's dates are parsed and both invoice ids derived |
| Pipeline.CandidateIff | src/tools/match_tools.py:10-11 | only the line paying an invoice passes its id filter |
| Pipeline.OnlyCandidateBest | src/tools/match_tools.py:9-20 | a sole candidate is the best one |
| Pipeline.BestOfRow | src/tools/match_tools.py:9-20 | invoices 1 and 2 pick their payments; invoice 3 has no candidate |
| Pipeline.LookupOwn | src/tools/match_tools.py:47-48 | each statement line is found at its own position |
| Pipeline.ScoreOfRow | src/tools/match_tools.py:21-22 | each score, in hundredths of a point, is the description similarity less ten points per dollar of amount gap |
| Pipeline.ProposalOfRow | src/tools/match_tools.py:45-48 | each ERP record's proposal |
| Pipeline.MatchOfProposals | src/tools/match_tools.py:43-53 | two proposals of different rows then none give two matches, ERP index 2 unmatched, no bank row unmatched |
| Pipeline.MatchExample | src/tools/match_tools.py:26-54 | the example's matches and unmatched lists |
| Pipeline.NoneRaises | src/tools/match_tools.py:9-17 | no example record makes the matcher raise |
| Pipeline.UniqueIdCount | src/tools/discrepancy_tools.py:45-46 | an id held only at position c counts once |
| Pipeline.NoDuplicate | src/tools/discrepancy_tools.py:44-47 | no example id is a duplicate |
| Pipeline.PairExample | src/tools/discrepancy_tools.py:34-49 | each example pair is labelled by its amount difference alone |
| Pipeline.PairValues | src/tools/discrepancy_tools.py:36-41 | the first pair is an exact match, the second a 3-cent rounding difference |
| Pipeline.PairResultsTwo | src/tools/discrepancy_tools.py:28-33 | two different pairs are both kept and classified |
| Pipeline.UnmatchedRecords | src/tools/discrepancy_tools.py:50-53 | ERP index 2 is reported Missing in Bank, and nothing Missing in ERP |
| Pipeline.ClassifyExample | src/tools/discrepancy_tools.py:21-54 | the example's report is Matched, Rounding difference, Missing in Bank |
| Pipeline.EndToEnd | src/tools/discrepancy_tools.py:27-53 | normalize, match and classify on the example: nothing raises and the report is the expected three records |

## Left out

- Reading the Excel and PDF files, and writing the CSV, XLSX and PDF outputs, are not modelled. This covers `read_erp_excel` and `pdfplumber` extraction in src/tools/file_tools.py, and the file output of `export_outputs`. The extracted tables are the input of `BankTable.ReadBankTables`.
- The LangChain agents, the coordinator, the Streamlit app, the log and the diagram writer are not part of this model.
- `dateutil.parser.parse` is the parameter `DateParser`, and its exceptions are its `None` result. The idempotence lemmas assume it reads ISO text back as the same date, as dateutil does.
- `rapidfuzz.fuzz.partial_ratio` is the parameter `Similarity`, a real number of points between 0 and 100.
- Binary floating point is not modelled: amounts are exact cents, rounded half to even on the exact decimal. NaN cells are conflated with `None`: the model has one `Missing` cell and follows the source's `None` branch. In the source a blank amount usually reaches matching and classification as NaN, not `None`. `_to_amount` of an absent (NaN) cell returns `round(float("nan"), 2)`, which is nan (src/tools/normalize_tools.py:17). A `None` result among parsed amounts becomes NaN when pandas stores the column as floats (src/tools/normalize_tools.py:38). Only an Amount column in which no cell parses keeps `None`. The lines below name what this changes for each member.
- Values.CellText: every number is a float with cents, so `str` of a number always has a point. An integer cell, such as an Invoice ID of 1001 read from an integer Excel column, becomes "1001.0" in the model where `str` gives "1001". So `Normalize.NormalizeErpCell` turns such an Invoice ID or Status into "1001.0" where src/tools/normalize_tools.py:39-40 gives "1001". Amounts are unaffected, since both texts parse to the same value.
- Amounts.ParseDecimal: accepts only the decimal subset of `float()`: surrounding whitespace, a sign, digits and at most one point. Exponents, `inf`, `nan` and underscores give None here, though `float()` accepts them.
- Letter case is ASCII only: `upper`, `lower` and `title` ignore non-ASCII letters, and `isspace` covers ASCII whitespace. Likewise `\d` in the invoice pattern at src/tools/normalize_tools.py:64 matches only ASCII digits here, where Python 3's `re` also matches other Unicode decimal digits. The same search passes `re.I`, under which Python also matches the non-ASCII letters 'ı' (U+0131) and 'İ' (U+0130) against `INV`; `Normalize.InvAt` folds ASCII letters only.
- Matching.BestCandidateSpec: pandas' sort is not stable, so rows tied on amount gap and score have no defined order. The model breaks the tie by the lowest bank position.
- Matching.MatchRecords: requires that no ERP record makes `_match_row` raise. It raises a KeyError when it sorts on a missing `amt_diff` (an ERP amount of None with an id and a Description column; a NaN amount does not raise, see `Matching.RankCandidates`), or when the Date or Amount column is absent at the lookup. It also requires numeric amounts, because text amounts make the arithmetic raise. The booked `bank_row` is the bank record as read; the `amt_diff` and `desc_score` cells that src/tools/match_tools.py:13,16 add to the candidate table are not copied into it. Nothing downstream reads those cells. Because `Missing` follows the `None` branch, the requires also excludes ERP records with a NaN amount, which the source matches (see `Matching.RankCandidates`).
- Matching.RankCandidates: requires `!RankingRaises`, which excludes an ERP record with a missing amount, an id and a Description column, because with `None` the sort at src/tools/match_tools.py:17 raises KeyError. With the usual NaN amount, src/tools/match_tools.py:12-13 add an `amt_diff` of NaN to every row, so the sort ranks by `desc_score` alone and does not raise. The model does not cover that case.
- Matching.Propose: requires `!QueryRaises`, so it likewise excludes the NaN-amount ERP record that `_match_row` ranks without raising. The lookup at src/tools/match_tools.py:47 uses the bank row's own amount, so the source still books such a record. The model does not.
- Matching.Score: reads a missing ERP or bank amount as 0, which is the `or 0` of src/tools/match_tools.py:21 applied to `None`. NaN is truthy, so for the usual NaN amount the source's `amt_diff` and score are nan. The model's score is always a number.
- Discrepancy.AmountDiff: gives no difference when either amount is missing, which is the `is not None` test of src/tools/discrepancy_tools.py:36 applied to `None`. A NaN amount passes that test, and the source's difference is nan.
- Discrepancy.MissingAmountMatched: holds for a `None` amount only. A NaN amount gets a nan difference, fails both `diff == 0` and `diff <= 0.05`, and is labelled "Amount mismatch" with the note "Amounts differ by nan (> 0.05)." (src/tools/discrepancy_tools.py:37-43).
- Matching.ProposalForSpec: the proposal's `bankRow` is the candidate's bank record without the `amt_diff` and `desc_score` cells that `candidates.iloc[0].to_dict()` (src/tools/match_tools.py:20) carries, because a cell in the model holds text or exact cents and `desc_score` is a float.
- Matching.MatchSpec: the `bankRow` of each match likewise omits the `amt_diff` and `desc_score` cells of `bank_row` (src/tools/match_tools.py:51).
- Discrepancy.ClassifyPair: requires what the source needs to run. The indices must exist, amounts must not be text, and the ERP id must not be a non-zero number (`.strip()` on a number raises). A missing amount gives Matched with no note, as for `None`. The source's usual NaN amount gives "Amount mismatch" with a nan difference instead (see `Discrepancy.MissingAmountMatched`).
- Discrepancy.Classify: reports the unmatched indices of each Python set in a fixed ascending order. CPython iterates a set by hash slot, so `set([1, 8])` yields 8 before 1, and the source's Missing in Bank and Missing in ERP records need not come out ascending once a ledger has nine or more rows. The model keeps the deterministic order and does not reproduce CPython's order.
- Values.AscendingSpec: states increasing order as the model's chosen iteration order for a set of indices, not as CPython's hash-slot order, which differs for indices of 8 and above.
- BankTable.ReadBankTables: requires that no two columns are renamed to the same name. This excludes a common statement layout with both "Debit Amount" and "Credit Amount" columns, which both become Amount (see `BankTable.DebitAmountIsAmount`). There `df.rename` produces duplicate column names, and `to_dict(orient="records")` keeps the later column's cell under the shared name. That case is not modelled.
- BankTable.CollectRows: requires every table to have a header row, since `table[0]` raises on an empty table.
- BankTable.RenameIgnoresIndent: covers one leading space; the general statement for all surrounding whitespace is not proved.
- Columns are sets: the column order of a DataFrame and of `df.columns.tolist()` is not modelled.
- The `low in {"id","ref id"}` test in src/tools/file_tools.py:56 is modelled as written. "ref id" already contains "ref", so only "id" adds a case.
- Report rows carry exactly the five keys, so the `r.get(...)` defaults for missing keys in src/tools/reporting_tools.py:31 are not exercised.
- Reporting.ValueCountsSpec: for an empty result list (both ledgers empty) `pd.DataFrame([])` has no "Status" column, so `reconciled_df["Status"]` at src/tools/reporting_tools.py:46 raises KeyError. The model instead gives an empty count map.
- Reporting.ReportOfResults: likewise proves the counts of an empty report sum to 0, where the source raises KeyError at src/tools/reporting_tools.py:46 before writing the summary.
- The drawing of the summary lines in src/tools/reporting_tools.py:47-49 is output only; the counts it prints are `Reporting.ValueCountsSpec`.
