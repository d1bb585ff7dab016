/**
 * `_match_row` and `match_records` of src/tools/match_tools.py: a greedy pass
 * over the ERP records in order. For each one the bank records are filtered
 * by invoice id and ranked by amount gap, then by fuzzy description score;
 * the best one is looked up again by Date and Amount, and the first bank row
 * with those values is booked unless an earlier ERP record already took it.
 *
 * Scores are kept in hundredths of a point, so that ten points per dollar of
 * amount gap is ten hundredths per cent.
 */
module Matching {
  import opened Text
  import opened Values

  /** A `fuzz.partial_ratio` result: a real number of points, fraction included. */
  type Percent = x: real | 0.0 <= x <= 100.0

  /** The fuzzy matcher, a parameter of the model. */
  type Similarity = (string, string) -> Percent

  /** What `_match_row` computes about one ERP record before ranking the bank table. */
  datatype Query = Query(key: string, amount: Option<int>, cols: set<string>, bank: seq<Row>, ratio: Similarity)

  /** `str(erp_row.get("Invoice ID") or "").strip().upper()`. */
  function InvoiceKey(e: Row): string {
    Upper(Strip(OrEmpty(Get(e, "Invoice ID"))))
  }

  function QueryOf(e: Row, bank: seq<Row>, ratio: Similarity): Query {
    Query(InvoiceKey(e), AmountOf(Get(e, "Amount")), Columns(bank), bank, ratio)
  }

  /** Candidates are filtered by exact invoice id. */
  predicate FiltersById(q: Query) {
    "Invoice ID" in q.cols && q.key != ""
  }

  /** An `amt_diff` column is added and sorted on. */
  predicate RanksByAmount(q: Query) {
    q.amount.Some? && "Amount" in q.cols
  }

  /** A `desc_score` column is added and the table re-sorted on both columns. */
  predicate RanksByScore(q: Query) {
    "Description" in q.cols && q.key != ""
  }

  /** The re-sort names `amt_diff`, which was never added: pandas raises KeyError. */
  predicate RankingRaises(q: Query) {
    RanksByScore(q) && !RanksByAmount(q)
  }

  predicate IsCandidate(q: Query, j: nat)
    requires j < |q.bank|
  {
    !FiltersById(q) || Get(q.bank[j], "Invoice ID") == Text(q.key)
  }

  /** The `amt_diff` of bank row `j` in cents; None is NaN (no bank amount), which sorts last. */
  function Gap(q: Query, j: nat): Option<nat>
    requires j < |q.bank|
  {
    if !RanksByAmount(q) then Some(0)
    else match AmountOf(Get(q.bank[j], "Amount"))
      case None => None
      case Some(c) => Some(Abs(c - q.amount.value))
  }

  /** The `desc_score` of bank row `j`, untruncated; 0 where the column is not added. */
  function DescScore(q: Query, j: nat): Percent
    requires j < |q.bank|
  {
    if RanksByScore(q) then q.ratio(Upper(CellText(Get(q.bank[j], "Description"))), q.key) else 0.0
  }

  /** Gap `g` sorts strictly before gap `h`. */
  predicate Closer(g: Option<nat>, h: Option<nat>) {
    g.Some? && (h.None? || g.value < h.value)
  }

  /**
   * Row `j` comes before row `k` in the sorted candidate table: smaller gap,
   * then higher description score, then (the tie-break this model fixes)
   * lower position.
   */
  predicate Precedes(q: Query, j: nat, k: nat)
    requires j < |q.bank| && k < |q.bank|
  {
    Closer(Gap(q, j), Gap(q, k))
    || (Gap(q, j) == Gap(q, k)
        && (DescScore(q, j) > DescScore(q, k) || (DescScore(q, j) == DescScore(q, k) && j < k)))
  }

  /** The first row of the sorted table restricted to rows below `n`. */
  function BestBelow(q: Query, n: nat): (r: Option<nat>)
    requires n <= |q.bank|
    ensures r.Some? ==> r.value < n
  {
    if n == 0 then None
    else if !IsCandidate(q, n - 1) then BestBelow(q, n - 1)
    else if BestBelow(q, n - 1).None? || Precedes(q, n - 1, BestBelow(q, n - 1).value) then Some(n - 1)
    else BestBelow(q, n - 1)
  }

  /** `candidates.iloc[0]`, as a bank position; None when no candidate is left. */
  function BestCandidate(q: Query): (r: Option<nat>)
    ensures r.Some? ==> r.value < |q.bank|
  {
    BestBelow(q, |q.bank|)
  }

  /** A missing cell counts as 0. */
  function AmountOr0(v: Val): int {
    if v.Num? then v.cents else 0
  }

  /**
   * `int(desc_score) - amt_diff * 10`, in hundredths of a point: the score is
   * truncated here, while the ranking compares it untruncated.
   */
  function Score(q: Query, j: nat): int
    requires j < |q.bank|
  {
    100 * DescScore(q, j).Floor - 10 * Abs(AmountOr0(Get(q.bank[j], "Amount")) - (if q.amount.Some? then q.amount.value else 0))
  }

  // ---------------------------------------------------------------- ranking order

  lemma PrecedesIrreflexive(q: Query, j: nat)
    requires j < |q.bank|
    ensures !Precedes(q, j, j)
  {
  }

  lemma PrecedesTotal(q: Query, j: nat, k: nat)
    requires j < |q.bank| && k < |q.bank| && j != k
    ensures Precedes(q, j, k) || Precedes(q, k, j)
  {
  }

  lemma PrecedesTransitive(q: Query, a: nat, b: nat, c: nat)
    requires a < |q.bank| && b < |q.bank| && c < |q.bank|
    requires Precedes(q, a, b) && Precedes(q, b, c)
    ensures Precedes(q, a, c)
  {
  }

  /** `BestBelow` is the first of the candidates below `n` in the ranking. */
  lemma {:induction false} BestBelowSpec(q: Query, n: nat)
    requires n <= |q.bank|
    ensures BestBelow(q, n).None? <==> forall k: nat :: k < n ==> !IsCandidate(q, k)
    ensures BestBelow(q, n).Some? ==>
      var j := BestBelow(q, n).value;
      IsCandidate(q, j) && forall k: nat :: k < n && k != j && IsCandidate(q, k) ==> Precedes(q, j, k)
  {
    if n > 0 {
      BestBelowSpec(q, n - 1);
      var r := BestBelow(q, n - 1);
      if IsCandidate(q, n - 1) && r.Some? {
        var j := r.value;
        if Precedes(q, n - 1, j) {
          forall k: nat | k < n && k != n - 1 && IsCandidate(q, k)
            ensures Precedes(q, n - 1, k)
          {
            if k != j {
              PrecedesTransitive(q, n - 1, j, k);
            }
          }
        } else {
          PrecedesTotal(q, n - 1, j);
        }
      }
    }
  }

  /**
   * The chosen bank row: None exactly when no row passes the filter;
   * otherwise a row that passes it, carries the ERP invoice id when the
   * filter applies, has the smallest amount gap of all candidates (a
   * missing bank amount ranks last), and among equal gaps the highest
   * description score.
   */
  lemma BestCandidateSpec(q: Query)
    ensures BestCandidate(q).None? <==> forall k: nat :: k < |q.bank| ==> !IsCandidate(q, k)
    ensures BestCandidate(q).Some? ==>
      var j := BestCandidate(q).value;
      && IsCandidate(q, j)
      && (FiltersById(q) ==> Get(q.bank[j], "Invoice ID") == Text(q.key))
      && forall k: nat :: k < |q.bank| && IsCandidate(q, k) ==>
           !Closer(Gap(q, k), Gap(q, j))
           && (Gap(q, k) == Gap(q, j) ==> DescScore(q, j) >= DescScore(q, k))
  {
    BestBelowSpec(q, |q.bank|);
  }

  // ---------------------------------------------------------------- lookup by Date and Amount

  /** Pandas equality of two cells: missing values are never equal. */
  predicate SameCell(a: Val, b: Val) {
    a == b && !a.Missing?
  }

  predicate SameDateAmount(x: Row, y: Row) {
    SameCell(Get(x, "Date"), Get(y, "Date")) && SameCell(Get(x, "Amount"), Get(y, "Amount"))
  }

  /** The first bank position from `k` on whose Date and Amount equal the row's. */
  function LookupFrom(bank: seq<Row>, row: Row, k: nat): (r: Option<nat>)
    ensures r.Some? ==> k <= r.value < |bank|
    decreases |bank| - k
  {
    if k >= |bank| then None
    else if SameDateAmount(bank[k], row) then Some(k)
    else LookupFrom(bank, row, k + 1)
  }

  /** `bank_df.index[(Date == row.Date) & (Amount == row.Amount)]`, first entry. */
  function Lookup(bank: seq<Row>, row: Row): (r: Option<nat>)
    ensures r.Some? ==> r.value < |bank|
  {
    LookupFrom(bank, row, 0)
  }

  lemma {:induction false} LookupFromSpec(bank: seq<Row>, row: Row, k: nat)
    ensures LookupFrom(bank, row, k).Some? ==>
      var idx := LookupFrom(bank, row, k).value;
      SameDateAmount(bank[idx], row) && forall m :: k <= m < idx ==> !SameDateAmount(bank[m], row)
    ensures LookupFrom(bank, row, k).None? ==> forall m :: k <= m < |bank| ==> !SameDateAmount(bank[m], row)
    decreases |bank| - k
  {
    if k < |bank| && !SameDateAmount(bank[k], row) {
      LookupFromSpec(bank, row, k + 1);
    }
  }

  /**
   * Looking up bank row `j` by its own Date and Amount finds a row exactly
   * when both are present, and then the first row sharing them, which is
   * `j` or an earlier row.
   */
  lemma LookupOfRow(bank: seq<Row>, j: nat)
    requires j < |bank|
    ensures Lookup(bank, bank[j]).Some? <==> !Get(bank[j], "Date").Missing? && !Get(bank[j], "Amount").Missing?
    ensures Lookup(bank, bank[j]).Some? ==>
      var idx := Lookup(bank, bank[j]).value;
      idx <= j && SameDateAmount(bank[idx], bank[j])
      && forall m: nat :: m < idx ==> !SameDateAmount(bank[m], bank[j])
  {
    LookupFromSpec(bank, bank[j], 0);
  }

  /** `_match_row` raises, or `match_records` does when it indexes the Date and Amount columns. */
  predicate QueryRaises(q: Query) {
    RankingRaises(q) || (BestCandidate(q).Some? && !("Date" in q.cols && "Amount" in q.cols))
  }

  predicate RowRaises(e: Row, bank: seq<Row>, ratio: Similarity) {
    QueryRaises(QueryOf(e, bank, ratio))
  }

  // ---------------------------------------------------------------- the greedy pass

  /** What one ERP record asks for: the looked-up bank position, the score, the candidate's record. */
  datatype Choice = Choice(bankIndex: nat, score: int, bankRow: Row)

  /** One entry of `matches`; `bankRow` is the chosen candidate's bank record, without the ranking cells. */
  datatype Assignment = Assignment(erpIndex: nat, bankIndex: nat, score: int, bankRow: Row)

  datatype MatchSet = MatchSet(matches: seq<Assignment>, erpUnmatched: seq<nat>, bankUnmatched: seq<nat>)

  /** `matches` and `used_bank_idx` between two iterations. */
  datatype Progress = Progress(matches: seq<Assignment>, used: set<nat>)

  /**
   * Lines 45-48 of `match_records` for one ERP record: `_match_row`, then the
   * first bank position with the best candidate's Date and Amount.
   */
  function ProposalFor(q: Query): (r: Option<Choice>)
    ensures r.Some? ==> r.value.bankIndex < |q.bank|
  {
    match BestCandidate(q)
    case None => None
    case Some(j) =>
      match Lookup(q.bank, q.bank[j])
      case None => None
      case Some(idx) => Some(Choice(idx, Score(q, j), q.bank[j]))
  }

  function Proposal(e: Row, bank: seq<Row>, ratio: Similarity): (r: Option<Choice>)
    ensures r.Some? ==> r.value.bankIndex < |bank|
  {
    ProposalFor(QueryOf(e, bank, ratio))
  }

  /** The proposal of every ERP record, in order. */
  function Proposals(erp: seq<Row>, bank: seq<Row>, ratio: Similarity): (ps: seq<Option<Choice>>)
    ensures |ps| == |erp|
    ensures ProposalsBelow(ps, |bank|)
  {
    if erp == [] then []
    else Proposals(erp[..|erp| - 1], bank, ratio) + [Proposal(erp[|erp| - 1], bank, ratio)]
  }

  lemma {:induction false} ProposalsAt(erp: seq<Row>, bank: seq<Row>, ratio: Similarity, i: nat)
    requires i < |erp|
    ensures Proposals(erp, bank, ratio)[i] == Proposal(erp[i], bank, ratio)
  {
    if i < |erp| - 1 {
      ProposalsAt(erp[..|erp| - 1], bank, ratio, i);
    }
  }

  /** The ERP positions that `matches` names. */
  function ErpIndexSet(ms: seq<Assignment>): set<nat> {
    if ms == [] then {} else ErpIndexSet(ms[..|ms| - 1]) + {ms[|ms| - 1].erpIndex}
  }

  /** The bank positions that `matches` names. */
  function BankIndexSet(ms: seq<Assignment>): set<nat> {
    if ms == [] then {} else BankIndexSet(ms[..|ms| - 1]) + {ms[|ms| - 1].bankIndex}
  }

  /** Lines 49-51: book the proposed bank position unless it is already used; no fallback. */
  function Book(p: Progress, proposal: Option<Choice>, i: nat): Progress {
    match proposal
    case None => p
    case Some(c) =>
      if c.bankIndex in p.used then p
      else Progress(p.matches + [Assignment(i, c.bankIndex, c.score, c.bankRow)], p.used + {c.bankIndex})
  }

  /** The state after the first `n` ERP records. */
  function Greedy(ps: seq<Option<Choice>>, n: nat): Progress
    requires n <= |ps|
  {
    if n == 0 then Progress([], {})
    else Book(Greedy(ps, n - 1), ps[n - 1], n - 1)
  }

  /** What `match_records` returns. */
  function MatchSpec(erp: seq<Row>, bank: seq<Row>, ratio: Similarity): MatchSet {
    Finish(Greedy(Proposals(erp, bank, ratio), |erp|), |erp|, |bank|)
  }

  /** The three parts of `MatchSpec`, spelled out. */
  lemma MatchSpecParts(erp: seq<Row>, bank: seq<Row>, ratio: Similarity)
    ensures var g := Greedy(Proposals(erp, bank, ratio), |erp|);
      && MatchSpec(erp, bank, ratio).matches == g.matches
      && MatchSpec(erp, bank, ratio).erpUnmatched == Outside(|erp|, ErpIndexSet(g.matches))
      && MatchSpec(erp, bank, ratio).bankUnmatched == Outside(|bank|, g.used)
  {
  }

  /** Lines 52-53: the unmatched positions of `n` ERP and `m` bank records. */
  function Finish(p: Progress, n: nat, m: nat): MatchSet {
    MatchSet(p.matches, Outside(n, ErpIndexSet(p.matches)), Outside(m, p.used))
  }

  // ---------------------------------------------------------------- the methods

  /**
   * Lines 9-23 of `_match_row` (lines 7-8 are `QueryOf`): the best candidate
   * and its score, by one scan of the bank table.
   */
  method RankCandidates(q: Query) returns (best: Option<nat>, score: int)
    requires !RankingRaises(q)
    ensures best == BestCandidate(q)
    ensures best.None? <==> forall k: nat :: k < |q.bank| ==> !IsCandidate(q, k)
    ensures best.Some? ==> best.value < |q.bank| && score == Score(q, best.value)
  {
    best := None;
    var j := 0;
    while j < |q.bank|
      invariant j <= |q.bank| && best == BestBelow(q, j)
    {
      if IsCandidate(q, j) && (best.None? || Precedes(q, j, best.value)) {
        best := Some(j);
      }
      j := j + 1;
    }
    BestCandidateSpec(q);
    score := if best.Some? then Score(q, best.value) else 0;
  }

  /** The positional lookup of `match_records`, by one scan of the bank table. */
  method FindSameDateAmount(bank: seq<Row>, row: Row) returns (idx: Option<nat>)
    ensures idx == Lookup(bank, row)
  {
    var k: nat := |bank|;
    idx := None;
    while k > 0
      invariant k <= |bank|
      invariant idx == LookupFrom(bank, row, k)
    {
      k := k - 1;
      if SameDateAmount(bank[k], row) {
        idx := Some(k);
      }
    }
  }

  /** `[i for i in range(n) if i not in s]`. */
  method Unlisted(n: nat, s: set<nat>) returns (r: seq<nat>)
    ensures r == Outside(n, s)
  {
    r := [];
    var k := 0;
    while k < n
      invariant k <= n && r == Outside(k, s)
    {
      if k !in s {
        r := r + [k];
      }
      k := k + 1;
    }
  }

  /** Lines 45-48 of `match_records` for the query of one ERP record. */
  method Propose(q: Query) returns (c: Option<Choice>)
    requires !QueryRaises(q)
    ensures c == ProposalFor(q)
  {
    var best, score := RankCandidates(q);
    if best.None? {
      return None;
    }
    var idx := FindSameDateAmount(q.bank, q.bank[best.value]);
    if idx.None? {
      return None;
    }
    c := Some(Choice(idx.value, score, q.bank[best.value]));
  }

  /** Lines 49-51 of `match_records`: book the proposed position unless it is used. */
  method BookOne(matches: seq<Assignment>, used: set<nat>, c: Option<Choice>, i: nat)
    returns (matches': seq<Assignment>, used': set<nat>)
    ensures Progress(matches', used') == Book(Progress(matches, used), c, i)
  {
    matches', used' := matches, used;
    if c.Some? && c.value.bankIndex !in used {
      used' := used + {c.value.bankIndex};
      matches' := matches + [Assignment(i, c.value.bankIndex, c.value.score, c.value.bankRow)];
    }
  }

  /** One turn of the booking loop: propose for ERP record `i` and book it. */
  method BookNext(erp: seq<Row>, bank: seq<Row>, ratio: Similarity, i: nat, matches: seq<Assignment>, used: set<nat>)
    returns (matches': seq<Assignment>, used': set<nat>)
    requires i < |erp| && forall k :: 0 <= k < |erp| ==> !RowRaises(erp[k], bank, ratio)
    requires Progress(matches, used) == Greedy(Proposals(erp, bank, ratio), i)
    ensures Progress(matches', used') == Greedy(Proposals(erp, bank, ratio), i + 1)
  {
    ghost var ps := Proposals(erp, bank, ratio);
    var c := Propose(QueryOf(erp[i], bank, ratio));
    ProposalsAt(erp, bank, ratio, i);
    assert c == ps[i];
    matches', used' := BookOne(matches, used, c, i);
    assert Greedy(ps, i + 1) == Book(Greedy(ps, i), ps[i], i);
  }

  /** Lines 43-51 of `match_records`: the greedy booking loop. */
  method BookAll(erp: seq<Row>, bank: seq<Row>, ratio: Similarity) returns (matches: seq<Assignment>, used: set<nat>)
    requires forall i :: 0 <= i < |erp| ==> !RowRaises(erp[i], bank, ratio)
    ensures Progress(matches, used) == Greedy(Proposals(erp, bank, ratio), |erp|)
  {
    matches, used := [], {};
    var i := 0;
    while i < |erp|
      invariant i <= |erp|
      invariant Progress(matches, used) == Greedy(Proposals(erp, bank, ratio), i)
    {
      matches, used := BookNext(erp, bank, ratio, i, matches, used);
      i := i + 1;
    }
  }

  /**
   * `match_records`. Text amounts are excluded: the source raises when such
   * a value meets arithmetic, and normalized records never hold one.
   */
  method MatchRecords(erp: seq<Row>, bank: seq<Row>, ratio: Similarity) returns (r: MatchSet)
    requires AmountsNumeric(erp) && AmountsNumeric(bank)
    requires forall i :: 0 <= i < |erp| ==> !RowRaises(erp[i], bank, ratio)
    ensures r == MatchSpec(erp, bank, ratio)
  {
    var matches, used := BookAll(erp, bank, ratio);
    var erpUnmatched := Unlisted(|erp|, ErpIndexSet(matches));
    var bankUnmatched := Unlisted(|bank|, used);
    r := MatchSet(matches, erpUnmatched, bankUnmatched);
    MatchSpecParts(erp, bank, ratio);
  }

  // ---------------------------------------------------------------- properties

  /**
   * What a proposal is: present exactly when some bank row passes the filter
   * and the best one has both a Date and an Amount; it then carries the best
   * candidate's score and record, and books the first bank position sharing
   * that Date and Amount, which is the candidate's own or an earlier one.
   */
  lemma ProposalForSpec(q: Query)
    ensures var best := BestCandidate(q);
      var r := ProposalFor(q);
      && (r.Some? <==> best.Some? && !Get(q.bank[best.value], "Date").Missing? && !Get(q.bank[best.value], "Amount").Missing?)
      && (r.Some? ==>
            && r.value.bankIndex <= best.value
            && SameDateAmount(q.bank[r.value.bankIndex], q.bank[best.value])
            && (forall m: nat :: m < r.value.bankIndex ==> !SameDateAmount(q.bank[m], q.bank[best.value]))
            && r.value.score == Score(q, best.value)
            && r.value.bankRow == q.bank[best.value])
  {
    var best := BestCandidate(q);
    if best.Some? {
      LookupOfRow(q.bank, best.value);
    }
  }

  /** All proposed bank positions lie below `m`. */
  predicate ProposalsBelow(ps: seq<Option<Choice>>, m: nat) {
    forall i :: 0 <= i < |ps| && ps[i].Some? ==> ps[i].value.bankIndex < m
  }

  /** The index sets hold exactly the positions the matches name. */
  lemma {:induction false} IndexSetsSpec(ms: seq<Assignment>)
    ensures forall i :: i in ErpIndexSet(ms) <==> exists a :: 0 <= a < |ms| && ms[a].erpIndex == i
    ensures forall i :: i in BankIndexSet(ms) <==> exists a :: 0 <= a < |ms| && ms[a].bankIndex == i
  {
    if ms != [] {
      var init := ms[..|ms| - 1];
      IndexSetsSpec(init);
      assert forall a :: 0 <= a < |init| ==> init[a] == ms[a];
    }
  }

  /** After `n` ERP records every match names one of them, in strictly increasing order. */
  predicate ErpOrdered(p: Progress, n: nat) {
    && (forall a :: 0 <= a < |p.matches| ==> p.matches[a].erpIndex < n)
    && (forall a, b :: 0 <= a < b < |p.matches| ==> p.matches[a].erpIndex < p.matches[b].erpIndex)
  }

  /** Every booked bank position exists, none is booked twice, and `used` is exactly the booked ones. */
  predicate BankBooked(p: Progress, m: nat) {
    && (forall a :: 0 <= a < |p.matches| ==> p.matches[a].bankIndex < m)
    && (forall a, b :: 0 <= a < b < |p.matches| ==> p.matches[a].bankIndex != p.matches[b].bankIndex)
    && p.used == BankIndexSet(p.matches)
  }

  lemma BookErpOrdered(p: Progress, proposal: Option<Choice>, n: nat)
    requires ErpOrdered(p, n)
    ensures ErpOrdered(Book(p, proposal, n), n + 1)
  {
  }

  lemma BookBankBooked(p: Progress, proposal: Option<Choice>, n: nat, m: nat)
    requires BankBooked(p, m)
    requires proposal.Some? ==> proposal.value.bankIndex < m
    ensures BankBooked(Book(p, proposal, n), m)
  {
    var p' := Book(p, proposal, n);
    if p' != p {
      var ms := p'.matches;
      assert ms[..|ms| - 1] == p.matches;
      IndexSetsSpec(p.matches);
    }
  }

  lemma {:induction false} GreedyErpOrdered(ps: seq<Option<Choice>>, n: nat)
    requires n <= |ps|
    ensures ErpOrdered(Greedy(ps, n), n)
  {
    if n > 0 {
      GreedyErpOrdered(ps, n - 1);
      BookErpOrdered(Greedy(ps, n - 1), ps[n - 1], n - 1);
    }
  }

  lemma {:induction false} GreedyBankBooked(ps: seq<Option<Choice>>, n: nat, m: nat)
    requires n <= |ps| && ProposalsBelow(ps, m)
    ensures BankBooked(Greedy(ps, n), m)
  {
    if n > 0 {
      GreedyBankBooked(ps, n - 1, m);
      BookBankBooked(Greedy(ps, n - 1), ps[n - 1], n - 1, m);
    }
  }

  /** Matches made so far stay, and later ones name later ERP records. */
  lemma {:induction false} GreedyGrows(ps: seq<Option<Choice>>, n: nat, n': nat)
    requires n <= n' <= |ps|
    ensures var ms, ms' := Greedy(ps, n).matches, Greedy(ps, n').matches;
      |ms| <= |ms'| && ms'[..|ms|] == ms && forall a :: |ms| <= a < |ms'| ==> ms'[a].erpIndex >= n
    decreases n' - n
  {
    if n < n' {
      GreedyGrows(ps, n, n' - 1);
    }
  }

  /** Distinct positions, counted. */
  lemma {:induction false} ErpIndexSetSize(ms: seq<Assignment>)
    requires forall a, b :: 0 <= a < b < |ms| ==> ms[a].erpIndex < ms[b].erpIndex
    ensures |ErpIndexSet(ms)| == |ms|
  {
    if ms != [] {
      var init := ms[..|ms| - 1];
      ErpIndexSetSize(init);
      IndexSetsSpec(init);
      assert ms[|ms| - 1].erpIndex !in ErpIndexSet(init);
    }
  }

  lemma {:induction false} BankIndexSetSize(ms: seq<Assignment>)
    requires forall a, b :: 0 <= a < b < |ms| ==> ms[a].bankIndex != ms[b].bankIndex
    ensures |BankIndexSet(ms)| == |ms|
  {
    if ms != [] {
      var init := ms[..|ms| - 1];
      BankIndexSetSize(init);
      IndexSetsSpec(init);
      assert ms[|ms| - 1].bankIndex !in BankIndexSet(init);
    }
  }

  /**
   * No double booking: no bank position appears in two matches, each ERP
   * position at most once, in ascending ERP order, and every position names
   * an existing record.
   */
  lemma MatchesExclusive(erp: seq<Row>, bank: seq<Row>, ratio: Similarity)
    ensures var ms := MatchSpec(erp, bank, ratio).matches;
      && (forall a :: 0 <= a < |ms| ==> ms[a].erpIndex < |erp| && ms[a].bankIndex < |bank|)
      && (forall a, b :: 0 <= a < b < |ms| ==> ms[a].erpIndex < ms[b].erpIndex)
      && (forall a, b :: 0 <= a < b < |ms| ==> ms[a].bankIndex != ms[b].bankIndex)
  {
    MatchSpecParts(erp, bank, ratio);
    var ps := Proposals(erp, bank, ratio);
    GreedyErpOrdered(ps, |erp|);
    GreedyBankBooked(ps, |erp|, |bank|);
  }

  /**
   * The ERP side of the partition: `erp_unmatched` lists, in ascending
   * order, exactly the ERP positions no match names, and with the matches
   * accounts for every ERP record.
   */
  lemma ErpPartition(erp: seq<Row>, bank: seq<Row>, ratio: Similarity)
    ensures var r := MatchSpec(erp, bank, ratio);
      && StrictlyIncreasing(r.erpUnmatched)
      && (forall i: nat :: i in r.erpUnmatched <==>
            i < |erp| && forall a :: 0 <= a < |r.matches| ==> r.matches[a].erpIndex != i)
      && |r.matches| + |r.erpUnmatched| == |erp|
  {
    MatchSpecParts(erp, bank, ratio);
    var p := Greedy(Proposals(erp, bank, ratio), |erp|);
    GreedyErpOrdered(Proposals(erp, bank, ratio), |erp|);
    ErpUnmatchedSpec(p, |erp|);
  }

  lemma ErpUnmatchedSpec(p: Progress, n: nat)
    requires ErpOrdered(p, n)
    ensures var u := Outside(n, ErpIndexSet(p.matches));
      && StrictlyIncreasing(u)
      && (forall i: nat :: i in u <==> i < n && forall a :: 0 <= a < |p.matches| ==> p.matches[a].erpIndex != i)
      && |p.matches| + |u| == n
  {
    IndexSetsSpec(p.matches);
    var es := ErpIndexSet(p.matches);
    OutsideSpec(n, es);
    ErpIndexSetSize(p.matches);
    assert es <= Below(n);
    OutsideCount(n, es);
  }

  /**
   * The bank side: `bank_unmatched` lists, in ascending order, exactly the
   * bank positions no match books, and with the matches accounts for every
   * bank record.
   */
  lemma BankPartition(erp: seq<Row>, bank: seq<Row>, ratio: Similarity)
    ensures var r := MatchSpec(erp, bank, ratio);
      && StrictlyIncreasing(r.bankUnmatched)
      && (forall i: nat :: i in r.bankUnmatched <==>
            i < |bank| && forall a :: 0 <= a < |r.matches| ==> r.matches[a].bankIndex != i)
      && |r.matches| + |r.bankUnmatched| == |bank|
  {
    MatchSpecParts(erp, bank, ratio);
    var p := Greedy(Proposals(erp, bank, ratio), |erp|);
    GreedyBankBooked(Proposals(erp, bank, ratio), |erp|, |bank|);
    BankUnmatchedSpec(p, |bank|);
  }

  lemma BankUnmatchedSpec(p: Progress, m: nat)
    requires BankBooked(p, m)
    ensures var u := Outside(m, p.used);
      && StrictlyIncreasing(u)
      && (forall i: nat :: i in u <==> i < m && forall a :: 0 <= a < |p.matches| ==> p.matches[a].bankIndex != i)
      && |p.matches| + |u| == m
  {
    IndexSetsSpec(p.matches);
    OutsideSpec(m, p.used);
    BankIndexSetSize(p.matches);
    assert p.used <= Below(m);
    OutsideCount(m, p.used);
  }

  /**
   * The booking of ERP record `i`, with no fallback: it is matched exactly
   * when it has a proposal whose bank position no earlier ERP record took,
   * and the match is that proposal.
   */
  lemma {:induction false} GreedyDecision(ps: seq<Option<Choice>>, i: nat)
    requires i < |ps|
    ensures var ms := Greedy(ps, |ps|).matches;
      var before := Greedy(ps, i).used;
      && ((exists a :: 0 <= a < |ms| && ms[a].erpIndex == i) <==>
           ps[i].Some? && ps[i].value.bankIndex !in before)
      && forall a :: 0 <= a < |ms| && ms[a].erpIndex == i ==>
           ps[i].Some? && ms[a] == Assignment(i, ps[i].value.bankIndex, ps[i].value.score, ps[i].value.bankRow)
  {
    var p := Greedy(ps, i);
    var p' := Greedy(ps, i + 1);
    var ms := Greedy(ps, |ps|).matches;
    GreedyErpOrdered(ps, i);
    GreedyGrows(ps, i, i + 1);
    GreedyGrows(ps, i + 1, |ps|);
    if |p'.matches| > |p.matches| {
      assert ms[|p.matches|] == p'.matches[|p.matches|];
    }
  }

  /**
   * `match_records` books ERP record `i` exactly when its proposal exists
   * and names a bank position not booked by an earlier ERP record, with
   * that proposal's position, score and candidate record.
   */
  lemma MatchDecision(erp: seq<Row>, bank: seq<Row>, ratio: Similarity, i: nat)
    requires i < |erp|
    ensures var ms := MatchSpec(erp, bank, ratio).matches;
      var before := Greedy(Proposals(erp, bank, ratio), i).used;
      var c := Proposal(erp[i], bank, ratio);
      && ((exists a :: 0 <= a < |ms| && ms[a].erpIndex == i) <==> c.Some? && c.value.bankIndex !in before)
      && forall a :: 0 <= a < |ms| && ms[a].erpIndex == i ==>
           c.Some? && ms[a] == Assignment(i, c.value.bankIndex, c.value.score, c.value.bankRow)
  {
    MatchSpecParts(erp, bank, ratio);
    ProposalsAt(erp, bank, ratio, i);
    GreedyDecision(Proposals(erp, bank, ratio), i);
  }
}
