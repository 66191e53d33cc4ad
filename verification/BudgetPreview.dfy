/** The budget previews, which predict what enforcement will do. */
module BudgetPreview {
  import opened Outcomes
  import opened Amounts
  import opened LedgerModel
  import opened ReserveFacts
  import BudgetEvaluation

  datatype PreviewStatus = NoBudgets | OverHardLimit | SoftLimitReached | WithinLimit

  datatype PreviewRow = PreviewRow(
    budgetId: int,
    accumulated: Money,
    projected: Money,
    hardLimit: Option<Money>,
    softLimit: Option<Money>,
    hardExceeded: bool,
    softReached: bool)

  datatype Preview = Preview(status: PreviewStatus, maxEstimatedCost: Money, rows: seq<PreviewRow>)

  predicate WouldExceed(rows: seq<Row>, budget: Budget, cost: Money) {
    OverLimit(budget, SaturatedAdd(LatestTotal(rows, budget.id), cost))
  }

  predicate WouldReachSoft(rows: seq<Row>, budget: Budget, cost: Money) {
    budget.softLimit.Some? && SaturatedAdd(LatestTotal(rows, budget.id), cost) >= budget.softLimit.value
  }

  function PreviewOf(rows: seq<Row>, budget: Budget, cost: Money): PreviewRow {
    var accumulated := LatestTotal(rows, budget.id);
    PreviewRow(budget.id, accumulated, SaturatedAdd(accumulated, cost), budget.hardLimit, budget.softLimit,
               WouldExceed(rows, budget, cost), WouldReachSoft(rows, budget, cost))
  }

  /** A row shows the budget's newest total, and that total and the cost together, the largest amount when
      they leave 64 bits; its flags compare the latter with the two limits. */
  lemma PreviewRowSays(rows: seq<Row>, budget: Budget, cost: Money)
    ensures var row, total := PreviewOf(rows, budget, cost), LatestTotal(rows, budget.id) + cost;
            && row.budgetId == budget.id && row.accumulated == LatestTotal(rows, budget.id)
            && row.projected == (if I64_MIN <= total <= I64_MAX then total else I64_MAX)
            && row.hardLimit == budget.hardLimit && row.softLimit == budget.softLimit
            && (row.hardExceeded <==> row.hardLimit.Some? && row.projected > row.hardLimit.value)
            && (row.softReached <==> row.softLimit.Some? && row.projected >= row.softLimit.value)
  {
  }

  /** The newest total of every budget that has rows. */
  method FetchLatestRunningTotals(ledger: seq<Row>) returns (totals: map<int, Money>)
    ensures forall b :: b in totals <==> exists i :: 0 <= i < |ledger| && ledger[i].budgetId == b
    ensures forall b :: LatestTotal(ledger, b) == if b in totals then totals[b] else 0
  {
    totals := map[];
    for i := 0 to |ledger|
      invariant forall b :: b in totals <==> exists j :: 0 <= j < i && ledger[j].budgetId == b
      invariant forall b :: LatestTotal(ledger[..i], b) == if b in totals then totals[b] else 0
    {
      assert ledger[..i + 1][..i] == ledger[..i];
      totals := totals[ledger[i].budgetId := ledger[i].runningTotal];
    }
    assert ledger[..|ledger|] == ledger;
  }

  function InsertById(budget: Budget, sorted: seq<Budget>): seq<Budget> {
    if sorted == [] then [budget]
    else if budget.id < sorted[0].id then [budget] + sorted
    else [sorted[0]] + InsertById(budget, sorted[1..])
  }

  /** The source's stable sort on the budget id. */
  function SortById(budgets: seq<Budget>): seq<Budget> {
    if budgets == [] then [] else InsertById(budgets[|budgets| - 1], SortById(budgets[..|budgets| - 1]))
  }

  ghost predicate SortedById(budgets: seq<Budget>) {
    forall i, j :: 0 <= i < j < |budgets| ==> budgets[i].id <= budgets[j].id
  }

  lemma {:induction false} InsertByIdFacts(budget: Budget, sorted: seq<Budget>)
    requires SortedById(sorted)
    ensures SortedById(InsertById(budget, sorted))
    ensures |InsertById(budget, sorted)| == |sorted| + 1
    ensures forall x :: x in InsertById(budget, sorted) <==> x == budget || x in sorted
  {
    if sorted != [] && budget.id >= sorted[0].id {
      InsertByIdFacts(budget, sorted[1..]);
      var rest := InsertById(budget, sorted[1..]);
      forall j | 0 <= j < |rest|
        ensures sorted[0].id <= rest[j].id
      {
        assert rest[j] in rest;
      }
    }
  }

  lemma {:induction false} InsertByIdAddsOne(budget: Budget, sorted: seq<Budget>)
    ensures multiset(InsertById(budget, sorted)) == multiset(sorted) + multiset{budget}
  {
    if sorted != [] {
      InsertByIdAddsOne(budget, sorted[1..]);
      assert sorted == [sorted[0]] + sorted[1..];
    }
  }

  lemma {:induction false} SortFacts(budgets: seq<Budget>)
    ensures SortedById(SortById(budgets)) && |SortById(budgets)| == |budgets|
    ensures forall x :: x in SortById(budgets) <==> x in budgets
    ensures multiset(SortById(budgets)) == multiset(budgets)
  {
    if budgets != [] {
      assert budgets == budgets[..|budgets| - 1] + [budgets[|budgets| - 1]];
      SortFacts(budgets[..|budgets| - 1]);
      InsertByIdFacts(budgets[|budgets| - 1], SortById(budgets[..|budgets| - 1]));
      InsertByIdAddsOne(budgets[|budgets| - 1], SortById(budgets[..|budgets| - 1]));
    }
  }

  ghost predicate AnyExceeds(rows: seq<Row>, budgets: seq<Budget>, cost: Money) {
    exists b :: b in budgets && WouldExceed(rows, b, cost)
  }

  ghost predicate AnyReachesSoft(rows: seq<Row>, budgets: seq<Budget>, cost: Money) {
    exists b :: b in budgets && WouldReachSoft(rows, b, cost)
  }

  /** One row per budget in id order, and the worst of their flags as the status. */
  method BuildBudgetSummary(ledger: seq<Row>, applicable: seq<Budget>, maxEstimatedCost: Money) returns (p: Preview)
    ensures p.maxEstimatedCost == maxEstimatedCost
    ensures |p.rows| == |applicable| == |SortById(applicable)|
    ensures forall i :: 0 <= i < |p.rows| ==> p.rows[i] == PreviewOf(ledger, SortById(applicable)[i], maxEstimatedCost)
    ensures p.status == if applicable == [] then NoBudgets
                        else if AnyExceeds(ledger, applicable, maxEstimatedCost) then OverHardLimit
                        else if AnyReachesSoft(ledger, applicable, maxEstimatedCost) then SoftLimitReached
                        else WithinLimit
  {
    var budgets := SortById(applicable);
    SortFacts(applicable);
    if budgets == [] {
      return Preview(NoBudgets, maxEstimatedCost, []);
    }
    var rows, hardLimitExceeded, softLimitReached := BuildRows(ledger, budgets, maxEstimatedCost);
    p := Preview(if hardLimitExceeded then OverHardLimit else if softLimitReached then SoftLimitReached else WithinLimit,
                 maxEstimatedCost, rows);
  }

  method BuildRows(ledger: seq<Row>, budgets: seq<Budget>, maxEstimatedCost: Money)
    returns (rows: seq<PreviewRow>, hardLimitExceeded: bool, softLimitReached: bool)
    ensures |rows| == |budgets|
    ensures forall i :: 0 <= i < |rows| ==> rows[i] == PreviewOf(ledger, budgets[i], maxEstimatedCost)
    ensures hardLimitExceeded <==> AnyExceeds(ledger, budgets, maxEstimatedCost)
    ensures softLimitReached <==> AnyReachesSoft(ledger, budgets, maxEstimatedCost)
  {
    var runningTotals := FetchLatestRunningTotals(ledger);
    rows := [];
    hardLimitExceeded, softLimitReached := false, false;
    for i := 0 to |budgets|
      invariant |rows| == i
      invariant forall j :: 0 <= j < i ==> rows[j] == PreviewOf(ledger, budgets[j], maxEstimatedCost)
      invariant hardLimitExceeded <==> exists j :: 0 <= j < i && WouldExceed(ledger, budgets[j], maxEstimatedCost)
      invariant softLimitReached <==> exists j :: 0 <= j < i && WouldReachSoft(ledger, budgets[j], maxEstimatedCost)
    {
      var budget := budgets[i];
      var accumulated := if budget.id in runningTotals then runningTotals[budget.id] else 0;
      assert accumulated == LatestTotal(ledger, budget.id);
      var projected := SaturatedAdd(accumulated, maxEstimatedCost);
      var hardExceeded := budget.hardLimit.Some? && projected > budget.hardLimit.value;
      var softReached := budget.softLimit.Some? && projected >= budget.softLimit.value;
      hardLimitExceeded := hardLimitExceeded || hardExceeded;
      softLimitReached := softLimitReached || softReached;
      rows := rows + [PreviewRow(budget.id, accumulated, projected, budget.hardLimit, budget.softLimit, hardExceeded,
                                 softReached)];
    }
  }

  /** On the same ledger, budgets and cost, the preview reports `OverHardLimit` whenever enforcement
      would deny the request and never when it would grant it. The only other answer enforcement
      has is the overflow error, so when no total overflows the two agree exactly. */
  lemma PreviewAgreesWithEnforcement(rows: seq<Row>, requestId: string, budgets: seq<Budget>, cost: Money)
    requires FreshReserve(rows, requestId, budgets, cost)
    ensures var r := ReserveStep(rows, requestId, budgets, cost, true).1;
            var over := AnyExceeds(rows, budgets, cost);
            && (r.Ok? && r.value.Denied? ==> over)
            && (r.Ok? && r.value.Granted? ==> !over)
            && (r.Err? ==> exists b :: b in budgets && !InI64(LatestTotal(rows, b.id) + cost))
            && ((forall b :: b in budgets ==> InI64(LatestTotal(rows, b.id) + cost)) ==>
                  (over <==> r.Ok? && r.value.Denied?))
  {
    ReserveIsAllOrNothing(rows, requestId, budgets, cost, true);
    var k := FirstRefusal(rows, budgets, cost, true);
    forall b | b in budgets && InI64(LatestTotal(rows, b.id) + cost)
      ensures WouldExceed(rows, b, cost) <==> Refuses(rows, b, cost, true)
    {
    }
    if k < |budgets| {
      assert budgets[k] in budgets;
    } else {
      forall b | b in budgets
        ensures !WouldExceed(rows, b, cost)
      {
        var i :| 0 <= i < |budgets| && budgets[i] == b;
        assert !Refuses(rows, budgets[i], cost, true);
      }
    }
  }

  predicate ShowsSoft(warnings: seq<BudgetEvaluation.Warning>) {
    exists w :: w in warnings && w.SoftLimitReached?
  }

  ghost predicate SomeReached(budgets: seq<Budget>, rows: seq<Row>) {
    exists i :: 0 <= i < |budgets| && BudgetEvaluation.SoftReached(budgets[i], LatestTotal(rows, budgets[i].id))
  }

  lemma {:induction false} SoftWarningsShow(budgets: seq<Budget>, rows: seq<Row>)
    ensures ShowsSoft(BudgetEvaluation.ExpectedSoft(budgets, rows)) <==> SomeReached(budgets, rows)
  {
    if budgets != [] {
      var n := |budgets| - 1;
      SoftWarningsShow(budgets[..n], rows);
      SoftWarningsOfLast(budgets, rows);
      SomeReachedByLast(budgets, rows);
    }
  }

  lemma SomeReachedByLast(budgets: seq<Budget>, rows: seq<Row>)
    requires budgets != []
    ensures var n := |budgets| - 1;
            SomeReached(budgets, rows)
            <==> SomeReached(budgets[..n], rows)
                 || BudgetEvaluation.SoftReached(budgets[n], LatestTotal(rows, budgets[n].id))
  {
    var n := |budgets| - 1;
    var front := budgets[..n];
    if SomeReached(front, rows) {
      var i :| 0 <= i < n && BudgetEvaluation.SoftReached(front[i], LatestTotal(rows, front[i].id));
      assert budgets[i] == front[i];
    }
    if SomeReached(budgets, rows) {
      var i :| 0 <= i <= n && BudgetEvaluation.SoftReached(budgets[i], LatestTotal(rows, budgets[i].id));
      assert i < n ==> front[i] == budgets[i];
    }
  }

  lemma SoftWarningsOfLast(budgets: seq<Budget>, rows: seq<Row>)
    requires budgets != []
    ensures var n := |budgets| - 1;
            ShowsSoft(BudgetEvaluation.ExpectedSoft(budgets, rows))
            <==> ShowsSoft(BudgetEvaluation.ExpectedSoft(budgets[..n], rows))
                 || BudgetEvaluation.SoftReached(budgets[n], LatestTotal(rows, budgets[n].id))
  {
    var n := |budgets| - 1;
    var total := LatestTotal(rows, budgets[n].id);
    var before := BudgetEvaluation.ExpectedSoft(budgets[..n], rows);
    var all := BudgetEvaluation.ExpectedSoft(budgets, rows);
    if BudgetEvaluation.SoftReached(budgets[n], total) {
      var w := BudgetEvaluation.SoftLimitReached(budgets[n].id, total, budgets[n].softLimit.value);
      assert all == before + [w] && w in all;
    } else {
      assert all == before;
    }
  }

  /** On a fresh request that guard mode grants, the preview sees a soft limit reached exactly when the
      decision warns of one. */
  lemma PreviewAgreesOnSoftLimits(rows: seq<Row>, requestId: string, budgets: seq<Budget>, cost: Money)
    requires FreshReserve(rows, requestId, budgets, cost) && FirstRefusal(rows, budgets, cost, true) == |budgets|
    ensures var d := BudgetEvaluation.EvaluateStep(rows, BudgetEvaluation.Guard, requestId, Some(budgets), cost).1;
            && d.Allow?
            && (AnyReachesSoft(rows, budgets, cost) <==> exists w :: w in d.warnings && w.SoftLimitReached?)
  {
    var after := BudgetEvaluation.EvaluateStep(rows, BudgetEvaluation.Guard, requestId, Some(budgets), cost).0;
    BudgetEvaluation.GuardIsExact(rows, requestId, budgets, cost);
    SoftWarningsShow(budgets, after);
    forall i | 0 <= i < |budgets|
      ensures WouldReachSoft(rows, budgets[i], cost)
              <==> BudgetEvaluation.SoftReached(budgets[i], LatestTotal(after, budgets[i].id))
    {
      assert BudgetIds(budgets)[i] == budgets[i].id;
      assert !Refuses(rows, budgets[i], cost, true);
    }
  }
}
