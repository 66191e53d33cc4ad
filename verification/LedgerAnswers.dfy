/** What each ledger call answers: the ids it hands out, and which error it gives for what. The other
    facts of the ledger are about the rows a call leaves behind; these are about what its caller is
    told, for a reservation, its replay, and either settlement. */
module LedgerAnswers {
  import opened Outcomes
  import opened Amounts
  import opened Text
  import opened LedgerModel
  import opened LedgerFacts
  import opened ReserveFacts
  import opened LedgerBook

  lemma IdsAreOfRows(rows: seq<Row>, after: seq<Row>)
    requires rows <= after
    ensures |Ids(after[|rows|..])| == |after| - |rows|
    ensures forall k :: 0 <= k < |after| - |rows| ==> Ids(after[|rows|..])[k] == after[|rows| + k].id
  {
  }

  // ---------------------------------------------------------------- reserve

  /** A reservation that is not fit to be tried writes nothing: a blank request, a negative estimate, and
      then an empty list of budgets, which is granted. */
  lemma ReserveChecksItsArguments(rows: seq<Row>, requestId: string, budgets: seq<Budget>, cost: Money, enforce: bool)
    ensures var (after, r) := ReserveStep(rows, requestId, budgets, cost, enforce);
            && (r == Err(EmptyRequestId) <==> IsBlank(requestId))
            && (r == Err(NegativeEstimate) <==> !IsBlank(requestId) && cost < 0)
            && (IsBlank(requestId) || cost < 0 || budgets == [] ==> after == rows)
            && (!IsBlank(requestId) && cost >= 0 && budgets == [] ==> r == Ok(Granted([], [])))
  {
    if !IsBlank(requestId) && cost >= 0 && budgets != [] {
      ReplayErrors(budgets, cost, EntriesOf(rows, requestId, Reserve));
    }
  }

  lemma ReplayErrors(budgets: seq<Budget>, cost: Money, existing: seq<Row>)
    ensures ReservationFromExisting(budgets, cost, existing) != Err(EmptyRequestId)
    ensures ReservationFromExisting(budgets, cost, existing) != Err(NegativeEstimate)
  {
    MatchErrors(budgets, cost, existing);
  }

  lemma {:induction false} MatchErrors(budgets: seq<Budget>, cost: Money, existing: seq<Row>)
    ensures var r := MatchExisting(budgets, cost, existing);
            r.Err? ==> r.error == BudgetSetMismatch || r.error == EstimateMismatch
  {
    if budgets != [] {
      MatchErrors(budgets[1..], cost, existing);
    }
  }

  /** A grant answers the ids of the rows it wrote, one for each budget in order. */
  lemma GrantAnswersItsRows(rows: seq<Row>, requestId: string, budgets: seq<Budget>, cost: Money, enforce: bool)
    requires FreshReserve(rows, requestId, budgets, cost) && FirstRefusal(rows, budgets, cost, enforce) == |budgets|
    ensures var (after, r) := ReserveStep(rows, requestId, budgets, cost, enforce);
            && r.Ok? && r.value.Granted? && rows <= after
            && |r.value.entries| == |budgets| == |after| - |rows|
            && forall k :: 0 <= k < |budgets| ==>
                 && r.value.entries[k] == after[|rows| + k].id
                 && after[|rows| + k].budgetId == budgets[k].id && after[|rows| + k].amount == cost
                 && after[|rows| + k].requestId == requestId && after[|rows| + k].entryType == Reserve
  {
    var (after, r) := ReserveStep(rows, requestId, budgets, cost, enforce);
    ReserveIsAllOrNothing(rows, requestId, budgets, cost, enforce);
    GrantEntries(rows, after, requestId, budgets, cost);
    IdsAreOfRows(rows, after);
    PostedRowsAre(rows, after, requestId, budgets, cost);
  }

  lemma PostedRowsAre(rows: seq<Row>, after: seq<Row>, requestId: string, budgets: seq<Budget>, cost: Money)
    requires Extends(rows, after, requestId, Reserve, BudgetIds(budgets), Copies(|budgets|, cost))
    ensures rows <= after && |after| - |rows| == |budgets|
    ensures forall k :: 0 <= k < |budgets| ==>
              && after[|rows| + k].budgetId == budgets[k].id && after[|rows| + k].amount == cost
              && after[|rows| + k].requestId == requestId && after[|rows| + k].entryType == Reserve
  {
    forall k | 0 <= k < |budgets|
      ensures after[|rows| + k].budgetId == budgets[k].id && after[|rows| + k].amount == cost
      ensures after[|rows| + k].requestId == requestId && after[|rows| + k].entryType == Reserve
    {
      assert PostedAt(after, |rows| + k, requestId, Reserve, BudgetIds(budgets)[k], Copies(|budgets|, cost)[k]);
    }
  }

  /** The replay of a request fails over its first budget that has no original row, or one of another
      amount, after its number of budgets and their originals have been checked. */
  lemma {:induction false} MatchStopsAt(budgets: seq<Budget>, cost: Money, existing: seq<Row>, i: nat)
    requires i < |budgets|
    requires forall j :: 0 <= j < i ==> HasRowOf(existing, budgets[j].id, cost)
    requires !HasRowOf(existing, budgets[i].id, cost)
    ensures MatchExisting(budgets, cost, existing)
         == Err(if HasBudget(existing, budgets[i].id) then EstimateMismatch else BudgetSetMismatch)
  {
    var k := FindBudget(existing, budgets[0].id);
    if i > 0 {
      assert HasRowOf(existing, budgets[0].id, cost);
      MatchStopsAt(budgets[1..], cost, existing, i - 1);
    } else if k < |existing| {
      assert HasBudget(existing, budgets[0].id);
    }
  }

  /** The first row on the budget has this amount. */
  predicate HasRowOf(existing: seq<Row>, budgetId: int, amount: Money) {
    exists k :: 0 <= k < |existing| && existing[k].budgetId == budgetId && existing[k].amount == amount
                && forall j :: 0 <= j < k ==> existing[j].budgetId != budgetId
  }

  lemma ReplayFailsAtTheFirstMismatch(rows: seq<Row>, requestId: string, budgets: seq<Budget>, cost: Money,
                                      enforce: bool, i: nat)
    requires !IsBlank(requestId) && cost >= 0 && budgets != []
    requires EntriesOf(rows, requestId, Reserve) != []
    ensures var existing := EntriesOf(rows, requestId, Reserve);
            var r := ReserveStep(rows, requestId, budgets, cost, enforce).1;
            if |existing| != |budgets| then r == Err(BudgetSetMismatch)
            else if exists j, k :: 0 <= j < k < |existing| && existing[j].budgetId == existing[k].budgetId
            then r == Err(DuplicateReserve)
            else
              i < |budgets| && !HasRowOf(existing, budgets[i].id, cost)
              && (forall j :: 0 <= j < i ==> HasRowOf(existing, budgets[j].id, cost)) ==>
                r == Err(if HasBudget(existing, budgets[i].id) then EstimateMismatch else BudgetSetMismatch)
  {
    var existing := EntriesOf(rows, requestId, Reserve);
    if i < |budgets| && !HasRowOf(existing, budgets[i].id, cost)
       && (forall j :: 0 <= j < i ==> HasRowOf(existing, budgets[j].id, cost))
    {
      MatchStopsAt(budgets, cost, existing, i);
    }
  }

  // ---------------------------------------------------------------- reconcile and release

  /** What a settlement answers without posting anything: a blank request, a negative cost, the ids of the
      settlement that is there, a conflict with the other one, or no reservation, in this order. */
  lemma SettlementChecksItsRequest(rows: seq<Row>, requestId: string, entryType: EntryType, target: Money)
    requires entryType != Reserve
    ensures var (after, r) := SettleStep(rows, requestId, entryType, target);
            var mine, reserved := EntriesOf(rows, requestId, entryType), EntriesOf(rows, requestId, Reserve);
            var other := EntriesOf(rows, requestId, if entryType == Reconcile then Release else Reconcile);
            if IsBlank(requestId) then (after, r) == (rows, Err(EmptyRequestId))
            else if target < 0 then (after, r) == (rows, Err(NegativeActual))
            else if mine != [] then
              after == rows && r.Ok? && |r.value| == |mine| && forall k :: 0 <= k < |mine| ==> r.value[k] == mine[k].id
            else if other != [] then
              after == rows
              && (entryType == Reconcile ==> r == Err(ReconcileAfterRelease))
              && (entryType == Release ==> r == Err(ReleaseAfterReconcile))
            else reserved == [] ==> (after, r) == (rows, Err(NoReserve))
  {
  }

  predicate IsUnsettled(rows: seq<Row>, requestId: string) {
    && !IsBlank(requestId) && EntriesOf(rows, requestId, Reserve) != []
    && EntriesOf(rows, requestId, Reconcile) == [] && EntriesOf(rows, requestId, Release) == []
  }

  /** The row can be brought to the target: neither its difference nor the new total leaves 64 bits. */
  ghost predicate CanMove(rows: seq<Row>, row: Row, target: Money) {
    InI64(target - row.amount) && InI64(LatestTotal(rows, row.budgetId) + target - row.amount)
  }

  ghost predicate AllCanMove(rows: seq<Row>, reserved: seq<Row>, target: Money, n: nat)
    requires n <= |reserved|
  {
    forall j :: 0 <= j < n ==> CanMove(rows, reserved[j], target)
  }

  lemma {:induction false} PostSettlementStopsAt(rows: seq<Row>, requestId: string, entryType: EntryType,
                                                 reserved: seq<Row>, target: Money, i: nat)
    requires i < |reserved| && DistinctBudgets(reserved)
    requires AllCanMove(rows, reserved, target, i) && !CanMove(rows, reserved[i], target)
    ensures PostSettlement(rows, requestId, entryType, reserved, target)
         == Err(if InI64(target - reserved[i].amount) then TotalOverflow else DiffOverflow)
    decreases |reserved|
  {
    if i > 0 {
      var mid := SettlementGoesOn(rows, requestId, entryType, reserved, target, i);
      PostSettlementStopsAt(mid, requestId, entryType, reserved[1..], target, i - 1);
    }
  }

  lemma SettlementGoesOn(rows: seq<Row>, requestId: string, entryType: EntryType, reserved: seq<Row>, target: Money,
                         i: nat)
    returns (mid: seq<Row>)
    requires 0 < i < |reserved| && DistinctBudgets(reserved)
    requires AllCanMove(rows, reserved, target, i) && !CanMove(rows, reserved[i], target)
    ensures PostSettlement(rows, requestId, entryType, reserved, target)
         == PostSettlement(mid, requestId, entryType, reserved[1..], target)
    ensures DistinctBudgets(reserved[1..]) && reserved[1..][i - 1] == reserved[i]
    ensures AllCanMove(mid, reserved[1..], target, i - 1) && !CanMove(mid, reserved[1..][i - 1], target)
  {
    assert CanMove(rows, reserved[0], target);
    mid := FirstRowSettles(rows, requestId, entryType, reserved, target);
    RestMovesAlike(rows, requestId, entryType, reserved, target, i);
  }

  lemma FirstRowSettles(rows: seq<Row>, requestId: string, entryType: EntryType, reserved: seq<Row>, target: Money)
    returns (mid: seq<Row>)
    requires reserved != [] && CanMove(rows, reserved[0], target)
    ensures var first, delta := reserved[0].budgetId, target - reserved[0].amount;
            mid == Insert(rows, requestId, entryType, first, delta, LatestTotal(rows, first) + delta)
    ensures PostSettlement(rows, requestId, entryType, reserved, target)
         == PostSettlement(mid, requestId, entryType, reserved[1..], target)
  {
    var first, delta := reserved[0].budgetId, target - reserved[0].amount;
    SettlementStep(rows, requestId, entryType, reserved, target);
    mid := Insert(rows, requestId, entryType, first, delta, LatestTotal(rows, first) + delta);
  }

  lemma RestMovesAlike(rows: seq<Row>, requestId: string, entryType: EntryType, reserved: seq<Row>, target: Money,
                       i: nat)
    requires 0 < i < |reserved| && DistinctBudgets(reserved) && CanMove(rows, reserved[0], target)
    ensures var first, delta := reserved[0].budgetId, target - reserved[0].amount;
            var mid := Insert(rows, requestId, entryType, first, delta, LatestTotal(rows, first) + delta);
            && DistinctBudgets(reserved[1..]) && reserved[1..][i - 1] == reserved[i]
            && (AllCanMove(rows, reserved, target, i) ==> AllCanMove(mid, reserved[1..], target, i - 1))
            && (CanMove(mid, reserved[1..][i - 1], target) <==> CanMove(rows, reserved[i], target))
  {
    var first, delta := reserved[0].budgetId, target - reserved[0].amount;
    var mid := Insert(rows, requestId, entryType, first, delta, LatestTotal(rows, first) + delta);
    forall j | 0 <= j < |reserved| - 1
      ensures reserved[1..][j] == reserved[j + 1]
      ensures CanMove(mid, reserved[1..][j], target) <==> CanMove(rows, reserved[j + 1], target)
    {
      OthersMoveAlike(rows, requestId, entryType, first, delta, reserved[j + 1], target);
    }
  }

  lemma OthersMoveAlike(rows: seq<Row>, requestId: string, entryType: EntryType, first: int, delta: Money, row: Row,
                        target: Money)
    requires InI64(LatestTotal(rows, first) + delta) && row.budgetId != first
    ensures var mid := Insert(rows, requestId, entryType, first, delta, LatestTotal(rows, first) + delta);
            CanMove(mid, row, target) <==> CanMove(rows, row, target)
  {
    InsertMovesOneTotal(rows, requestId, entryType, first, delta, LatestTotal(rows, first) + delta);
  }

  /** An unsettled reservation that cannot be settled is refused over its first row whose difference, or whose
      new total, leaves 64 bits, and which of the two it was is the answer. */
  lemma SettlementFailsAtTheFirstOverflow(rows: seq<Row>, requestId: string, entryType: EntryType, target: Money,
                                          i: nat)
    requires entryType != Reserve && target >= 0 && IsUnsettled(rows, requestId)
    requires DistinctBudgets(EntriesOf(rows, requestId, Reserve)) && i < |EntriesOf(rows, requestId, Reserve)|
    requires var reserved := EntriesOf(rows, requestId, Reserve);
             AllCanMove(rows, reserved, target, i) && !CanMove(rows, reserved[i], target)
    ensures var reserved := EntriesOf(rows, requestId, Reserve);
            SettleStep(rows, requestId, entryType, target)
            == (rows, Err(if InI64(target - reserved[i].amount) then TotalOverflow else DiffOverflow))
  {
    PostSettlementStopsAt(rows, requestId, entryType, EntriesOf(rows, requestId, Reserve), target, i);
  }

  /** The row settles the reserved one: what is missing to the target, on its budget. */
  predicate Settles(row: Row, reserved: Row, requestId: string, entryType: EntryType, target: Money) {
    && row.budgetId == reserved.budgetId && row.amount == target - reserved.amount
    && row.requestId == requestId && row.entryType == entryType
  }

  /** A settlement that posts answers the ids of the rows it wrote, one for each reserved row. */
  lemma SettlementAnswersItsRows(rows: seq<Row>, requestId: string, entryType: EntryType, target: Money)
    requires entryType != Reserve && target >= 0 && IsUnsettled(rows, requestId)
    requires SettleStep(rows, requestId, entryType, target).1.Ok?
    ensures var (after, r) := SettleStep(rows, requestId, entryType, target);
            var reserved := EntriesOf(rows, requestId, Reserve);
            && rows <= after && |r.value| == |reserved| == |after| - |rows|
            && forall k :: 0 <= k < |reserved| ==>
                 && r.value[k] == after[|rows|..][k].id
                 && Settles(after[|rows|..][k], reserved[k], requestId, entryType, target)
  {
    SettlementIsPostedHere(rows, requestId, entryType, target);
    SettlementPosts(rows, requestId, entryType, EntriesOf(rows, requestId, Reserve), target);
    var (after, r) := SettleStep(rows, requestId, entryType, target);
    SettledRowsAre(rows, after, requestId, entryType, EntriesOf(rows, requestId, Reserve), target);
    assert forall k :: 0 <= k < |after| - |rows| ==> after[|rows|..][k] == after[|rows| + k];
    assert r.value == Ids(after[|rows|..]);
  }

  lemma SettlementIsPostedHere(rows: seq<Row>, requestId: string, entryType: EntryType, target: Money)
    requires entryType != Reserve && target >= 0 && IsUnsettled(rows, requestId)
    requires SettleStep(rows, requestId, entryType, target).1.Ok?
    ensures var (after, r) := SettleStep(rows, requestId, entryType, target);
            var p := PostSettlement(rows, requestId, entryType, EntriesOf(rows, requestId, Reserve), target);
            p == Ok(after) && rows <= after && r.value == Ids(after[|rows|..])
  {
    SettlementPosts(rows, requestId, entryType, EntriesOf(rows, requestId, Reserve), target);
  }

  lemma SettledRowsAre(rows: seq<Row>, after: seq<Row>, requestId: string, entryType: EntryType, reserved: seq<Row>,
                       target: Money)
    requires Extends(rows, after, requestId, entryType, RowBudgets(reserved), Diffs(reserved, target))
    ensures rows <= after && |after| == |rows| + |reserved|
    ensures forall k :: 0 <= k < |reserved| ==> Settles(after[|rows| + k], reserved[k], requestId, entryType, target)
  {
    forall k | 0 <= k < |reserved|
      ensures Settles(after[|rows| + k], reserved[k], requestId, entryType, target)
    {
      assert PostedAt(after, |rows| + k, requestId, entryType, RowBudgets(reserved)[k], Diffs(reserved, target)[k]);
    }
  }
}
