/** The ledger object: a durable table and three transactional calls. A transaction works on the
    table and restores the snapshot taken at its start when it rolls back. */
module CostLedgers {
  import opened Outcomes
  import opened Amounts
  import opened Text
  import opened LedgerModel

  // ---------------------------------------------------------------- one turn of the loops

  lemma PostReserveNext(rows: seq<Row>, requestId: string, budgets: seq<Budget>, i: nat, cost: Money, enforce: bool)
    requires i < |budgets|
    ensures var budget := budgets[i];
            PostReserve(rows, requestId, budgets[i..], cost, enforce)
            == match CheckedAdd(LatestTotal(rows, budget.id), cost)
               case None => PostOverflow
               case Some(total) =>
                 if enforce && OverLimit(budget, total) then PostOverLimit(budget, total, budget.hardLimit.value)
                 else PostReserve(Insert(rows, requestId, Reserve, budget.id, cost, total), requestId, budgets[i + 1..], cost,
                                  enforce)
  {
    assert budgets[i..][0] == budgets[i] && budgets[i..][1..] == budgets[i + 1..];
  }

  lemma PostSettlementNext(rows: seq<Row>, requestId: string, entryType: EntryType, reserved: seq<Row>, i: nat,
                           target: Money)
    requires i < |reserved|
    ensures var row := reserved[i];
            PostSettlement(rows, requestId, entryType, reserved[i..], target)
            == match CheckedSub(target, row.amount)
               case None => Err(DiffOverflow)
               case Some(diff) =>
                 match CheckedAdd(LatestTotal(rows, row.budgetId), diff)
                 case None => Err(TotalOverflow)
                 case Some(total) =>
                   PostSettlement(Insert(rows, requestId, entryType, row.budgetId, diff, total), requestId, entryType,
                                  reserved[i + 1..], target)
  {
    assert reserved[i..][0] == reserved[i] && reserved[i..][1..] == reserved[i + 1..];
  }

  lemma IdsAfterOne(n: nat, rows: seq<Row>, row: Row)
    requires n <= |rows|
    ensures (rows + [row])[n..] == rows[n..] + [row]
    ensures Ids((rows + [row])[n..]) == Ids(rows[n..]) + [row.id]
  {
    assert (rows + [row])[n..] == rows[n..] + [row];
  }

  /** The reservation loop after i budgets: the rest of the posting, on the rows so far, is the whole. */
  ghost predicate Reserving(snapshot: seq<Row>, rows: seq<Row>, requestId: string, budgets: seq<Budget>, i: nat,
                            cost: Money, enforce: bool, entries: seq<int>, remaining: seq<BudgetRemaining>)
  {
    && i <= |budgets| && |rows| == |snapshot| + i && snapshot <= rows
    && PostReserve(snapshot, requestId, budgets, cost, enforce)
       == PostReserve(rows, requestId, budgets[i..], cost, enforce)
    && entries == Ids(rows[|snapshot|..])
    && remaining == RemainingAfter(budgets[..i], rows[|snapshot|..])
  }

  lemma ReservingOne(snapshot: seq<Row>, rows: seq<Row>, requestId: string, budgets: seq<Budget>, i: nat, cost: Money,
                     enforce: bool, entries: seq<int>, remaining: seq<BudgetRemaining>, total: Money)
    requires Reserving(snapshot, rows, requestId, budgets, i, cost, enforce, entries, remaining)
    requires i < |budgets| && CheckedAdd(LatestTotal(rows, budgets[i].id), cost) == Some(total)
    requires !(enforce && OverLimit(budgets[i], total))
    ensures Reserving(snapshot, Insert(rows, requestId, Reserve, budgets[i].id, cost, total), requestId, budgets, i + 1,
                      cost, enforce, entries + [NextId(rows)],
                      remaining + [BudgetRemaining(budgets[i].id, Minus(budgets[i].hardLimit, total))])
  {
    var row := Row(NextId(rows), requestId, Reserve, budgets[i].id, cost, total);
    PostReserveNext(rows, requestId, budgets, i, cost, enforce);
    IdsAfterOne(|snapshot|, rows, row);
  }

  /** What the transaction answers where the loop leaves off. */
  lemma ReservingEnds(snapshot: seq<Row>, rows: seq<Row>, requestId: string, budgets: seq<Budget>, i: nat, cost: Money,
                      enforce: bool, entries: seq<int>, remaining: seq<BudgetRemaining>)
    requires Reserving(snapshot, rows, requestId, budgets, i, cost, enforce, entries, remaining)
    requires !IsBlank(requestId) && cost >= 0 && budgets != [] && EntriesOf(snapshot, requestId, Reserve) == []
    ensures var result := ReserveStep(snapshot, requestId, budgets, cost, enforce);
            if i == |budgets| then result == (rows, Ok(Granted(entries, remaining)))
            else
              match CheckedAdd(LatestTotal(rows, budgets[i].id), cost)
              case None => result == (snapshot, Err(ReserveOverflow))
              case Some(total) =>
                enforce && OverLimit(budgets[i], total) ==>
                  result == (snapshot, Ok(Denied(budgets[i], total, budgets[i].hardLimit.value)))
  {
    if i == |budgets| {
      assert budgets[i..] == [] && budgets[..i] == budgets;
    } else {
      PostReserveNext(rows, requestId, budgets, i, cost, enforce);
    }
  }

  function After(earlier: seq<BudgetRemaining>, rest: Result<seq<BudgetRemaining>, LedgerError>)
    : Result<seq<BudgetRemaining>, LedgerError>
  {
    match rest
    case Err(e) => Err(e)
    case Ok(remaining) => Ok(earlier + remaining)
  }

  lemma MatchingStarts(budgets: seq<Budget>, cost: Money, rows: seq<Row>)
    ensures MatchExisting(budgets, cost, rows) == After([], MatchExisting(budgets[0..], cost, rows))
  {
    assert budgets[0..] == budgets;
    var whole := MatchExisting(budgets, cost, rows);
    assert whole.Ok? ==> [] + whole.value == whole.value;
  }

  lemma MatchExistingNext(budgets: seq<Budget>, i: nat, cost: Money, rows: seq<Row>, earlier: seq<BudgetRemaining>)
    requires i < |budgets|
    ensures var k := FindBudget(rows, budgets[i].id);
            After(earlier, MatchExisting(budgets[i..], cost, rows))
            == if k == |rows| then Err(BudgetSetMismatch)
               else if rows[k].amount != cost then Err(EstimateMismatch)
               else
                 After(earlier + [BudgetRemaining(budgets[i].id, Minus(budgets[i].hardLimit, rows[k].runningTotal))],
                       MatchExisting(budgets[i + 1..], cost, rows))
  {
    assert budgets[i..][0] == budgets[i] && budgets[i..][1..] == budgets[i + 1..];
    var k := FindBudget(rows, budgets[i].id);
    var rest := MatchExisting(budgets[i + 1..], cost, rows);
    if k < |rows| && rest.Ok? {
      var next := BudgetRemaining(budgets[i].id, Minus(budgets[i].hardLimit, rows[k].runningTotal));
      assert earlier + ([next] + rest.value) == earlier + [next] + rest.value;
    }
  }

  class CostLedger {
    var rows: seq<Row>

    constructor ()
      ensures rows == []
    {
      rows := [];
    }

    method LatestRunningTotal(budgetId: int) returns (total: Money)
      ensures total == LatestTotal(rows, budgetId)
    {
      var i := |rows|;
      assert rows[..i] == rows;
      while i > 0
        invariant 0 <= i <= |rows|
        invariant LatestTotal(rows, budgetId) == LatestTotal(rows[..i], budgetId)
      {
        i := i - 1;
        assert rows[..i + 1][..i] == rows[..i];
        if rows[i].budgetId == budgetId {
          return rows[i].runningTotal;
        }
      }
      total := 0;
    }

    method RequestEntriesByType(requestId: string, entryType: EntryType) returns (entries: seq<Row>)
      ensures entries == EntriesOf(rows, requestId, entryType)
    {
      entries := [];
      for i := 0 to |rows|
        invariant entries == EntriesOf(rows[..i], requestId, entryType)
      {
        assert rows[..i + 1][..i] == rows[..i];
        if rows[i].requestId == requestId && rows[i].entryType == entryType {
          entries := entries + [rows[i]];
        }
      }
      assert rows[..|rows|] == rows;
    }

    method InsertLedgerEntry(requestId: string, entryType: EntryType, budgetId: int, amount: Money, total: Money)
      returns (id: int)
      modifies this
      ensures rows == Insert(old(rows), requestId, entryType, budgetId, amount, total)
      ensures id == rows[|rows| - 1].id == NextId(old(rows))
    {
      id := NextId(rows);
      rows := rows + [Row(id, requestId, entryType, budgetId, amount, total)];
    }

    method ReserveInternal(requestId: string, budgets: seq<Budget>, estimatedCost: Money, enforceHardLimits: bool)
      returns (r: Result<Reservation, LedgerError>)
      modifies this
      ensures (rows, r) == ReserveStep(old(rows), requestId, budgets, estimatedCost, enforceHardLimits)
    {
      if IsBlank(requestId) {
        return Err(EmptyRequestId);
      }
      if estimatedCost < 0 {
        return Err(NegativeEstimate);
      }
      if budgets == [] {
        return Ok(Granted([], []));
      }
      var existing := RequestEntriesByType(requestId, Reserve);
      if existing != [] {
        r := ReplayReservation(budgets, estimatedCost, existing);
        return;
      }

      var snapshot := rows;
      var entries: seq<int> := [];
      var remaining: seq<BudgetRemaining> := [];
      for i := 0 to |budgets|
        invariant Reserving(snapshot, rows, requestId, budgets, i, estimatedCost, enforceHardLimits, entries, remaining)
      {
        var budget := budgets[i];
        ReservingEnds(snapshot, rows, requestId, budgets, i, estimatedCost, enforceHardLimits, entries, remaining);
        var currentTotal := LatestRunningTotal(budget.id);
        var newTotal := CheckedAdd(currentTotal, estimatedCost);
        if newTotal.None? {
          rows := snapshot;
          return Err(ReserveOverflow);
        }
        if enforceHardLimits && budget.hardLimit.Some? && newTotal.value > budget.hardLimit.value {
          rows := snapshot;
          return Ok(Denied(budget, newTotal.value, budget.hardLimit.value));
        }
        ReservingOne(snapshot, rows, requestId, budgets, i, estimatedCost, enforceHardLimits, entries, remaining,
                     newTotal.value);
        var id := InsertLedgerEntry(requestId, Reserve, budget.id, estimatedCost, newTotal.value);
        entries := entries + [id];
        remaining := remaining + [BudgetRemaining(budget.id, Minus(budget.hardLimit, newTotal.value))];
      }
      ReservingEnds(snapshot, rows, requestId, budgets, |budgets|, estimatedCost, enforceHardLimits, entries, remaining);
      r := Ok(Granted(entries, remaining));
    }

    method ReplayReservation(budgets: seq<Budget>, estimatedCost: Money, existing: seq<Row>)
      returns (r: Result<Reservation, LedgerError>)
      ensures r == ReservationFromExisting(budgets, estimatedCost, existing)
    {
      if |existing| != |budgets| {
        return Err(BudgetSetMismatch);
      }
      var byBudget := IndexByBudget(existing);
      if byBudget.None? {
        return Err(DuplicateReserve);
      }
      var remaining: seq<BudgetRemaining> := [];
      MatchingStarts(budgets, estimatedCost, existing);
      for i := 0 to |budgets|
        invariant MatchExisting(budgets, estimatedCost, existing)
               == After(remaining, MatchExisting(budgets[i..], estimatedCost, existing))
      {
        MatchExistingNext(budgets, i, estimatedCost, existing, remaining);
        var k := FindBudget(existing, budgets[i].id);
        if budgets[i].id !in byBudget.value {
          return Err(BudgetSetMismatch);
        }
        var row := byBudget.value[budgets[i].id];
        assert row == existing[k];
        if row.amount != estimatedCost {
          return Err(EstimateMismatch);
        }
        remaining := remaining + [BudgetRemaining(budgets[i].id, Minus(budgets[i].hardLimit, row.runningTotal))];
      }
      assert remaining + [] == remaining;
      r := Ok(Granted(Ids(existing), remaining));
    }

    /** The rows by budget, or `None` when two are for the same one. */
    method IndexByBudget(existing: seq<Row>) returns (byBudget: Option<map<int, Row>>)
      ensures byBudget.Some? <==> DistinctBudgets(existing)
      ensures byBudget.Some? ==> forall b :: b in byBudget.value <==> FindBudget(existing, b) < |existing|
      ensures byBudget.Some? ==> forall b :: b in byBudget.value ==> byBudget.value[b] == existing[FindBudget(existing, b)]
    {
      var rowsOf: map<int, Row> := map[];
      for i := 0 to |existing|
        invariant forall b :: b in rowsOf <==> exists j :: 0 <= j < i && existing[j].budgetId == b
        invariant forall j :: 0 <= j < i ==> rowsOf[existing[j].budgetId] == existing[j]
        invariant DistinctBudgets(existing[..i])
      {
        if existing[i].budgetId in rowsOf {
          assert !DistinctBudgets(existing);
          return None;
        }
        rowsOf := rowsOf[existing[i].budgetId := existing[i]];
      }
      assert existing[..|existing|] == existing;
      forall b
        ensures b in rowsOf <==> FindBudget(existing, b) < |existing|
      {
        var k := FindBudget(existing, b);
        assert k < |existing| ==> existing[k].budgetId == b;
      }
      byBudget := Some(rowsOf);
    }

    method ReconcileRequest(requestId: string, actualCost: Money) returns (r: Result<seq<int>, LedgerError>)
      modifies this
      ensures (rows, r) == SettleStep(old(rows), requestId, Reconcile, actualCost)
    {
      if IsBlank(requestId) {
        return Err(EmptyRequestId);
      }
      if actualCost < 0 {
        return Err(NegativeActual);
      }
      var existing := RequestEntriesByType(requestId, Reconcile);
      if existing != [] {
        return Ok(Ids(existing));
      }
      var released := RequestEntriesByType(requestId, Release);
      if released != [] {
        return Err(ReconcileAfterRelease);
      }
      var reserved := RequestEntriesByType(requestId, Reserve);
      if reserved == [] {
        return Err(NoReserve);
      }

      var snapshot := rows;
      var entryIds: seq<int> := [];
      for i := 0 to |reserved|
        invariant |rows| == |snapshot| + i && snapshot <= rows
        invariant PostSettlement(snapshot, requestId, Reconcile, reserved, actualCost)
               == PostSettlement(rows, requestId, Reconcile, reserved[i..], actualCost)
        invariant entryIds == Ids(rows[|snapshot|..])
      {
        var row := reserved[i];
        PostSettlementNext(rows, requestId, Reconcile, reserved, i, actualCost);
        var diff := CheckedSub(actualCost, row.amount);
        if diff.None? {
          rows := snapshot;
          return Err(DiffOverflow);
        }
        var currentTotal := LatestRunningTotal(row.budgetId);
        var newTotal := CheckedAdd(currentTotal, diff.value);
        if newTotal.None? {
          rows := snapshot;
          return Err(TotalOverflow);
        }
        ghost var before := rows;
        var id := InsertLedgerEntry(requestId, Reconcile, row.budgetId, diff.value, newTotal.value);
        IdsAfterOne(|snapshot|, before, rows[|rows| - 1]);
        entryIds := entryIds + [id];
      }
      r := Ok(entryIds);
    }

    method ReleaseRequest(requestId: string) returns (r: Result<seq<int>, LedgerError>)
      modifies this
      ensures (rows, r) == SettleStep(old(rows), requestId, Release, 0)
    {
      if IsBlank(requestId) {
        return Err(EmptyRequestId);
      }
      var existing := RequestEntriesByType(requestId, Release);
      if existing != [] {
        return Ok(Ids(existing));
      }
      var reconciled := RequestEntriesByType(requestId, Reconcile);
      if reconciled != [] {
        return Err(ReleaseAfterReconcile);
      }
      var reserved := RequestEntriesByType(requestId, Reserve);
      if reserved == [] {
        return Err(NoReserve);
      }

      var snapshot := rows;
      var entryIds: seq<int> := [];
      for i := 0 to |reserved|
        invariant |rows| == |snapshot| + i && snapshot <= rows
        invariant PostSettlement(snapshot, requestId, Release, reserved, 0)
               == PostSettlement(rows, requestId, Release, reserved[i..], 0)
        invariant entryIds == Ids(rows[|snapshot|..])
      {
        var row := reserved[i];
        PostSettlementNext(rows, requestId, Release, reserved, i, 0);
        var releaseAmount := CheckedSub(0, row.amount);
        if releaseAmount.None? {
          rows := snapshot;
          return Err(DiffOverflow);
        }
        var currentTotal := LatestRunningTotal(row.budgetId);
        var newTotal := CheckedAdd(currentTotal, releaseAmount.value);
        if newTotal.None? {
          rows := snapshot;
          return Err(TotalOverflow);
        }
        ghost var before := rows;
        var id := InsertLedgerEntry(requestId, Release, row.budgetId, releaseAmount.value, newTotal.value);
        IdsAfterOne(|snapshot|, before, rows[|rows| - 1]);
        entryIds := entryIds + [id];
      }
      r := Ok(entryIds);
    }
  }
}
