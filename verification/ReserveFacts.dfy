/** What one reservation decides, and what replaying it answers. */
module ReserveFacts {
  import opened Outcomes
  import opened Amounts
  import opened Text
  import opened LedgerModel
  import opened LedgerFacts

  // ---------------------------------------------------------------- totals after a posting

  predicate Unlisted(ids: seq<int>, n: nat, id: int)
    requires n <= |ids|
  {
    forall k :: 0 <= k < n ==> ids[k] != id
  }

  lemma LatestOfPrefix(after: seq<Row>, i: nat, budgetId: int)
    requires i < |after|
    ensures LatestTotal(after[..i + 1], budgetId)
         == if after[i].budgetId == budgetId then after[i].runningTotal else LatestTotal(after[..i], budgetId)
  {
    assert after[..i + 1][..i] == after[..i];
  }

  lemma {:induction false} UnlistedTotal(rows: seq<Row>, after: seq<Row>, requestId: string, entryType: EntryType,
                                         ids: seq<int>, amounts: seq<int>, n: nat, budgetId: int)
    requires Extends(rows, after, requestId, entryType, ids, amounts)
    requires n <= |ids| && Unlisted(ids, n, budgetId)
    ensures LatestTotal(after[..|rows| + n], budgetId) == LatestTotal(rows, budgetId)
  {
    if n == 0 {
      assert after[..|rows|] == rows;
    } else {
      var i := |rows| + (n - 1);
      assert PostedAt(after, i, requestId, entryType, ids[n - 1], amounts[n - 1]);
      LatestOfPrefix(after, i, budgetId);
      UnlistedTotal(rows, after, requestId, entryType, ids, amounts, n - 1, budgetId);
    }
  }

  lemma {:induction false} ListedTotal(rows: seq<Row>, after: seq<Row>, requestId: string, entryType: EntryType,
                                       ids: seq<int>, amounts: seq<int>, n: nat, k: nat)
    requires Extends(rows, after, requestId, entryType, ids, amounts) && Distinct(ids)
    requires k < n <= |ids|
    ensures LatestTotal(after[..|rows| + n], ids[k]) == LatestTotal(rows, ids[k]) + amounts[k]
  {
    var i := |rows| + (n - 1);
    assert PostedAt(after, i, requestId, entryType, ids[n - 1], amounts[n - 1]);
    LatestOfPrefix(after, i, ids[k]);
    if k == n - 1 {
      UnlistedTotal(rows, after, requestId, entryType, ids, amounts, k, ids[k]);
    } else {
      ListedTotal(rows, after, requestId, entryType, ids, amounts, n - 1, k);
    }
  }

  lemma ListsNone(ids: seq<int>, id: int)
    requires id !in ids
    ensures Unlisted(ids, |ids|, id)
  {
  }

  lemma TotalOfUnlisted(rows: seq<Row>, after: seq<Row>, requestId: string, entryType: EntryType, ids: seq<int>,
                        amounts: seq<int>, budgetId: int)
    requires Extends(rows, after, requestId, entryType, ids, amounts) && budgetId !in ids
    ensures LatestTotal(after, budgetId) == LatestTotal(rows, budgetId)
  {
    ListsNone(ids, budgetId);
    UnlistedTotal(rows, after, requestId, entryType, ids, amounts, |ids|, budgetId);
    assert after[..|rows| + |ids|] == after;
  }

  lemma TotalOfListed(rows: seq<Row>, after: seq<Row>, requestId: string, entryType: EntryType, ids: seq<int>,
                      amounts: seq<int>, k: nat)
    requires Extends(rows, after, requestId, entryType, ids, amounts) && Distinct(ids) && k < |ids|
    ensures LatestTotal(after, ids[k]) == LatestTotal(rows, ids[k]) + amounts[k]
  {
    ListedTotal(rows, after, requestId, entryType, ids, amounts, |ids|, k);
    assert after[..|rows| + |ids|] == after;
  }

  /** With distinct budgets, a posting moves each listed budget's total by its own amount, computed
      from the total before the call, and moves no other. */
  lemma ExtendsTotal(rows: seq<Row>, after: seq<Row>, requestId: string, entryType: EntryType, ids: seq<int>,
                     amounts: seq<int>, budgetId: int)
    requires Extends(rows, after, requestId, entryType, ids, amounts) && Distinct(ids)
    ensures budgetId !in ids ==> LatestTotal(after, budgetId) == LatestTotal(rows, budgetId)
    ensures forall k :: 0 <= k < |ids| && ids[k] == budgetId ==>
              LatestTotal(after, budgetId) == LatestTotal(rows, budgetId) + amounts[k]
  {
    if budgetId !in ids {
      TotalOfUnlisted(rows, after, requestId, entryType, ids, amounts, budgetId);
    }
    forall k | 0 <= k < |ids| && ids[k] == budgetId
      ensures LatestTotal(after, budgetId) == LatestTotal(rows, budgetId) + amounts[k]
    {
      TotalOfListed(rows, after, requestId, entryType, ids, amounts, k);
    }
  }

  lemma ExtendsRowTotal(rows: seq<Row>, after: seq<Row>, requestId: string, entryType: EntryType, ids: seq<int>,
                        amounts: seq<int>, k: nat)
    requires Extends(rows, after, requestId, entryType, ids, amounts) && Distinct(ids)
    requires k < |ids|
    ensures after[|rows| + k].runningTotal == LatestTotal(rows, ids[k]) + amounts[k]
  {
    UnlistedTotal(rows, after, requestId, entryType, ids, amounts, k, ids[k]);
    assert PostedAt(after, |rows| + k, requestId, entryType, ids[k], amounts[k]);
  }

  // ---------------------------------------------------------------- all or nothing

  /** The budget alone would refuse the estimate on this ledger. */
  predicate Refuses(rows: seq<Row>, budget: Budget, cost: Money, enforce: bool) {
    var total := LatestTotal(rows, budget.id) + cost;
    !InI64(total) || (enforce && OverLimit(budget, total))
  }

  function FirstRefusal(rows: seq<Row>, budgets: seq<Budget>, cost: Money, enforce: bool): (k: nat)
    ensures k <= |budgets|
    ensures forall j :: 0 <= j < k ==> !Refuses(rows, budgets[j], cost, enforce)
    ensures k < |budgets| ==> Refuses(rows, budgets[k], cost, enforce)
  {
    if budgets == [] || Refuses(rows, budgets[0], cost, enforce) then 0
    else 1 + FirstRefusal(rows, budgets[1..], cost, enforce)
  }

  lemma DistinctTail(budgets: seq<Budget>)
    requires Distinct(BudgetIds(budgets)) && budgets != []
    ensures Distinct(BudgetIds(budgets[1..]))
    ensures forall k :: 0 < k < |budgets| ==> budgets[k].id != budgets[0].id
  {
    var ids := BudgetIds(budgets);
    forall k | 0 < k < |budgets|
      ensures budgets[k].id != budgets[0].id
    {
      assert ids[0] != ids[k];
    }
    forall i, j | 0 <= i < j < |budgets| - 1
      ensures BudgetIds(budgets[1..])[i] != BudgetIds(budgets[1..])[j]
    {
      assert ids[i + 1] != ids[j + 1];
    }
  }

  lemma InsertMovesOneTotal(rows: seq<Row>, requestId: string, entryType: EntryType, budgetId: int, amount: Money,
                            total: Money)
    ensures var after := Insert(rows, requestId, entryType, budgetId, amount, total);
            forall b :: LatestTotal(after, b) == if b == budgetId then total else LatestTotal(rows, b)
  {
    var after := Insert(rows, requestId, entryType, budgetId, amount, total);
    assert after[..|after| - 1] == rows;
  }

  /** How a posting ends at a budget that refuses the estimate. */
  function StopAt(rows: seq<Row>, budget: Budget, cost: Money, enforce: bool): Posting
    requires Refuses(rows, budget, cost, enforce)
  {
    var total := LatestTotal(rows, budget.id) + cost;
    if InI64(total) then PostOverLimit(budget, total, budget.hardLimit.value) else PostOverflow
  }

  lemma PostReserveStarts(rows: seq<Row>, requestId: string, budgets: seq<Budget>, cost: Money, enforce: bool)
    requires budgets != []
    ensures var p := PostReserve(rows, requestId, budgets, cost, enforce);
            if Refuses(rows, budgets[0], cost, enforce) then p == StopAt(rows, budgets[0], cost, enforce)
            else
              var total := LatestTotal(rows, budgets[0].id) + cost;
              p == PostReserve(Insert(rows, requestId, Reserve, budgets[0].id, cost, total), requestId, budgets[1..], cost,
                               enforce)
  {
  }

  ghost predicate NoneRefuses(rows: seq<Row>, budgets: seq<Budget>, cost: Money, enforce: bool, k: nat)
    requires k <= |budgets|
  {
    forall j :: 0 <= j < k ==> !Refuses(rows, budgets[j], cost, enforce)
  }

  lemma {:induction false} PostReserveStopsAt(rows: seq<Row>, requestId: string, budgets: seq<Budget>, cost: Money,
                                              enforce: bool, k: nat)
    requires Distinct(BudgetIds(budgets)) && k <= |budgets|
    requires NoneRefuses(rows, budgets, cost, enforce, k)
    requires k < |budgets| ==> Refuses(rows, budgets[k], cost, enforce)
    ensures var p := PostReserve(rows, requestId, budgets, cost, enforce);
            if k == |budgets| then p.Posted? else p == StopAt(rows, budgets[k], cost, enforce)
    decreases k
  {
    if k > 0 {
      DistinctTail(budgets);
      var mid := PostReserveGoesOn(rows, requestId, budgets, cost, enforce, k);
      PostReserveStopsAt(mid, requestId, budgets[1..], cost, enforce, k - 1);
    } else if budgets != [] {
      PostReserveStarts(rows, requestId, budgets, cost, enforce);
    }
  }

  lemma PostReserveGoesOn(rows: seq<Row>, requestId: string, budgets: seq<Budget>, cost: Money, enforce: bool, k: nat)
    returns (mid: seq<Row>)
    requires 0 < k <= |budgets| && forall j :: 0 < j < |budgets| ==> budgets[j].id != budgets[0].id
    requires NoneRefuses(rows, budgets, cost, enforce, k)
    requires k < |budgets| ==> Refuses(rows, budgets[k], cost, enforce)
    ensures PostReserve(rows, requestId, budgets, cost, enforce)
         == PostReserve(mid, requestId, budgets[1..], cost, enforce)
    ensures NoneRefuses(mid, budgets[1..], cost, enforce, k - 1)
    ensures k < |budgets| ==>
              && Refuses(mid, budgets[1..][k - 1], cost, enforce)
              && StopAt(mid, budgets[1..][k - 1], cost, enforce) == StopAt(rows, budgets[k], cost, enforce)
  {
    assert !Refuses(rows, budgets[0], cost, enforce);
    var total := LatestTotal(rows, budgets[0].id) + cost;
    PostReserveStarts(rows, requestId, budgets, cost, enforce);
    mid := Insert(rows, requestId, Reserve, budgets[0].id, cost, total);
    StillNoneRefuses(rows, requestId, budgets, cost, enforce, total, k);
    if k < |budgets| {
      StopsAlike(rows, requestId, budgets, cost, enforce, total, k);
    }
  }

  /** A row for the first budget moves the total of no other. */
  lemma UnmovedTotal(rows: seq<Row>, requestId: string, budgets: seq<Budget>, cost: Money, total: Money, k: nat)
    requires 0 < k < |budgets| && budgets[k].id != budgets[0].id
    ensures var mid := Insert(rows, requestId, Reserve, budgets[0].id, cost, total);
            budgets[1..][k - 1] == budgets[k] && LatestTotal(mid, budgets[k].id) == LatestTotal(rows, budgets[k].id)
  {
    InsertMovesOneTotal(rows, requestId, Reserve, budgets[0].id, cost, total);
  }

  lemma StopsAlike(rows: seq<Row>, requestId: string, budgets: seq<Budget>, cost: Money, enforce: bool,
                   total: Money, k: nat)
    requires 0 < k < |budgets| && budgets[k].id != budgets[0].id
    requires Refuses(rows, budgets[k], cost, enforce)
    ensures var mid := Insert(rows, requestId, Reserve, budgets[0].id, cost, total);
            && Refuses(mid, budgets[1..][k - 1], cost, enforce)
            && StopAt(mid, budgets[1..][k - 1], cost, enforce) == StopAt(rows, budgets[k], cost, enforce)
  {
    UnmovedTotal(rows, requestId, budgets, cost, total, k);
  }

  lemma StillNoneRefuses(rows: seq<Row>, requestId: string, budgets: seq<Budget>, cost: Money, enforce: bool,
                         total: Money, k: nat)
    requires 0 < k <= |budgets| && NoneRefuses(rows, budgets, cost, enforce, k)
    requires forall j :: 0 < j < |budgets| ==> budgets[j].id != budgets[0].id
    ensures var mid := Insert(rows, requestId, Reserve, budgets[0].id, cost, total);
            NoneRefuses(mid, budgets[1..], cost, enforce, k - 1)
  {
    var mid := Insert(rows, requestId, Reserve, budgets[0].id, cost, total);
    forall j | 0 <= j < k - 1
      ensures !Refuses(mid, budgets[1..][j], cost, enforce)
    {
      assert !Refuses(rows, budgets[j + 1], cost, enforce);
      UnmovedTotal(rows, requestId, budgets, cost, total, j + 1);
    }
  }

  lemma PostReserveStopsAtFirstRefusal(rows: seq<Row>, requestId: string, budgets: seq<Budget>, cost: Money,
                                       enforce: bool)
    requires Distinct(BudgetIds(budgets))
    ensures var k := FirstRefusal(rows, budgets, cost, enforce);
            var p := PostReserve(rows, requestId, budgets, cost, enforce);
            if k == |budgets| then p.Posted? else p == StopAt(rows, budgets[k], cost, enforce)
  {
    PostReserveStopsAt(rows, requestId, budgets, cost, enforce, FirstRefusal(rows, budgets, cost, enforce));
  }

  ghost predicate FreshReserve(rows: seq<Row>, requestId: string, budgets: seq<Budget>, cost: Money) {
    && !IsBlank(requestId)
    && cost >= 0
    && budgets != []
    && Distinct(BudgetIds(budgets))
    && EntriesOf(rows, requestId, Reserve) == []
  }

  /** What a grant means: one chained row per budget in order, the ids of those rows, what each hard
      limit leaves, and every listed total moved by the estimate and no other. */
  ghost predicate Grants(rows: seq<Row>, after: seq<Row>, requestId: string, budgets: seq<Budget>, cost: Money,
                         r: Result<Reservation, LedgerError>)
  {
    && r.Ok? && r.value.Granted? && |r.value.remaining| == |budgets|
    && Extends(rows, after, requestId, Reserve, BudgetIds(budgets), Copies(|budgets|, cost))
    && r.value.entries == Ids(EntriesOf(after, requestId, Reserve))
    && (forall i :: 0 <= i < |budgets| ==> LeavesRemaining(rows, budgets[i], cost, r.value.remaining[i]))
    && (forall b :: LatestTotal(after, b) == LatestTotal(rows, b) + if b in BudgetIds(budgets) then cost else 0)
  }

  ghost predicate LeavesRemaining(rows: seq<Row>, budget: Budget, cost: Money, left: BudgetRemaining) {
    var total := LatestTotal(rows, budget.id) + cost;
    InI64(total) && left == BudgetRemaining(budget.id, Minus(budget.hardLimit, total))
  }

  ghost function Refusal(rows: seq<Row>, budget: Budget, cost: Money): Result<Reservation, LedgerError>
    requires Refuses(rows, budget, cost, true)
  {
    var total := LatestTotal(rows, budget.id) + cost;
    if InI64(total) then Ok(Denied(budget, total, budget.hardLimit.value)) else Err(ReserveOverflow)
  }

  lemma GrantedRows(rows: seq<Row>, requestId: string, budgets: seq<Budget>, cost: Money, enforce: bool)
    requires FreshReserve(rows, requestId, budgets, cost)
    requires ReserveStep(rows, requestId, budgets, cost, enforce).1.Ok?
    requires ReserveStep(rows, requestId, budgets, cost, enforce).1.value.Granted?
    ensures var (after, r) := ReserveStep(rows, requestId, budgets, cost, enforce);
            var entries := EntriesOf(after, requestId, Reserve);
            && |entries| == |budgets| && DistinctBudgets(entries)
            && (forall i :: 0 <= i < |entries| ==> entries[i].budgetId == budgets[i].id && entries[i].amount == cost)
            && r.value == Granted(Ids(entries), RemainingAfter(budgets, entries))
  {
    var after := ReserveStep(rows, requestId, budgets, cost, enforce).0;
    var ids, amounts := BudgetIds(budgets), Copies(|budgets|, cost);
    ReservePosts(rows, requestId, budgets, cost, enforce);
    ExtendsEntries(rows, after, requestId, Reserve, ids, amounts, requestId, Reserve);
    var entries := EntriesOf(after, requestId, Reserve);
    assert entries == after[|rows|..];
    forall i | 0 <= i < |entries|
      ensures entries[i].budgetId == budgets[i].id && entries[i].amount == cost
    {
      assert PostedAt(after, |rows| + i, requestId, Reserve, ids[i], amounts[i]);
    }
    forall i, j | 0 <= i < j < |entries|
      ensures entries[i].budgetId != entries[j].budgetId
    {
      assert ids[i] != ids[j];
    }
  }

  lemma GrantMovesTotals(rows: seq<Row>, requestId: string, budgets: seq<Budget>, cost: Money, enforce: bool)
    requires FreshReserve(rows, requestId, budgets, cost)
    requires PostReserve(rows, requestId, budgets, cost, enforce).Posted?
    ensures var (after, r) := ReserveStep(rows, requestId, budgets, cost, enforce);
            Grants(rows, after, requestId, budgets, cost, r)
  {
    var after := PostReserve(rows, requestId, budgets, cost, enforce).rows;
    ReservePosts(rows, requestId, budgets, cost, enforce);
    GrantAnswers(rows, requestId, budgets, cost, enforce);
    var r := ReserveStep(rows, requestId, budgets, cost, enforce).1;
    GrantEntries(rows, after, requestId, budgets, cost);
    GrantRemaining(rows, after, requestId, budgets, cost);
    GrantTotals(rows, after, requestId, budgets, cost);
  }

  lemma GrantAnswers(rows: seq<Row>, requestId: string, budgets: seq<Budget>, cost: Money, enforce: bool)
    requires FreshReserve(rows, requestId, budgets, cost)
    requires PostReserve(rows, requestId, budgets, cost, enforce).Posted?
    ensures var after := PostReserve(rows, requestId, budgets, cost, enforce).rows;
            && |after| == |rows| + |budgets|
            && ReserveStep(rows, requestId, budgets, cost, enforce)
               == (after, Ok(Granted(Ids(after[|rows|..]), RemainingAfter(budgets, after[|rows|..]))))
  {
    PostReserveLength(rows, requestId, budgets, cost, enforce);
  }

  lemma GrantEntries(rows: seq<Row>, after: seq<Row>, requestId: string, budgets: seq<Budget>, cost: Money)
    requires EntriesOf(rows, requestId, Reserve) == []
    requires Extends(rows, after, requestId, Reserve, BudgetIds(budgets), Copies(|budgets|, cost))
    ensures EntriesOf(after, requestId, Reserve) == after[|rows|..]
  {
    ExtendsEntries(rows, after, requestId, Reserve, BudgetIds(budgets), Copies(|budgets|, cost), requestId, Reserve);
    assert [] + after[|rows|..] == after[|rows|..];
  }

  lemma GrantRemaining(rows: seq<Row>, after: seq<Row>, requestId: string, budgets: seq<Budget>, cost: Money)
    requires Distinct(BudgetIds(budgets))
    requires Extends(rows, after, requestId, Reserve, BudgetIds(budgets), Copies(|budgets|, cost))
    ensures var remaining := RemainingAfter(budgets, after[|rows|..]);
            forall i :: 0 <= i < |budgets| ==> LeavesRemaining(rows, budgets[i], cost, remaining[i])
  {
    var ids, amounts := BudgetIds(budgets), Copies(|budgets|, cost);
    forall i | 0 <= i < |budgets|
      ensures LeavesRemaining(rows, budgets[i], cost, RemainingAfter(budgets, after[|rows|..])[i])
    {
      ExtendsRowTotal(rows, after, requestId, Reserve, ids, amounts, i);
      assert InI64(after[|rows| + i].runningTotal);
    }
  }

  lemma GrantTotals(rows: seq<Row>, after: seq<Row>, requestId: string, budgets: seq<Budget>, cost: Money)
    requires Distinct(BudgetIds(budgets))
    requires Extends(rows, after, requestId, Reserve, BudgetIds(budgets), Copies(|budgets|, cost))
    ensures forall b :: LatestTotal(after, b) == LatestTotal(rows, b) + if b in BudgetIds(budgets) then cost else 0
  {
    var ids, amounts := BudgetIds(budgets), Copies(|budgets|, cost);
    forall b
      ensures LatestTotal(after, b) == LatestTotal(rows, b) + if b in ids then cost else 0
    {
      ExtendsTotal(rows, after, requestId, Reserve, ids, amounts, b);
    }
  }

  /** A fresh reservation is all or nothing. It is granted exactly when no budget refuses it;
      otherwise nothing is written and the first refusing budget decides the answer: `Denied` with
      its total and limit, or the overflow error. */
  lemma ReserveIsAllOrNothing(rows: seq<Row>, requestId: string, budgets: seq<Budget>, cost: Money, enforce: bool)
    requires FreshReserve(rows, requestId, budgets, cost)
    ensures var (after, r) := ReserveStep(rows, requestId, budgets, cost, enforce);
            var k := FirstRefusal(rows, budgets, cost, enforce);
            if k == |budgets| then Grants(rows, after, requestId, budgets, cost, r)
            else after == rows && r == Refusal(rows, budgets[k], cost)
  {
    var k := FirstRefusal(rows, budgets, cost, enforce);
    PostReserveStopsAtFirstRefusal(rows, requestId, budgets, cost, enforce);
    if k == |budgets| {
      GrantMovesTotals(rows, requestId, budgets, cost, enforce);
    } else {
      RefusalAnswers(rows, requestId, budgets, cost, enforce, budgets[k]);
    }
  }

  lemma RefusalAnswers(rows: seq<Row>, requestId: string, budgets: seq<Budget>, cost: Money, enforce: bool,
                       budget: Budget)
    requires FreshReserve(rows, requestId, budgets, cost) && Refuses(rows, budget, cost, enforce)
    requires PostReserve(rows, requestId, budgets, cost, enforce) == StopAt(rows, budget, cost, enforce)
    ensures ReserveStep(rows, requestId, budgets, cost, enforce) == (rows, Refusal(rows, budget, cost))
  {
  }

  // ---------------------------------------------------------------- replay

  ghost predicate HasBudget(rows: seq<Row>, budgetId: int) {
    exists i :: 0 <= i < |rows| && rows[i].budgetId == budgetId
  }

  lemma {:induction false} MatchExistingSucceeds(budgets: seq<Budget>, cost: Money, cost': Money, rows: seq<Row>)
    requires forall i :: 0 <= i < |rows| ==> rows[i].amount == cost
    ensures MatchExisting(budgets, cost', rows).Ok?
            <==> forall i :: 0 <= i < |budgets| ==> HasBudget(rows, budgets[i].id) && cost' == cost
  {
    if budgets != [] {
      var k := FindBudget(rows, budgets[0].id);
      if k < |rows| {
        assert HasBudget(rows, budgets[0].id);
      } else {
        assert !HasBudget(rows, budgets[0].id);
      }
      MatchExistingSucceeds(budgets[1..], cost, cost', rows);
      assert forall i :: 0 < i < |budgets| ==> budgets[i] == budgets[1..][i - 1];
    }
  }

  lemma FoundInPlace(rows: seq<Row>, k: nat)
    requires DistinctBudgets(rows) && k < |rows|
    ensures FindBudget(rows, rows[k].budgetId) == k
  {
  }

  lemma {:induction false} MatchExistingRemaining(budgets: seq<Budget>, cost: Money, rows: seq<Row>, from: nat)
    requires from <= |budgets| == |rows| && DistinctBudgets(rows)
    requires forall i :: 0 <= i < |rows| ==> rows[i].budgetId == budgets[i].id && rows[i].amount == cost
    ensures MatchExisting(budgets[from..], cost, rows) == Ok(RemainingAfter(budgets, rows)[from..])
    decreases |budgets| - from
  {
    if from < |budgets| {
      var tail := budgets[from..];
      assert tail[0] == budgets[from] && tail[1..] == budgets[from + 1..];
      FoundInPlace(rows, from);
      MatchExistingRemaining(budgets, cost, rows, from + 1);
      assert RemainingAfter(budgets, rows)[from..]
          == [RemainingAfter(budgets, rows)[from]] + RemainingAfter(budgets, rows)[from + 1..];
    }
  }

  /** A granted reservation replayed after any later calls, in either mode, answers exactly the
      original value, although totals have moved since, and writes nothing. */
  lemma ReplayReturnsTheOriginal(rows: seq<Row>, requestId: string, budgets: seq<Budget>, cost: Money, enforce: bool,
                                 later: seq<Op>, enforce': bool)
    requires FreshReserve(rows, requestId, budgets, cost)
    requires ReserveStep(rows, requestId, budgets, cost, enforce).1.Ok?
    requires ReserveStep(rows, requestId, budgets, cost, enforce).1.value.Granted?
    ensures var (after, r) := ReserveStep(rows, requestId, budgets, cost, enforce);
            var final := Run(after, later);
            ReserveStep(final, requestId, budgets, cost, enforce') == (final, r)
  {
    var after := ReserveStep(rows, requestId, budgets, cost, enforce).0;
    GrantedRows(rows, requestId, budgets, cost, enforce);
    var entries := EntriesOf(after, requestId, Reserve);
    EntriesAreFrozen(after, later, requestId, Reserve);
    MatchExistingRemaining(budgets, cost, entries, 0);
    assert budgets[0..] == budgets;
    assert RemainingAfter(budgets, entries)[0..] == RemainingAfter(budgets, entries);
  }

  /** A replay with other budgets or another cost writes nothing, and is accepted exactly when it
      names the original number of budgets, only original ones, and the original cost. */
  lemma ReplayAcceptsOnlyTheOriginal(rows: seq<Row>, requestId: string, budgets: seq<Budget>, cost: Money,
                                     enforce: bool, later: seq<Op>, budgets': seq<Budget>, cost': Money,
                                     enforce': bool)
    requires FreshReserve(rows, requestId, budgets, cost)
    requires ReserveStep(rows, requestId, budgets, cost, enforce).1.Ok?
    requires ReserveStep(rows, requestId, budgets, cost, enforce).1.value.Granted?
    requires budgets' != []
    ensures var final := Run(ReserveStep(rows, requestId, budgets, cost, enforce).0, later);
            var (final', r) := ReserveStep(final, requestId, budgets', cost', enforce');
            && final' == final
            && (r.Ok? <==> |budgets'| == |budgets|
                           && (forall b :: b in BudgetIds(budgets') ==> b in BudgetIds(budgets))
                           && cost' == cost)
  {
    var after := ReserveStep(rows, requestId, budgets, cost, enforce).0;
    GrantedRows(rows, requestId, budgets, cost, enforce);
    var entries := EntriesOf(after, requestId, Reserve);
    EntriesAreFrozen(after, later, requestId, Reserve);
    MatchExistingSucceeds(budgets', cost, cost', entries);
    var ids, ids' := BudgetIds(budgets), BudgetIds(budgets');
    forall b
      ensures HasBudget(entries, b) <==> b in ids
    {
      if b in ids {
        var i :| 0 <= i < |ids| && ids[i] == b;
        assert entries[i].budgetId == b;
      }
      if HasBudget(entries, b) {
        var i :| 0 <= i < |entries| && entries[i].budgetId == b;
        assert ids[i] == b;
      }
    }
    forall i | 0 <= i < |budgets'|
      ensures budgets'[i].id in ids'
    {
      assert ids'[i] == budgets'[i].id;
    }
    assert budgets'[0].id in ids';
  }

  // ---------------------------------------------------------------- how many reservations fit

  /** How many of a series of requests, each for the same estimate on one budget, are granted. */
  ghost function CountGranted(rows: seq<Row>, requests: seq<string>, budget: Budget, cost: Money): nat
    decreases |requests|
  {
    if requests == [] then 0
    else
      var (after, r) := ReserveStep(rows, requests[0], [budget], cost, true);
      (if r.Ok? && r.value.Granted? then 1 else 0) + CountGranted(after, requests[1..], budget, cost)
  }

  lemma TimesIsMonotone(a: int, b: int, c: nat)
    ensures a <= b ==> a * c <= b * c
  {
    assert b * c - a * c == (b - a) * c;
  }

  lemma QuotientIs(n: int, d: int, q: int)
    requires 0 < d && q * d <= n < q * d + d
    ensures n / d == q
  {
    var r := n / d;
    assert r * d <= n < r * d + d;
    TimesIsMonotone(r + 1, q, d);
    TimesIsMonotone(q + 1, r, d);
  }

  lemma CapacityStep(room: int, cost: int)
    requires 0 < cost <= room
    ensures room / cost == 1 + (room - cost) / cost
  {
    var q := (room - cost) / cost;
    assert q * cost <= room - cost < q * cost + cost;
    assert (q + 1) * cost == q * cost + cost;
    QuotientIs(room, cost, q + 1);
  }

  function Min(a: int, b: int): int {
    if a <= b then a else b
  }

  lemma OneMoreReservation(rows: seq<Row>, requestId: string, budget: Budget, cost: Money)
    requires budget.hardLimit.Some? && cost > 0
    requires 0 <= LatestTotal(rows, budget.id) <= budget.hardLimit.value
    requires FreshReserve(rows, requestId, [budget], cost)
    ensures var (after, r) := ReserveStep(rows, requestId, [budget], cost, true);
            var total := LatestTotal(rows, budget.id) + cost;
            if total <= budget.hardLimit.value then
              && r.Ok? && r.value.Granted? && LatestTotal(after, budget.id) == total
              && forall q :: q != requestId ==> EntriesOf(after, q, Reserve) == EntriesOf(rows, q, Reserve)
            else after == rows && !(r.Ok? && r.value.Granted?)
  {
    var (after, r) := ReserveStep(rows, requestId, [budget], cost, true);
    ReserveIsAllOrNothing(rows, requestId, [budget], cost, true);
    var ids := BudgetIds([budget]);
    assert ids == [budget.id];
    assert budget.id in ids;
    if FirstRefusal(rows, [budget], cost, true) == 1 {
      assert !Refuses(rows, [budget][0], cost, true);
      forall q | q != requestId
        ensures EntriesOf(after, q, Reserve) == EntriesOf(rows, q, Reserve)
      {
        ExtendsEntries(rows, after, requestId, Reserve, ids, Copies(1, cost), q, Reserve);
      }
    }
  }

  lemma StillFresh(rows: seq<Row>, after: seq<Row>, requests: seq<string>, budgets: seq<Budget>, cost: Money)
    requires requests != []
    requires forall i :: 0 <= i < |requests| ==> FreshReserve(rows, requests[i], budgets, cost)
    requires forall i, j :: 0 <= i < j < |requests| ==> requests[i] != requests[j]
    requires forall q :: q != requests[0] ==> EntriesOf(after, q, Reserve) == EntriesOf(rows, q, Reserve)
    ensures forall i :: 0 <= i < |requests[1..]| ==> FreshReserve(after, requests[1..][i], budgets, cost)
  {
    forall i | 0 <= i < |requests[1..]|
      ensures FreshReserve(after, requests[1..][i], budgets, cost)
    {
      assert requests[1..][i] == requests[i + 1] != requests[0];
      assert FreshReserve(rows, requests[i + 1], budgets, cost);
    }
  }

  lemma FirstOfMany(rows: seq<Row>, requests: seq<string>, budget: Budget, cost: Money)
    returns (after: seq<Row>, granted: bool)
    requires requests != [] && budget.hardLimit.Some? && cost > 0
    requires 0 <= LatestTotal(rows, budget.id) <= budget.hardLimit.value
    requires forall i :: 0 <= i < |requests| ==> FreshReserve(rows, requests[i], [budget], cost)
    requires forall i, j :: 0 <= i < j < |requests| ==> requests[i] != requests[j]
    ensures CountGranted(rows, requests, budget, cost)
         == (if granted then 1 else 0) + CountGranted(after, requests[1..], budget, cost)
    ensures granted <==> cost <= budget.hardLimit.value - LatestTotal(rows, budget.id)
    ensures LatestTotal(after, budget.id) == LatestTotal(rows, budget.id) + if granted then cost else 0
    ensures forall i :: 0 <= i < |requests[1..]| ==> FreshReserve(after, requests[1..][i], [budget], cost)
  {
    OneMoreReservation(rows, requests[0], budget, cost);
    var (next, r) := ReserveStep(rows, requests[0], [budget], cost, true);
    after, granted := next, r.Ok? && r.value.Granted?;
    StillFresh(rows, after, requests, [budget], cost);
  }

  /** How many of `n` costs fit, taken one after the other. */
  function Fitting(n: nat, room: int, cost: int): nat {
    if n == 0 then 0
    else if cost <= room then 1 + Fitting(n - 1, room - cost, cost)
    else Fitting(n - 1, room, cost)
  }

  lemma {:induction false} FittingIsTheQuotient(n: nat, room: int, cost: int)
    requires 0 <= room && 0 < cost
    ensures Fitting(n, room, cost) == Min(n, room / cost)
  {
    QuotientSign(room, cost);
    if n > 0 {
      if cost <= room {
        CapacityStep(room, cost);
        FittingIsTheQuotient(n - 1, room - cost, cost);
      } else {
        FittingIsTheQuotient(n - 1, room, cost);
      }
    }
  }

  lemma QuotientSign(room: int, cost: int)
    requires 0 <= room && 0 < cost
    ensures room / cost >= 0
    ensures room < cost ==> room / cost == 0
  {
  }

  lemma {:induction false} GrantsThoseThatFit(rows: seq<Row>, requests: seq<string>, budget: Budget, cost: Money)
    requires budget.hardLimit.Some? && cost > 0
    requires 0 <= LatestTotal(rows, budget.id) <= budget.hardLimit.value
    requires forall i :: 0 <= i < |requests| ==> FreshReserve(rows, requests[i], [budget], cost)
    requires forall i, j :: 0 <= i < j < |requests| ==> requests[i] != requests[j]
    ensures CountGranted(rows, requests, budget, cost)
         == Fitting(|requests|, budget.hardLimit.value - LatestTotal(rows, budget.id), cost)
    decreases |requests|
  {
    if requests != [] {
      var after, granted := FirstOfMany(rows, requests, budget, cost);
      GrantsThoseThatFit(after, requests[1..], budget, cost);
    }
  }

  /** However many fresh requests race for one budget, and in whatever order they are serialized,
      exactly as many are granted as fit between the current total and the hard limit. */
  lemma GrantsExactlyTheCapacity(rows: seq<Row>, requests: seq<string>, budget: Budget, cost: Money)
    requires budget.hardLimit.Some? && cost > 0
    requires 0 <= LatestTotal(rows, budget.id) <= budget.hardLimit.value
    requires forall i :: 0 <= i < |requests| ==> FreshReserve(rows, requests[i], [budget], cost)
    requires forall i, j :: 0 <= i < j < |requests| ==> requests[i] != requests[j]
    ensures CountGranted(rows, requests, budget, cost)
         == Min(|requests|, (budget.hardLimit.value - LatestTotal(rows, budget.id)) / cost)
  {
    GrantsThoseThatFit(rows, requests, budget, cost);
    FittingIsTheQuotient(|requests|, budget.hardLimit.value - LatestTotal(rows, budget.id), cost);
  }
}
