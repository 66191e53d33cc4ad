/** The budget evaluator (crates/penny-budget/src/lib.rs). */
module BudgetEvaluation {
  import opened Outcomes
  import opened Amounts
  import opened Text
  import opened LedgerModel
  import opened ReserveFacts
  import opened LedgerBook
  import opened CostLedgers

  datatype Mode = Guard | Observe

  datatype FailReason = LookupFailed | ReserveFailed(error: LedgerError) | SoftReadFailed

  datatype Warning =
    | HardLimitExceeded(budgetId: int, accumulated: Money, limit: Money)
    | SoftLimitReached(budgetId: int, accumulated: Money, limit: Money)
    | FailsafeAllowed(reason: FailReason)

  datatype RouteDecision =
    | Allow(warnings: seq<Warning>)
    | Block(budget: Budget, accumulated: Money, limit: Money)
    | Failsafe(mode: Mode, reason: FailReason)

  type RemainingMap = map<int, Option<Money>>

  function RemainingOf(remaining: RemainingMap, budgetId: int): Option<Money> {
    if budgetId in remaining then remaining[budgetId] else None
  }

  // ---------------------------------------------------------------- the decision as the code makes it

  function BuildRemainingMap(items: seq<BudgetRemaining>): RemainingMap {
    if items == [] then map[]
    else BuildRemainingMap(items[..|items| - 1])[items[|items| - 1].budgetId := items[|items| - 1].remaining]
  }

  function OverLimitWarnings(budgets: seq<Budget>, remaining: RemainingMap): seq<Warning> {
    if budgets == [] then []
    else
      var budget := budgets[|budgets| - 1];
      var earlier := OverLimitWarnings(budgets[..|budgets| - 1], remaining);
      var left := RemainingOf(remaining, budget.id);
      if budget.hardLimit.Some? && left.Some? && left.value < 0 then
        match CheckedSub(budget.hardLimit.value, left.value)
        case None => earlier
        case Some(accumulated) => earlier + [HardLimitExceeded(budget.id, accumulated, budget.hardLimit.value)]
      else earlier
  }

  /** The total a soft limit is compared with: rebuilt from the hard limit and what it leaves when
      both are known, and looked up in the ledger otherwise. */
  function Accumulated(budget: Budget, remaining: RemainingMap, rows: seq<Row>): Money {
    var left := RemainingOf(remaining, budget.id);
    if budget.hardLimit.Some? && left.Some? then
      match CheckedSub(budget.hardLimit.value, left.value)
      case Some(accumulated) => accumulated
      case None => I64_MAX
    else LatestTotal(rows, budget.id)
  }

  function SoftLimitWarnings(budgets: seq<Budget>, remaining: RemainingMap, rows: seq<Row>): seq<Warning> {
    if budgets == [] then []
    else
      var budget := budgets[|budgets| - 1];
      var earlier := SoftLimitWarnings(budgets[..|budgets| - 1], remaining, rows);
      if budget.softLimit.Some? && Accumulated(budget, remaining, rows) >= budget.softLimit.value
      then earlier + [SoftLimitReached(budget.id, Accumulated(budget, remaining, rows), budget.softLimit.value)]
      else earlier
  }

  function FailsafeDecision(mode: Mode, reason: FailReason): RouteDecision {
    match mode
    case Guard => Failsafe(Guard, reason)
    case Observe => Allow([FailsafeAllowed(reason)])
  }

  function DecisionOf(mode: Mode, budgets: seq<Budget>, after: seq<Row>, r: Result<Reservation, LedgerError>)
    : RouteDecision
  {
    match r
    case Err(e) => FailsafeDecision(mode, ReserveFailed(e))
    case Ok(Denied(budget, accumulated, limit)) => Block(budget, accumulated, limit)
    case Ok(Granted(_, items)) =>
      var remaining := BuildRemainingMap(items);
      Allow(OverLimitWarnings(budgets, remaining) + SoftLimitWarnings(budgets, remaining, after))
  }

  ghost function EvaluateStep(rows: seq<Row>, mode: Mode, requestId: string, lookup: Option<seq<Budget>>, cost: Money)
    : (seq<Row>, RouteDecision)
  {
    if lookup.None? then (rows, FailsafeDecision(mode, LookupFailed))
    else if lookup.value == [] then (rows, Allow([]))
    else
      var (after, r) := ReserveStep(rows, requestId, lookup.value, cost, mode.Guard?);
      (after, DecisionOf(mode, lookup.value, after, r))
  }

  /** Some budget's total is not to be had from its hard limit and what that leaves. */
  predicate NeedsRead(budgets: seq<Budget>, remaining: RemainingMap) {
    exists i :: 0 <= i < |budgets| && (budgets[i].hardLimit.None? || RemainingOf(remaining, budgets[i].id).None?)
  }

  predicate IsGrant(r: Result<Reservation, LedgerError>) {
    r.Ok? && r.value.Granted?
  }

  /** The same when reading the totals for the soft limits fails, if they are read at all. */
  ghost function EvaluateReading(rows: seq<Row>, mode: Mode, requestId: string, lookup: Option<seq<Budget>>,
                                 cost: Money, readFails: bool): (seq<Row>, RouteDecision)
  {
    var (after, d) := EvaluateStep(rows, mode, requestId, lookup, cost);
    if !readFails || lookup.None? || lookup.value == [] then (after, d)
    else
      var r := ReserveStep(rows, requestId, lookup.value, cost, mode.Guard?).1;
      if IsGrant(r) && NeedsRead(lookup.value, BuildRemainingMap(r.value.remaining))
      then (after, FailsafeDecision(mode, SoftReadFailed))
      else (after, d)
  }

  class BudgetEvaluator {
    const ledger: CostLedger
    const mode: Mode

    constructor (ledger: CostLedger, mode: Mode)
      ensures this.ledger == ledger && this.mode == mode
    {
      this.ledger := ledger;
      this.mode := mode;
    }

    /** `lookup` is the applicable budgets, or `None` when reading them failed; `readFails` when reading
        the totals for the soft limits would. */
    method Evaluate(requestId: string, lookup: Option<seq<Budget>>, estimatedCost: Money, readFails: bool)
      returns (decision: RouteDecision)
      modifies ledger
      ensures (ledger.rows, decision)
           == EvaluateReading(old(ledger.rows), mode, requestId, lookup, estimatedCost, readFails)
    {
      if lookup.None? {
        return FailsafeDecision(mode, LookupFailed);
      }
      var budgets := lookup.value;
      if budgets == [] {
        return Allow([]);
      }
      var r := ledger.ReserveInternal(requestId, budgets, estimatedCost, mode.Guard?);
      match r {
        case Err(e) =>
          decision := FailsafeDecision(mode, ReserveFailed(e));
        case Ok(Denied(budget, accumulated, limit)) =>
          decision := Block(budget, accumulated, limit);
        case Ok(Granted(_, items)) =>
          var remaining := BuildRemainingMap(items);
          var warnings, _ := ComputeOverLimitWarnings(budgets, remaining);
          var needsRead := NeedsToRead(budgets, remaining);
          if needsRead && readFails {
            return FailsafeDecision(mode, SoftReadFailed);
          }
          var softWarnings := ComputeSoftLimitWarnings(budgets, remaining);
          decision := Allow(warnings + softWarnings);
      }
    }

    method ComputeOverLimitWarnings(budgets: seq<Budget>, remaining: RemainingMap)
      returns (warnings: seq<Warning>, hasHardViolation: bool)
      ensures warnings == OverLimitWarnings(budgets, remaining)
      ensures hasHardViolation <==> warnings != []
    {
      warnings, hasHardViolation := [], false;
      for i := 0 to |budgets|
        invariant warnings == OverLimitWarnings(budgets[..i], remaining)
        invariant hasHardViolation <==> warnings != []
      {
        var budget := budgets[i];
        assert budgets[..i + 1][..i] == budgets[..i];
        if budget.hardLimit.Some? && budget.id in remaining && remaining[budget.id].Some? {
          var left := remaining[budget.id].value;
          if left < 0 {
            var accumulated := CheckedSub(budget.hardLimit.value, left);
            if accumulated.Some? {
              hasHardViolation := true;
              warnings := warnings + [HardLimitExceeded(budget.id, accumulated.value, budget.hardLimit.value)];
            }
          }
        }
      }
      assert budgets[..|budgets|] == budgets;
    }

    method NeedsToRead(budgets: seq<Budget>, remaining: RemainingMap) returns (needed: bool)
      ensures needed <==> NeedsRead(budgets, remaining)
    {
      for i := 0 to |budgets|
        invariant forall j :: 0 <= j < i ==> budgets[j].hardLimit.Some? && RemainingOf(remaining, budgets[j].id).Some?
      {
        if budgets[i].hardLimit.None? {
          return true;
        }
        if budgets[i].id !in remaining || remaining[budgets[i].id].None? {
          return true;
        }
      }
      needed := false;
    }

    method ComputeSoftLimitWarnings(budgets: seq<Budget>, remaining: RemainingMap) returns (warnings: seq<Warning>)
      ensures warnings == SoftLimitWarnings(budgets, remaining, ledger.rows)
    {
      warnings := [];
      for i := 0 to |budgets|
        invariant warnings == SoftLimitWarnings(budgets[..i], remaining, ledger.rows)
      {
        var budget := budgets[i];
        assert budgets[..i + 1][..i] == budgets[..i];
        if budget.softLimit.Some? {
          var accumulated: Money;
          if budget.hardLimit.Some? && budget.id in remaining && remaining[budget.id].Some? {
            var rebuilt := CheckedSub(budget.hardLimit.value, remaining[budget.id].value);
            accumulated := if rebuilt.Some? then rebuilt.value else I64_MAX;
          } else {
            accumulated := ledger.LatestRunningTotal(budget.id);
          }
          if accumulated >= budget.softLimit.value {
            warnings := warnings + [SoftLimitReached(budget.id, accumulated, budget.softLimit.value)];
          }
        }
      }
      assert budgets[..|budgets|] == budgets;
    }
  }

  // ---------------------------------------------------------------- what the warnings mean

  /** The warnings a reader of the final totals would ask for. A hard-limit overrun is visible only
      when `limit - total` is itself a 64-bit amount, which every non-negative limit guarantees. */
  predicate HardOverrun(budget: Budget, total: Money) {
    OverLimit(budget, total) && InI64(budget.hardLimit.value - total)
  }

  predicate SoftReached(budget: Budget, total: Money) {
    budget.softLimit.Some? && total >= budget.softLimit.value
  }

  function ExpectedHard(budgets: seq<Budget>, rows: seq<Row>): seq<Warning> {
    if budgets == [] then []
    else
      var budget := budgets[|budgets| - 1];
      var total := LatestTotal(rows, budget.id);
      ExpectedHard(budgets[..|budgets| - 1], rows)
      + if HardOverrun(budget, total) then [HardLimitExceeded(budget.id, total, budget.hardLimit.value)] else []
  }

  function ExpectedSoft(budgets: seq<Budget>, rows: seq<Row>): seq<Warning> {
    if budgets == [] then []
    else
      var budget := budgets[|budgets| - 1];
      var total := LatestTotal(rows, budget.id);
      ExpectedSoft(budgets[..|budgets| - 1], rows)
      + if SoftReached(budget, total) then [SoftLimitReached(budget.id, total, budget.softLimit.value)] else []
  }

  /** The overruns no warning is given for are those whose difference leaves 64 bits: the limit is then negative. */
  lemma HiddenOverruns(budget: Budget, total: Money)
    ensures OverLimit(budget, total) && !HardOverrun(budget, total) <==>
      budget.hardLimit.Some? && budget.hardLimit.value - total < I64_MIN
    ensures OverLimit(budget, total) && !HardOverrun(budget, total) ==> budget.hardLimit.value < 0
  {
    assert InI64(total);
  }

  /** What the remaining map says about each budget is its final total, unless the difference left
      the 64-bit range. */
  ghost predicate Reports(remaining: RemainingMap, budgets: seq<Budget>, rows: seq<Row>) {
    forall i :: 0 <= i < |budgets| ==>
      RemainingOf(remaining, budgets[i].id) == Minus(budgets[i].hardLimit, LatestTotal(rows, budgets[i].id))
  }

  lemma {:induction false} WarningsAreExpected(budgets: seq<Budget>, remaining: RemainingMap, rows: seq<Row>)
    requires Reports(remaining, budgets, rows)
    ensures OverLimitWarnings(budgets, remaining) == ExpectedHard(budgets, rows)
    ensures SoftLimitWarnings(budgets, remaining, rows) == ExpectedSoft(budgets, rows)
  {
    if budgets != [] {
      var front := budgets[..|budgets| - 1];
      forall i | 0 <= i < |front|
        ensures RemainingOf(remaining, front[i].id) == Minus(front[i].hardLimit, LatestTotal(rows, front[i].id))
      {
        assert front[i] == budgets[i];
      }
      WarningsAreExpected(front, remaining, rows);
      var budget := budgets[|budgets| - 1];
      assert RemainingOf(remaining, budget.id) == Minus(budget.hardLimit, LatestTotal(rows, budget.id));
    }
  }

  lemma {:induction false} MapKeepsDistinctItems(items: seq<BudgetRemaining>, i: nat)
    requires i < |items|
    requires forall j, k :: 0 <= j < k < |items| ==> items[j].budgetId != items[k].budgetId
    ensures RemainingOf(BuildRemainingMap(items), items[i].budgetId) == items[i].remaining
  {
    var n := |items| - 1;
    if i < n {
      MapKeepsDistinctItems(items[..n], i);
      assert items[i].budgetId != items[n].budgetId;
    }
  }

  lemma GrantReports(rows: seq<Row>, after: seq<Row>, requestId: string, budgets: seq<Budget>, cost: Money,
                     r: Result<Reservation, LedgerError>)
    requires Distinct(BudgetIds(budgets)) && Grants(rows, after, requestId, budgets, cost, r)
    ensures Reports(BuildRemainingMap(r.value.remaining), budgets, after)
  {
    var items := r.value.remaining;
    forall i | 0 <= i < |budgets|
      ensures items[i].budgetId == BudgetIds(budgets)[i]
      ensures items[i].remaining == Minus(budgets[i].hardLimit, LatestTotal(after, budgets[i].id))
    {
      assert LeavesRemaining(rows, budgets[i], cost, items[i]);
      assert BudgetIds(budgets)[i] in BudgetIds(budgets);
    }
    ItemsReport(items, budgets, after);
  }

  lemma ItemsReport(items: seq<BudgetRemaining>, budgets: seq<Budget>, rows: seq<Row>)
    requires |items| == |budgets| && Distinct(BudgetIds(budgets))
    requires forall i :: 0 <= i < |budgets| ==> items[i].budgetId == BudgetIds(budgets)[i]
    requires forall i :: 0 <= i < |budgets| ==>
               items[i].remaining == Minus(budgets[i].hardLimit, LatestTotal(rows, budgets[i].id))
    ensures Reports(BuildRemainingMap(items), budgets, rows)
  {
    forall i | 0 <= i < |budgets|
      ensures RemainingOf(BuildRemainingMap(items), budgets[i].id)
           == Minus(budgets[i].hardLimit, LatestTotal(rows, budgets[i].id))
    {
      MapKeepsDistinctItems(items, i);
    }
  }

  /** Guard mode on a fresh request decides exactly. If some budget refuses the estimate, nothing is
      written and the first such budget blocks it, or fails it closed on overflow. Otherwise it is
      allowed with no hard warning and one soft warning for each budget whose total after the
      reservation has reached its soft limit. */
  lemma GuardIsExact(rows: seq<Row>, requestId: string, budgets: seq<Budget>, cost: Money)
    requires FreshReserve(rows, requestId, budgets, cost)
    ensures var (after, d) := EvaluateStep(rows, Guard, requestId, Some(budgets), cost);
            var k := FirstRefusal(rows, budgets, cost, true);
            if k < |budgets| then
              var total := LatestTotal(rows, budgets[k].id) + cost;
              && after == rows
              && d == if InI64(total) then Block(budgets[k], total, budgets[k].hardLimit.value)
                      else Failsafe(Guard, ReserveFailed(ReserveOverflow))
            else
              && d == Allow(ExpectedSoft(budgets, after))
              && forall b :: LatestTotal(after, b) == LatestTotal(rows, b) + if b in BudgetIds(budgets) then cost else 0
  {
    ReserveIsAllOrNothing(rows, requestId, budgets, cost, true);
    var (after, r) := ReserveStep(rows, requestId, budgets, cost, true);
    assert EvaluateStep(rows, Guard, requestId, Some(budgets), cost) == (after, DecisionOf(Guard, budgets, after, r));
    if FirstRefusal(rows, budgets, cost, true) == |budgets| {
      GuardGrantDecision(rows, after, requestId, budgets, cost, r);
    }
  }

  lemma GuardGrantDecision(rows: seq<Row>, after: seq<Row>, requestId: string, budgets: seq<Budget>, cost: Money,
                           r: Result<Reservation, LedgerError>)
    requires Distinct(BudgetIds(budgets)) && Grants(rows, after, requestId, budgets, cost, r)
    requires FirstRefusal(rows, budgets, cost, true) == |budgets|
    ensures DecisionOf(Guard, budgets, after, r) == Allow(ExpectedSoft(budgets, after))
  {
    GrantWarnings(rows, after, requestId, budgets, cost, r);
    NoHardWarnings(rows, after, budgets, |budgets|, cost);
    assert budgets[..|budgets|] == budgets;
  }

  lemma GrantWarnings(rows: seq<Row>, after: seq<Row>, requestId: string, budgets: seq<Budget>, cost: Money,
                      r: Result<Reservation, LedgerError>)
    requires Distinct(BudgetIds(budgets)) && Grants(rows, after, requestId, budgets, cost, r)
    ensures var remaining := BuildRemainingMap(r.value.remaining);
            && OverLimitWarnings(budgets, remaining) == ExpectedHard(budgets, after)
            && SoftLimitWarnings(budgets, remaining, after) == ExpectedSoft(budgets, after)
  {
    GrantReports(rows, after, requestId, budgets, cost, r);
    WarningsAreExpected(budgets, BuildRemainingMap(r.value.remaining), after);
  }

  lemma {:induction false} NoHardWarnings(rows: seq<Row>, after: seq<Row>, budgets: seq<Budget>, n: nat, cost: Money)
    requires n <= |budgets|
    requires forall i :: 0 <= i < |budgets| ==> !Refuses(rows, budgets[i], cost, true)
    requires forall b :: LatestTotal(after, b) == LatestTotal(rows, b) + if b in BudgetIds(budgets) then cost else 0
    ensures ExpectedHard(budgets[..n], after) == []
  {
    if n > 0 {
      NoHardWarnings(rows, after, budgets, n - 1, cost);
      assert budgets[..n][..n - 1] == budgets[..n - 1];
      assert BudgetIds(budgets)[n - 1] == budgets[n - 1].id;
      assert !Refuses(rows, budgets[n - 1], cost, true);
    }
  }

  /** Observe mode never blocks any request; and a fresh request that the ledger can represent gets a
      hard warning for exactly the budgets whose total after the reservation is over the hard limit,
      by a difference that is a 64-bit amount, and a soft warning for exactly those that reached the
      soft limit. */
  lemma ObserveWarnsExactly(rows: seq<Row>, requestId: string, budgets: seq<Budget>, cost: Money)
    requires FreshReserve(rows, requestId, budgets, cost)
    ensures var (after, d) := EvaluateStep(rows, Observe, requestId, Some(budgets), cost);
            if FirstRefusal(rows, budgets, cost, false) == |budgets|
            then d == Allow(ExpectedHard(budgets, after) + ExpectedSoft(budgets, after))
            else after == rows && d == Allow([FailsafeAllowed(ReserveFailed(ReserveOverflow))])
  {
    ReserveIsAllOrNothing(rows, requestId, budgets, cost, false);
    if FirstRefusal(rows, budgets, cost, false) == |budgets| {
      var (after, r) := ReserveStep(rows, requestId, budgets, cost, false);
      GrantWarnings(rows, after, requestId, budgets, cost, r);
    }
  }

  /** A failed lookup writes nothing: guard mode fails closed, observe mode allows with a warning. */
  lemma AFailedLookupFailsClosed(rows: seq<Row>, requestId: string, cost: Money, readFails: bool)
    ensures EvaluateReading(rows, Guard, requestId, None, cost, readFails) == (rows, Failsafe(Guard, LookupFailed))
    ensures EvaluateReading(rows, Observe, requestId, None, cost, readFails)
         == (rows, Allow([FailsafeAllowed(LookupFailed)]))
  {
  }

  /** Observe mode allows every request, whether the lookup, the reservation or the soft-limit read fails. */
  lemma ObserveNeverBlocks(rows: seq<Row>, requestId: string, lookup: Option<seq<Budget>>, cost: Money, readFails: bool)
    ensures EvaluateReading(rows, Observe, requestId, lookup, cost, readFails).1.Allow?
  {
    if lookup.Some? {
      NeverDeniedUnenforced(rows, requestId, lookup.value, cost);
    }
  }

  lemma FailedReadKeepsWhatIsWritten(rows: seq<Row>, requestId: string, budgets: seq<Budget>, cost: Money)
    requires FreshReserve(rows, requestId, budgets, cost)
    ensures var (after, d) := EvaluateReading(rows, Guard, requestId, Some(budgets), cost, true);
            after != rows && !d.Allow?
            <==> FirstRefusal(rows, budgets, cost, true) == |budgets|
                 && exists b :: b in budgets && Minus(b.hardLimit, LatestTotal(after, b.id)).None?
    ensures var (after, d) := EvaluateReading(rows, Guard, requestId, Some(budgets), cost, true);
            after != rows && !d.Allow? ==> d == Failsafe(Guard, SoftReadFailed)
  {
    var (after, r) := ReserveStep(rows, requestId, budgets, cost, true);
    ReserveIsAllOrNothing(rows, requestId, budgets, cost, true);
    if FirstRefusal(rows, budgets, cost, true) == |budgets| {
      GuardGrantDecision(rows, after, requestId, budgets, cost, r);
      GrantReports(rows, after, requestId, budgets, cost, r);
      ReadsWhenUnknown(budgets, BuildRemainingMap(r.value.remaining), after);
    }
  }

  /** The reservation would leave the budget's total to be read: it has no hard limit, or one whose
      distance to the new total leaves 64 bits. */
  predicate LeavesUnknown(rows: seq<Row>, budget: Budget, cost: Money) {
    budget.hardLimit.None? || !InI64(budget.hardLimit.value - (LatestTotal(rows, budget.id) + cost))
  }

  /** When the read fails, guard mode refuses a request whose reservation it leaves standing, exactly
      when the reservation is granted and it leaves some budget's total to be read. */
  lemma AFailedReadKeepsTheReservation(rows: seq<Row>, requestId: string, budgets: seq<Budget>, cost: Money)
    requires FreshReserve(rows, requestId, budgets, cost)
    ensures var (after, d) := EvaluateReading(rows, Guard, requestId, Some(budgets), cost, true);
            after != rows && !d.Allow?
            <==> FirstRefusal(rows, budgets, cost, true) == |budgets|
                 && exists b :: b in budgets && LeavesUnknown(rows, b, cost)
    ensures var (after, d) := EvaluateReading(rows, Guard, requestId, Some(budgets), cost, true);
            after != rows && !d.Allow? ==> d == Failsafe(Guard, SoftReadFailed)
  {
    FailedReadKeepsWhatIsWritten(rows, requestId, budgets, cost);
    ReserveIsAllOrNothing(rows, requestId, budgets, cost, true);
    if FirstRefusal(rows, budgets, cost, true) == |budgets| {
      UnknownAfter(rows, ReserveStep(rows, requestId, budgets, cost, true).0, budgets, cost);
    }
  }

  lemma UnknownAfter(rows: seq<Row>, after: seq<Row>, budgets: seq<Budget>, cost: Money)
    requires forall id :: LatestTotal(after, id) == LatestTotal(rows, id) + if id in BudgetIds(budgets) then cost else 0
    ensures forall b :: b in budgets ==>
      (LeavesUnknown(rows, b, cost) <==> Minus(b.hardLimit, LatestTotal(after, b.id)).None?)
  {
    forall b | b in budgets
      ensures LeavesUnknown(rows, b, cost) <==> Minus(b.hardLimit, LatestTotal(after, b.id)).None?
    {
      MovedTotal(rows, after, budgets, cost, b);
    }
  }

  lemma MovedTotal(rows: seq<Row>, after: seq<Row>, budgets: seq<Budget>, cost: Money, b: Budget)
    requires forall id :: LatestTotal(after, id) == LatestTotal(rows, id) + if id in BudgetIds(budgets) then cost else 0
    requires b in budgets
    ensures LatestTotal(after, b.id) == LatestTotal(rows, b.id) + cost
  {
    var i :| 0 <= i < |budgets| && budgets[i] == b;
    assert BudgetIds(budgets)[i] == b.id;
  }

  /** In any run of calls, over budgets of non-negative limits, that is when it is granted and some budget
      has no hard limit. */
  lemma AFailedReadNeedsAnUnlimitedBudget(ops: seq<Op>, requestId: string, budgets: seq<Budget>, cost: Money)
    requires DistinctOps(ops) && FreshReserve(Run([], ops), requestId, budgets, cost)
    requires forall b :: b in budgets && b.hardLimit.Some? ==> b.hardLimit.value >= 0
    ensures var rows := Run([], ops);
            var (after, d) := EvaluateReading(rows, Guard, requestId, Some(budgets), cost, true);
            after != rows && !d.Allow?
            <==> FirstRefusal(rows, budgets, cost, true) == |budgets|
                 && exists b :: b in budgets && b.hardLimit.None?
  {
    var rows, book := Run([], ops), BookRun([], ops);
    AFailedReadKeepsTheReservation(rows, requestId, budgets, cost);
    EmptyLedgerRefines();
    RunRefines([], [], ops);
    if FirstRefusal(rows, budgets, cost, true) == |budgets| {
      forall b | b in budgets
        ensures LeavesUnknown(rows, b, cost) <==> b.hardLimit.None?
      {
        var i :| 0 <= i < |budgets| && budgets[i] == b;
        TotalIsNonNegative(book, b.id);
        assert LatestTotal(rows, b.id) == BookTotal(book, b.id);
        assert !Refuses(rows, budgets[i], cost, true);
        DistanceFits(b, LatestTotal(rows, b.id) + cost);
      }
    }
  }

  lemma DistanceFits(budget: Budget, total: int)
    requires 0 <= total && !OverLimit(budget, total)
    ensures budget.hardLimit.Some? ==> InI64(budget.hardLimit.value - total)
  {
  }

  /** Any first request over one budget without a hard limit will do. */
  lemma AReservationLeftStanding(requestId: string, budget: Budget, cost: Money)
    requires !IsBlank(requestId) && cost >= 0 && budget.hardLimit.None?
    ensures var (after, d) := EvaluateReading([], Guard, requestId, Some([budget]), cost, true);
            after != [] && !d.Allow?
  {
    var budgets := [budget];
    assert BudgetIds(budgets) == [budget.id];
    assert LatestTotal([], budget.id) == 0;
    assert !Refuses([], budget, cost, true);
    assert FirstRefusal([], budgets, cost, true) == 1;
    assert budgets[0] == budget && budget in budgets;
    AFailedReadKeepsTheReservation([], requestId, budgets, cost);
  }

  lemma ReadsWhenUnknown(budgets: seq<Budget>, remaining: RemainingMap, rows: seq<Row>)
    requires Reports(remaining, budgets, rows)
    ensures NeedsRead(budgets, remaining)
            <==> exists b :: b in budgets && Minus(b.hardLimit, LatestTotal(rows, b.id)).None?
  {
    forall i | 0 <= i < |budgets|
      ensures budgets[i] in budgets
      ensures (budgets[i].hardLimit.None? || RemainingOf(remaining, budgets[i].id).None?)
              <==> Minus(budgets[i].hardLimit, LatestTotal(rows, budgets[i].id)).None?
    {
      assert RemainingOf(remaining, budgets[i].id) == Minus(budgets[i].hardLimit, LatestTotal(rows, budgets[i].id));
    }
    if exists b :: b in budgets && Minus(b.hardLimit, LatestTotal(rows, b.id)).None? {
      var b :| b in budgets && Minus(b.hardLimit, LatestTotal(rows, b.id)).None?;
      var i :| 0 <= i < |budgets| && budgets[i] == b;
      assert budgets[i].hardLimit.None? || RemainingOf(remaining, budgets[i].id).None?;
    }
  }

  lemma {:induction false} NeverDeniedUnenforced(rows: seq<Row>, requestId: string, budgets: seq<Budget>, cost: Money)
    ensures !PostReserve(rows, requestId, budgets, cost, false).PostOverLimit?
    decreases |budgets|
  {
    if budgets != [] && CheckedAdd(LatestTotal(rows, budgets[0].id), cost).Some? {
      var total := LatestTotal(rows, budgets[0].id) + cost;
      NeverDeniedUnenforced(Insert(rows, requestId, Reserve, budgets[0].id, cost, total), requestId, budgets[1..], cost);
    }
  }

  /** A budget with limit -2 is overrun in silence by a total of the largest amount. */
  lemma ANegativeLimitHidesAnOverrun(requestId: string, scopeId: string)
    requires !IsBlank(requestId)
    ensures var budget := Budget(1, Global, scopeId, Day, Some(-2), None);
            var (after, d) := EvaluateStep([], Observe, requestId, Some([budget]), I64_MAX);
            OverLimit(budget, LatestTotal(after, 1)) && d == Allow([])
  {
    var budget := Budget(1, Global, scopeId, Day, Some(-2), None);
    var budgets := [budget];
    assert BudgetIds(budgets) == [1];
    assert LatestTotal([], 1) == 0;
    ReserveIsAllOrNothing([], requestId, budgets, I64_MAX, false);
    ObserveWarnsExactly([], requestId, budgets, I64_MAX);
    var after := EvaluateStep([], Observe, requestId, Some(budgets), I64_MAX).0;
    assert !Refuses([], budget, I64_MAX, false);
    assert FirstRefusal([], budgets, I64_MAX, false) == 1;
    assert 1 in BudgetIds(budgets);
    assert LatestTotal(after, 1) == I64_MAX;
    assert budgets[..0] == [];
    assert ExpectedHard(budgets, after) == ExpectedHard(budgets[..0], after) && ExpectedSoft(budgets, after) == [];
  }
}
