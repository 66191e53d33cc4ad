/** The cost ledger as an append-only sequence of rows. Each public call of the ledger is one
    write transaction, so its meaning is a function from the committed rows before it to the
    committed rows after it and the caller's answer (crates/penny-ledger/src/lib.rs). */
module LedgerModel {
  import opened Outcomes
  import opened Amounts
  import opened Text

  datatype ScopeType = Global | Project | Session

  datatype WindowType = Day | Week | Month | Total

  datatype Budget = Budget(
    id: int,
    scopeType: ScopeType,
    scopeId: string,
    windowType: WindowType,
    hardLimit: Option<Money>,
    softLimit: Option<Money>)

  datatype EntryType = Reserve | Reconcile | Release

  datatype Row = Row(
    id: int,
    requestId: string,
    entryType: EntryType,
    budgetId: int,
    amount: Money,
    runningTotal: Money)

  datatype BudgetRemaining = BudgetRemaining(budgetId: int, remaining: Option<Money>)

  datatype Reservation =
    | Granted(entries: seq<int>, remaining: seq<BudgetRemaining>)
    | Denied(budget: Budget, accumulated: Money, limit: Money)

  /** One constructor for each message of the source's `InvalidRequest`. */
  datatype LedgerError =
    | EmptyRequestId
    | NegativeEstimate
    | NegativeActual
    | BudgetSetMismatch
    | DuplicateReserve
    | EstimateMismatch
    | ReserveOverflow
    | NoReserve
    | ReconcileAfterRelease
    | ReleaseAfterReconcile
    | DiffOverflow
    | TotalOverflow

  // ---------------------------------------------------------------- queries

  /** Row ids are handed out in order, from one, and never reused. */
  function NextId(rows: seq<Row>): int {
    if rows == [] then 1 else rows[|rows| - 1].id + 1
  }

  ghost predicate IsNumbered(rows: seq<Row>) {
    forall i :: 0 <= i < |rows| ==> rows[i].id == i + 1
  }

  /** The running total on the newest row of a budget, zero when it has none. */
  function LatestTotal(rows: seq<Row>, budgetId: int): Money {
    if rows == [] then 0
    else if rows[|rows| - 1].budgetId == budgetId then rows[|rows| - 1].runningTotal
    else LatestTotal(rows[..|rows| - 1], budgetId)
  }

  /** The rows of one request and type, oldest first. */
  function EntriesOf(rows: seq<Row>, requestId: string, entryType: EntryType): seq<Row> {
    if rows == [] then []
    else
      var last := rows[|rows| - 1];
      var earlier := EntriesOf(rows[..|rows| - 1], requestId, entryType);
      if last.requestId == requestId && last.entryType == entryType then earlier + [last] else earlier
  }

  function Ids(rows: seq<Row>): (ids: seq<int>)
    ensures |ids| == |rows|
  {
    seq(|rows|, i requires 0 <= i < |rows| => rows[i].id)
  }

  function BudgetIds(budgets: seq<Budget>): (ids: seq<int>)
    ensures |ids| == |budgets|
  {
    seq(|budgets|, i requires 0 <= i < |budgets| => budgets[i].id)
  }

  predicate Distinct(ids: seq<int>) {
    forall i, j :: 0 <= i < j < |ids| ==> ids[i] != ids[j]
  }

  function Insert(rows: seq<Row>, requestId: string, entryType: EntryType, budgetId: int, amount: Money,
                  total: Money): seq<Row>
  {
    rows + [Row(NextId(rows), requestId, entryType, budgetId, amount, total)]
  }

  function Minus(limit: Option<Money>, total: Money): Option<Money> {
    match limit
    case None => None
    case Some(l) => CheckedSub(l, total)
  }

  // ---------------------------------------------------------------- reserve

  datatype Posting =
    | Posted(rows: seq<Row>)
    | PostOverflow
    | PostOverLimit(budget: Budget, accumulated: Money, limit: Money)

  predicate OverLimit(budget: Budget, total: int) {
    budget.hardLimit.Some? && total > budget.hardLimit.value
  }

  /** Post the estimate to every budget in turn, each seeing the rows already posted. */
  function PostReserve(rows: seq<Row>, requestId: string, budgets: seq<Budget>, cost: Money,
                       enforce: bool): Posting
    decreases |budgets|
  {
    if budgets == [] then Posted(rows)
    else
      var budget := budgets[0];
      match CheckedAdd(LatestTotal(rows, budget.id), cost)
      case None => PostOverflow
      case Some(total) =>
        if enforce && OverLimit(budget, total) then PostOverLimit(budget, total, budget.hardLimit.value)
        else PostReserve(Insert(rows, requestId, Reserve, budget.id, cost, total), requestId, budgets[1..], cost, enforce)
  }

  function RemainingAfter(budgets: seq<Budget>, posted: seq<Row>): (r: seq<BudgetRemaining>)
    requires |posted| >= |budgets|
    ensures |r| == |budgets|
  {
    seq(|budgets|, i requires 0 <= i < |budgets| =>
      BudgetRemaining(budgets[i].id, Minus(budgets[i].hardLimit, posted[i].runningTotal)))
  }

  /** The index of the first row on a budget, or the number of rows when there is none. */
  function FindBudget(rows: seq<Row>, budgetId: int): (k: nat)
    ensures k <= |rows|
    ensures k < |rows| ==> rows[k].budgetId == budgetId
    ensures forall i :: 0 <= i < k ==> rows[i].budgetId != budgetId
  {
    if rows == [] || rows[0].budgetId == budgetId then 0 else 1 + FindBudget(rows[1..], budgetId)
  }

  ghost predicate DistinctBudgets(rows: seq<Row>) {
    forall i, j :: 0 <= i < j < |rows| ==> rows[i].budgetId != rows[j].budgetId
  }

  /** The remaining amounts of a replay, or the first budget's complaint. */
  function MatchExisting(budgets: seq<Budget>, cost: Money, rows: seq<Row>)
    : (r: Result<seq<BudgetRemaining>, LedgerError>)
  {
    if budgets == [] then Ok([])
    else
      var k := FindBudget(rows, budgets[0].id);
      if k == |rows| then Err(BudgetSetMismatch)
      else if rows[k].amount != cost then Err(EstimateMismatch)
      else
        match MatchExisting(budgets[1..], cost, rows)
        case Err(e) => Err(e)
        case Ok(rest) =>
          Ok([BudgetRemaining(budgets[0].id, Minus(budgets[0].hardLimit, rows[k].runningTotal))] + rest)
  }

  ghost function ReservationFromExisting(budgets: seq<Budget>, cost: Money, rows: seq<Row>)
    : Result<Reservation, LedgerError>
  {
    if |rows| != |budgets| then Err(BudgetSetMismatch)
    else if !DistinctBudgets(rows) then Err(DuplicateReserve)
    else
      match MatchExisting(budgets, cost, rows)
      case Err(e) => Err(e)
      case Ok(remaining) => Ok(Granted(Ids(rows), remaining))
  }

  ghost function ReserveStep(rows: seq<Row>, requestId: string, budgets: seq<Budget>, cost: Money, enforce: bool)
    : (seq<Row>, Result<Reservation, LedgerError>)
  {
    if IsBlank(requestId) then (rows, Err(EmptyRequestId))
    else if cost < 0 then (rows, Err(NegativeEstimate))
    else if budgets == [] then (rows, Ok(Granted([], [])))
    else
      var existing := EntriesOf(rows, requestId, Reserve);
      if existing != [] then (rows, ReservationFromExisting(budgets, cost, existing))
      else
        match PostReserve(rows, requestId, budgets, cost, enforce)
        case PostOverflow => (rows, Err(ReserveOverflow))
        case PostOverLimit(budget, accumulated, limit) => (rows, Ok(Denied(budget, accumulated, limit)))
        case Posted(after) =>
          PostReserveLength(rows, requestId, budgets, cost, enforce);
          var posted := after[|rows|..];
          (after, Ok(Granted(Ids(posted), RemainingAfter(budgets, posted))))
  }

  lemma PostReserveLength(rows: seq<Row>, requestId: string, budgets: seq<Budget>, cost: Money, enforce: bool)
    ensures var p := PostReserve(rows, requestId, budgets, cost, enforce);
            p.Posted? ==> |p.rows| == |rows| + |budgets|
    decreases |budgets|
  {
    if budgets != [] && CheckedAdd(LatestTotal(rows, budgets[0].id), cost).Some? {
      var total := LatestTotal(rows, budgets[0].id) + cost;
      PostReserveLength(Insert(rows, requestId, Reserve, budgets[0].id, cost, total), requestId, budgets[1..], cost,
                        enforce);
    }
  }

  // ---------------------------------------------------------------- reconcile and release

  /** Settle each reserved row at `target`: the actual cost, or zero for a release. */
  function PostSettlement(rows: seq<Row>, requestId: string, entryType: EntryType, reserved: seq<Row>, target: Money)
    : Result<seq<Row>, LedgerError>
    decreases |reserved|
  {
    if reserved == [] then Ok(rows)
    else
      match CheckedSub(target, reserved[0].amount)
      case None => Err(DiffOverflow)
      case Some(diff) =>
        match CheckedAdd(LatestTotal(rows, reserved[0].budgetId), diff)
        case None => Err(TotalOverflow)
        case Some(total) =>
          PostSettlement(Insert(rows, requestId, entryType, reserved[0].budgetId, diff, total), requestId, entryType,
                         reserved[1..], target)
  }

  function OtherSettlement(entryType: EntryType): EntryType {
    if entryType == Reconcile then Release else Reconcile
  }

  ghost function SettleStep(rows: seq<Row>, requestId: string, entryType: EntryType, target: Money)
    : (seq<Row>, Result<seq<int>, LedgerError>)
  {
    if IsBlank(requestId) then (rows, Err(EmptyRequestId))
    else if target < 0 then (rows, Err(NegativeActual))
    else
      var existing := EntriesOf(rows, requestId, entryType);
      var reserved := EntriesOf(rows, requestId, Reserve);
      if existing != [] then (rows, Ok(Ids(existing)))
      else if EntriesOf(rows, requestId, OtherSettlement(entryType)) != [] then
        (rows, Err(if entryType == Reconcile then ReconcileAfterRelease else ReleaseAfterReconcile))
      else if reserved == [] then (rows, Err(NoReserve))
      else
        match PostSettlement(rows, requestId, entryType, reserved, target)
        case Err(e) => (rows, Err(e))
        case Ok(after) =>
          PostSettlementLength(rows, requestId, entryType, reserved, target);
          (after, Ok(Ids(after[|rows|..])))
  }

  lemma PostSettlementLength(rows: seq<Row>, requestId: string, entryType: EntryType, reserved: seq<Row>,
                             target: Money)
    ensures var p := PostSettlement(rows, requestId, entryType, reserved, target);
            p.Ok? ==> |p.value| == |rows| + |reserved|
    decreases |reserved|
  {
    if reserved != [] && CheckedSub(target, reserved[0].amount).Some? {
      var diff := target - reserved[0].amount;
      var sum := LatestTotal(rows, reserved[0].budgetId) + diff;
      if InI64(sum) {
        PostSettlementLength(Insert(rows, requestId, entryType, reserved[0].budgetId, diff, sum), requestId, entryType,
                             reserved[1..], target);
      }
    }
  }

  // ---------------------------------------------------------------- runs

  datatype Op =
    | ReserveOp(requestId: string, budgets: seq<Budget>, cost: Money, enforce: bool)
    | ReconcileOp(requestId: string, actual: Money)
    | ReleaseOp(requestId: string)

  datatype Reply =
    | Reserved(reservation: Result<Reservation, LedgerError>)
    | Settled(ids: Result<seq<int>, LedgerError>)

  ghost function Apply(rows: seq<Row>, op: Op): (seq<Row>, Reply) {
    match op
    case ReserveOp(requestId, budgets, cost, enforce) =>
      var (after, r) := ReserveStep(rows, requestId, budgets, cost, enforce);
      (after, Reserved(r))
    case ReconcileOp(requestId, actual) =>
      var (after, r) := SettleStep(rows, requestId, Reconcile, actual);
      (after, Settled(r))
    case ReleaseOp(requestId) =>
      var (after, r) := SettleStep(rows, requestId, Release, 0);
      (after, Settled(r))
  }

  /** The ledger after a serialized run of calls by any number of callers. */
  ghost function Run(rows: seq<Row>, ops: seq<Op>): seq<Row>
    decreases |ops|
  {
    if ops == [] then rows else Run(Apply(rows, ops[0]).0, ops[1..])
  }
}
