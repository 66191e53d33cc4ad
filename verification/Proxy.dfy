/** The request pipeline, interleaved (crates/penny-proxy/src/lib.rs). */
module Proxy {
  import opened Outcomes
  import opened Amounts
  import opened Text
  import opened LedgerModel
  import opened LedgerFacts
  import opened ReserveFacts
  import opened LedgerBook
  import opened CostLedgers
  import opened BudgetEvaluation

  /** How a dispatch ends. Every provider error, timeout, unsuccessful status and missing stream is
      an error; a completed body and a stream, complete or interrupted, carry a usage cost. */
  datatype Outcome = DispatchError | UsageCost(cost: Money)

  datatype Phase =
    | Admitted
    | Dispatching(persisted: bool)
    | Refused
    | Failed(persisted: bool)
    | Succeeded(cost: Money, persisted: bool)
    | Stranded(cost: Money)

  predicate Finished(phase: Phase) {
    !phase.Admitted? && !phase.Dispatching?
  }

  // ---------------------------------------------------------------- one request's ledger steps

  ghost function AdmitStep(rows: seq<Row>, mode: Mode, requestId: string, lookup: Option<seq<Budget>>, estimate: Money)
    : (seq<Row>, Phase)
  {
    var (after, decision) := EvaluateStep(rows, mode, requestId, lookup, estimate);
    (after, if decision.Allow? then Admitted else Refused)
  }

  /** What the proxy does before a dispatch. `anyBudget` and `estimate` are `None` when counting the
      budgets or pricing the request failed, which guard mode refuses and observe mode passes over. */
  ghost function EnforceStep(rows: seq<Row>, mode: Mode, requestId: string, anyBudget: Option<bool>,
                             lookup: Option<seq<Budget>>, estimate: Option<Money>): (seq<Row>, Phase)
  {
    if anyBudget.None? && mode.Guard? then (rows, Refused)
    else if anyBudget != Some(true) then (rows, Dispatching(false))
    else if estimate.None? && mode.Guard? then (rows, Refused)
    else AdmitStep(rows, mode, requestId, lookup, if estimate.Some? then estimate.value else 0)
  }

  /** Guard mode enforces every applicable budget. A fresh request that is counted, priced and looked up is
      refused, with nothing written, exactly when some budget alone would be over its hard limit or out of
      range; otherwise it is admitted, and every listed total has moved by the estimate and no other. */
  lemma GuardEnforcesTheBudgets(rows: seq<Row>, requestId: string, budgets: seq<Budget>, estimate: Money)
    requires FreshReserve(rows, requestId, budgets, estimate)
    ensures var (after, phase) := EnforceStep(rows, Guard, requestId, Some(true), Some(budgets), Some(estimate));
            var refused := exists i :: (
              && 0 <= i < |budgets|
              && (!InI64(LatestTotal(rows, budgets[i].id) + estimate)
                  || (budgets[i].hardLimit.Some?
                      && LatestTotal(rows, budgets[i].id) + estimate > budgets[i].hardLimit.value)));
            if refused then phase == Refused && after == rows
            else
              && phase == Admitted
              && forall b :: LatestTotal(after, b) == LatestTotal(rows, b) + if b in BudgetIds(budgets) then estimate else 0
  {
    GuardIsExact(rows, requestId, budgets, estimate);
    var k := FirstRefusal(rows, budgets, estimate, true);
    if k < |budgets| {
      assert Refuses(rows, budgets[k], estimate, true);
    }
  }

  /** Guard mode refuses, and writes nothing, when counting, pricing or the lookup failed. */
  lemma GuardRefusesWhenItCannotTell(rows: seq<Row>, requestId: string, anyBudget: Option<bool>,
                                     lookup: Option<seq<Budget>>, estimate: Option<Money>)
    requires anyBudget.None? || (anyBudget == Some(true) && (estimate.None? || lookup.None?))
    ensures EnforceStep(rows, Guard, requestId, anyBudget, lookup, estimate) == (rows, Refused)
  {
  }

  /** Observe mode refuses nothing. It enforces when there are budgets, and a fresh request then moves the
      listed totals by the estimate, or by zero when pricing failed, unless one leaves 64 bits. */
  lemma ObserveEnforcesWithoutRefusing(rows: seq<Row>, requestId: string, anyBudget: Option<bool>,
                                       lookup: Option<seq<Budget>>, estimate: Option<Money>)
    ensures var (after, phase) := EnforceStep(rows, Observe, requestId, anyBudget, lookup, estimate);
            var cost := if estimate.Some? then estimate.value else 0;
            && phase == (if anyBudget == Some(true) then Admitted else Dispatching(false))
            && (anyBudget != Some(true) || lookup.None? ==> after == rows)
            && (anyBudget == Some(true) && lookup.Some? && FreshReserve(rows, requestId, lookup.value, cost) ==>
                  if exists i :: 0 <= i < |lookup.value| && !InI64(LatestTotal(rows, lookup.value[i].id) + cost)
                  then after == rows
                  else forall b :: LatestTotal(after, b)
                                == LatestTotal(rows, b) + if b in BudgetIds(lookup.value) then cost else 0)
  {
    var cost := if estimate.Some? then estimate.value else 0;
    ObserveNeverBlocks(rows, requestId, lookup, cost, false);
    if lookup.Some? && FreshReserve(rows, requestId, lookup.value, cost) {
      ReserveIsAllOrNothing(rows, requestId, lookup.value, cost, false);
      var k := FirstRefusal(rows, lookup.value, cost, false);
      if k < |lookup.value| {
        assert Refuses(rows, lookup.value[k], cost, false);
      }
    }
  }

  /** Where there are no budgets nothing is enforced, in either mode. */
  lemma NothingToEnforce(rows: seq<Row>, mode: Mode, requestId: string, lookup: Option<seq<Budget>>,
                         estimate: Option<Money>)
    ensures EnforceStep(rows, mode, requestId, Some(false), lookup, estimate) == (rows, Dispatching(false))
    ensures estimate.Some? ==> EnforceStep(rows, mode, requestId, Some(true), Some([]), estimate) == (rows, Admitted)
  {
  }

  function CheckStep(rows: seq<Row>, requestId: string): Phase {
    Dispatching(EntriesOf(rows, requestId, Reserve) != [])
  }

  ghost function FinishStep(rows: seq<Row>, requestId: string, persisted: bool, outcome: Outcome): (seq<Row>, Phase) {
    match outcome
    case DispatchError =>
      if persisted then (SettleStep(rows, requestId, Release, 0).0, Failed(true)) else (rows, Failed(false))
    case UsageCost(cost) =>
      if !persisted then (rows, Succeeded(cost, false))
      else
        var (after, r) := SettleStep(rows, requestId, Reconcile, cost);
        (after, if r.Ok? then Succeeded(cost, true) else Stranded(cost))
  }

  class ProxyState {
    const ledger: CostLedger
    const evaluator: BudgetEvaluator

    constructor (ledger: CostLedger, mode: Mode)
      ensures this.ledger == ledger && this.evaluator.ledger == ledger && this.evaluator.mode == mode
    {
      this.ledger := ledger;
      this.evaluator := new BudgetEvaluator(ledger, mode);
    }

    ghost predicate Valid() {
      evaluator.ledger == ledger
    }

    /** `Admitted` or `Dispatching` with the enforcement context, or `Refused`. */
    method EvaluateBudget(requestId: string, anyBudget: Option<bool>, lookup: Option<seq<Budget>>,
                          estimate: Option<Money>) returns (phase: Phase)
      requires Valid()
      modifies ledger
      ensures (ledger.rows, phase)
           == EnforceStep(old(ledger.rows), evaluator.mode, requestId, anyBudget, lookup, estimate)
    {
      var guarded := evaluator.mode.Guard?;
      if anyBudget.None? && guarded {
        return Refused;
      }
      var hasBudgets := anyBudget == Some(true);
      if !hasBudgets {
        return Dispatching(false);
      }
      if estimate.None? && guarded {
        return Refused;
      }
      var estimatedCost := if estimate.Some? then estimate.value else 0;
      var decision := evaluator.Evaluate(requestId, lookup, estimatedCost, false);
      match decision {
        case Allow(_) => phase := Admitted;
        case Block(_, _, _) => phase := Refused;
        case Failsafe(mode, _) => phase := Refused;
      }
    }

    method HasReserveEntry(requestId: string) returns (phase: Phase)
      ensures phase == CheckStep(ledger.rows, requestId)
    {
      var entries := ledger.RequestEntriesByType(requestId, Reserve);
      phase := Dispatching(|entries| > 0);
    }

    method SettleAfterDispatch(requestId: string, persisted: bool, outcome: Outcome) returns (phase: Phase)
      modifies ledger
      ensures (ledger.rows, phase) == FinishStep(old(ledger.rows), requestId, persisted, outcome)
    {
      match outcome {
        case DispatchError =>
          MaybeReleaseOnDispatchFailure(requestId, persisted);
          phase := Failed(persisted);
        case UsageCost(cost) =>
          var ok := ReconcileAfterDispatch(requestId, cost, persisted);
          phase := if ok then Succeeded(cost, persisted) else Stranded(cost);
      }
    }

    method MaybeReleaseOnDispatchFailure(requestId: string, persisted: bool)
      modifies ledger
      ensures ledger.rows == if persisted then SettleStep(old(ledger.rows), requestId, Release, 0).0 else old(ledger.rows)
    {
      if !persisted {
        return;
      }
      var _ := ledger.ReleaseRequest(requestId);
    }

    method ReconcileAfterDispatch(requestId: string, cost: Money, persisted: bool) returns (ok: bool)
      modifies ledger
      ensures if persisted
              then ledger.rows == SettleStep(old(ledger.rows), requestId, Reconcile, cost).0
                   && ok == SettleStep(old(ledger.rows), requestId, Reconcile, cost).1.Ok?
              else ledger.rows == old(ledger.rows) && ok
    {
      if !persisted {
        return true;
      }
      var r := ledger.ReconcileRequest(requestId, cost);
      ok := r.Ok?;
    }

    /** The whole pipeline of one request, run without interruption: what its steps make of it when no
        other request's come between. */
    method ProcessRequest(requestId: string, paused: bool, anyBudget: Option<bool>, lookup: Option<seq<Budget>>,
                          estimate: Option<Money>, outcome: Outcome) returns (phase: Phase)
      requires Valid()
      modifies ledger
      ensures Finished(phase)
      ensures var first := if paused then Refuse(requestId)
                           else EnforceAction(evaluator.mode, requestId, anyBudget, lookup, estimate);
              var s := Steps(Sys(old(ledger.rows), [], map[], map[]), Pipeline(first, outcome));
              ledger.rows == s.rows && requestId in s.phases && s.phases[requestId] == phase
    {
      ghost var s := Sys(ledger.rows, [], map[], map[]);
      if paused {
        PipelineSteps(s, Refuse(requestId), outcome);
        return Refused;
      }
      ghost var first := EnforceAction(evaluator.mode, requestId, anyBudget, lookup, estimate);
      EnforcementIsOneAction(s, evaluator.mode, requestId, anyBudget, lookup, estimate);
      PipelineSteps(s, first, outcome);
      phase := EvaluateBudget(requestId, anyBudget, lookup, estimate);
      CheckIsOneAction(Step(s, first), requestId);
      FinishIsOneAction(Step(Step(s, first), CheckReserve(requestId)), requestId, outcome);
      if phase.Refused? {
        return;
      }
      if phase.Admitted? {
        phase := HasReserveEntry(requestId);
      }
      phase := SettleAfterDispatch(requestId, phase.persisted, outcome);
    }
  }

  // ---------------------------------------------------------------- interleaved requests

  /** What a request was evaluated for: the budgets that apply to it, and its estimate. */
  datatype Asked = Asked(budgets: seq<Budget>, estimate: Money)

  /** The shared ledger, the requests in order of arrival, how far each has come, and what each
      evaluated one asked for. */
  datatype Sys = Sys(rows: seq<Row>, arrivals: seq<string>, phases: map<string, Phase>, asked: map<string, Asked>)

  datatype Action =
    | Refuse(requestId: string)
    | NoBudgets(requestId: string)
    | Evaluate(requestId: string, mode: Mode, lookup: Option<seq<Budget>>, estimate: Money)
    | CheckReserve(requestId: string)
    | Finish(requestId: string, outcome: Outcome)

  ghost function Arrive(s: Sys, requestId: string, rows: seq<Row>, phase: Phase): Sys {
    s.(rows := rows, arrivals := s.arrivals + [requestId], phases := s.phases[requestId := phase])
  }

  ghost function Advance(s: Sys, requestId: string, rows: seq<Row>, phase: Phase): Sys {
    s.(rows := rows, phases := s.phases[requestId := phase])
  }

  function AskOf(lookup: Option<seq<Budget>>, estimate: Money): Asked {
    Asked(if lookup.Some? then lookup.value else [], estimate)
  }

  /** An action of a request that is not at the right phase for it does nothing. */
  ghost function Step(s: Sys, a: Action): Sys {
    var r := a.requestId;
    match a
    case Refuse(_) => if r in s.phases then s else Arrive(s, r, s.rows, Refused)
    case NoBudgets(_) => if r in s.phases then s else Arrive(s, r, s.rows, Dispatching(false))
    case Evaluate(_, mode, lookup, estimate) =>
      if r in s.phases then s
      else
        var (after, phase) := AdmitStep(s.rows, mode, r, lookup, estimate);
        Arrive(s, r, after, phase).(asked := s.asked[r := AskOf(lookup, estimate)])
    case CheckReserve(_) =>
      if r in s.phases && s.phases[r].Admitted? then Advance(s, r, s.rows, CheckStep(s.rows, r)) else s
    case Finish(_, outcome) =>
      if r in s.phases && s.phases[r].Dispatching? then
        var (after, phase) := FinishStep(s.rows, r, s.phases[r].persisted, outcome);
        Advance(s, r, after, phase)
      else s
  }

  ghost function Steps(s: Sys, actions: seq<Action>): Sys
    decreases |actions|
  {
    if actions == [] then s else Steps(Step(s, actions[0]), actions[1..])
  }

  const START: Sys := Sys([], [], map[], map[])

  function EnforceAction(mode: Mode, requestId: string, anyBudget: Option<bool>, lookup: Option<seq<Budget>>,
                         estimate: Option<Money>): Action
  {
    if anyBudget.None? && mode.Guard? then Refuse(requestId)
    else if anyBudget != Some(true) then NoBudgets(requestId)
    else if estimate.None? && mode.Guard? then Refuse(requestId)
    else Evaluate(requestId, mode, lookup, if estimate.Some? then estimate.value else 0)
  }

  /** Whatever the proxy finds, its enforcement is one action of the interleaving. */
  lemma EnforcementIsOneAction(s: Sys, mode: Mode, requestId: string, anyBudget: Option<bool>,
                               lookup: Option<seq<Budget>>, estimate: Option<Money>)
    requires requestId !in s.phases
    ensures var s' := Step(s, EnforceAction(mode, requestId, anyBudget, lookup, estimate));
            && requestId in s'.phases
            && EnforceStep(s.rows, mode, requestId, anyBudget, lookup, estimate) == (s'.rows, s'.phases[requestId])
  {
  }

  lemma CheckIsOneAction(s: Sys, requestId: string)
    requires requestId in s.phases
    ensures var s' := Step(s, CheckReserve(requestId));
            && requestId in s'.phases && s'.rows == s.rows
            && s'.phases[requestId]
               == if s.phases[requestId].Admitted? then CheckStep(s.rows, requestId) else s.phases[requestId]
  {
  }

  lemma FinishIsOneAction(s: Sys, requestId: string, outcome: Outcome)
    requires requestId in s.phases
    ensures var s' := Step(s, Finish(requestId, outcome));
            && requestId in s'.phases
            && (s'.rows, s'.phases[requestId])
               == if s.phases[requestId].Dispatching?
                  then FinishStep(s.rows, requestId, s.phases[requestId].persisted, outcome)
                  else (s.rows, s.phases[requestId])
  {
  }

  function Pipeline(first: Action, outcome: Outcome): seq<Action> {
    [first, CheckReserve(first.requestId), Finish(first.requestId, outcome)]
  }

  lemma PipelineSteps(s: Sys, first: Action, outcome: Outcome)
    ensures var r := first.requestId;
            Steps(s, Pipeline(first, outcome)) == Step(Step(Step(s, first), CheckReserve(r)), Finish(r, outcome))
  {
    ThreeSteps(s, first, CheckReserve(first.requestId), Finish(first.requestId, outcome));
  }

  ghost predicate DistinctAction(a: Action) {
    a.Evaluate? && a.lookup.Some? ==> Distinct(BudgetIds(a.lookup.value))
  }

  ghost predicate DistinctActions(actions: seq<Action>) {
    forall i :: 0 <= i < |actions| ==> DistinctAction(actions[i])
  }

  // ---------------------------------------------------------------- the accounts behind the phases

  /** The ledger call an action makes, if any. */
  function CallOf(s: Sys, a: Action): Option<Op> {
    var r := a.requestId;
    match a
    case Refuse(_) => None
    case NoBudgets(_) => None
    case Evaluate(_, mode, lookup, estimate) =>
      if r in s.phases || lookup.None? || lookup.value == [] then None
      else Some(ReserveOp(r, lookup.value, estimate, mode.Guard?))
    case CheckReserve(_) => None
    case Finish(_, outcome) =>
      if r in s.phases && s.phases[r] == Dispatching(true) then
        Some(if outcome.DispatchError? then ReleaseOp(r) else ReconcileOp(r, outcome.cost))
      else None
  }

  ghost function BookStep(s: Sys, book: Book, a: Action): Book {
    match CallOf(s, a)
    case None => book
    case Some(op) => BookApply(book, op)
  }

  ghost function BookSteps(s: Sys, book: Book, actions: seq<Action>): Book
    decreases |actions|
  {
    if actions == [] then book else BookSteps(Step(s, actions[0]), BookStep(s, book, actions[0]), actions[1..])
  }

  function StatusOf(book: Book, requestId: string): Option<Status> {
    var i := Find(book, requestId);
    if i < |book| then Some(book[i].status) else None
  }

  /** What a request's phase says about its account. */
  predicate Matches(status: Option<Status>, phase: Phase) {
    match phase
    case Admitted => status.None? || status == Some(Open)
    case Dispatching(persisted) => status == if persisted then Some(Open) else None
    case Refused => status.None?
    case Failed(persisted) => status == if persisted then Some(Returned) else None
    case Succeeded(cost, persisted) => status == if persisted then Some(Charged(cost)) else None
    case Stranded(_) => status == Some(Open)
  }

  ghost predicate Inv(s: Sys, book: Book) {
    && Refines(s.rows, book)
    && (forall r :: r in s.phases ==> Matches(StatusOf(book, r), s.phases[r]))
    && (forall r :: r !in s.phases ==> StatusOf(book, r).None?)
  }

  /** An account is for exactly the budgets and the estimate its request was evaluated for. */
  ghost predicate AskedFor(s: Sys, a: Account) {
    && a.requestId in s.asked
    && a.budgetIds == BudgetIds(s.asked[a.requestId].budgets) && a.estimate == s.asked[a.requestId].estimate
  }

  ghost predicate AsksMatch(s: Sys, book: Book) {
    && (forall r :: r in s.asked ==> r in s.phases)
    && forall i :: 0 <= i < |book| ==> AskedFor(s, book[i])
  }

  lemma StepRefines(s: Sys, book: Book, a: Action)
    requires Refines(s.rows, book) && DistinctAction(a)
    ensures Refines(Step(s, a).rows, BookStep(s, book, a))
  {
    match CallOf(s, a)
    case None =>
    case Some(op) => ApplyRefines(s.rows, book, op);
  }

  lemma StatusOfOthers(book: Book, op: Op, r: string)
    requires r != op.requestId
    ensures StatusOf(BookApply(book, op), r) == StatusOf(book, r)
  {
    var book' := BookApply(book, op);
    if book' != book {
      if op.ReserveOp? {
        FindAfterAppend(book, book'[|book|], r);
      } else {
        var i := Find(book, op.requestId);
        FindAfterUpdate(book, i, book'[i], r);
      }
    }
  }

  lemma FindAfterAppend(book: Book, a: Account, r: string)
    ensures var book' := book + [a];
            Find(book', r) == if Find(book, r) < |book| then Find(book, r)
                              else if a.requestId == r then |book| else |book'|
  {
    var book' := book + [a];
    assert forall j :: 0 <= j < |book| ==> book'[j] == book[j];
    assert book'[|book|] == a;
    var k := Find(book', r);
    assert k < |book| ==> book[k].requestId == r;
  }

  lemma OwnStatus(s: Sys, book: Book, a: Action)
    requires Inv(s, book) && DistinctAction(a)
    ensures var s' := Step(s, a);
            var status := StatusOf(BookStep(s, book, a), a.requestId);
            if a.requestId in s'.phases then Matches(status, s'.phases[a.requestId]) else status.None?
  {
    var r := a.requestId;
    if a.Evaluate? {
      EvaluateStatus(s, book, a);
    } else if a.CheckReserve? && r in s.phases {
    } else if a.Finish? && r in s.phases {
      FinishStatus(s, book, a);
    }
  }

  lemma EvaluateStatus(s: Sys, book: Book, a: Action)
    requires Inv(s, book) && DistinctAction(a) && a.Evaluate?
    ensures Matches(StatusOf(BookStep(s, book, a), a.requestId), Step(s, a).phases[a.requestId])
  {
    var r := a.requestId;
    if CallOf(s, a).Some? {
      assert StatusOf(book, r).None?;
      ReserveRefines(s.rows, book, CallOf(s, a).value);
      ReservedStatus(book, CallOf(s, a).value);
    }
  }

  lemma ReservedStatus(book: Book, op: Op)
    requires op.ReserveOp? && Find(book, op.requestId) == |book|
    ensures StatusOf(BookApply(book, op), op.requestId)
         == if CanReserve(book, op.requestId, op.budgets, op.cost, op.enforce) then Some(Open) else None
  {
    if CanReserve(book, op.requestId, op.budgets, op.cost, op.enforce) {
      FindAfterAppend(book, Account(op.requestId, BudgetIds(op.budgets), op.cost, Open), op.requestId);
    }
  }

  lemma FinishStatus(s: Sys, book: Book, a: Action)
    requires Inv(s, book) && a.Finish? && a.requestId in s.phases
    ensures Matches(StatusOf(BookStep(s, book, a), a.requestId), Step(s, a).phases[a.requestId])
  {
    var r := a.requestId;
    assert Matches(StatusOf(book, r), s.phases[r]);
    if s.phases[r] == Dispatching(true) {
      if a.outcome.DispatchError? {
        ReleasedStatus(s.rows, book, r);
      } else {
        ReconciledStatus(s.rows, book, r, a.outcome.cost);
      }
    }
  }

  lemma ReleasedStatus(rows: seq<Row>, book: Book, r: string)
    requires Refines(rows, book) && StatusOf(book, r) == Some(Open)
    ensures StatusOf(BookApply(book, ReleaseOp(r)), r) == Some(Returned)
  {
    OpenCanRelease(rows, book, r);
    SettledStatusOf(book, ReleaseOp(r));
  }

  lemma ReconciledStatus(rows: seq<Row>, book: Book, r: string, cost: Money)
    requires Refines(rows, book) && StatusOf(book, r) == Some(Open)
    ensures StatusOf(BookApply(book, ReconcileOp(r, cost)), r)
         == Some(if SettleStep(rows, r, Reconcile, cost).1.Ok? then Charged(cost) else Open)
  {
    if cost >= 0 {
      OpenSettleRefines(rows, book, ReconcileOp(r, cost));
      SettledStatusOf(book, ReconcileOp(r, cost));
    }
  }

  lemma SettledStatusOf(book: Book, op: Op)
    requires !op.ReserveOp? && SettleTarget(op) >= 0 && StatusOf(book, op.requestId) == Some(Open)
    ensures StatusOf(BookApply(book, op), op.requestId)
         == Some(if CanSettle(book, op.requestId, SettleTarget(op)) then SettledStatus(OpType(op), SettleTarget(op)) else Open)
  {
    var i := Find(book, op.requestId);
    if CanSettle(book, op.requestId, SettleTarget(op)) {
      FindAfterUpdate(book, i, BookApply(book, op)[i], op.requestId);
    }
  }

  lemma OthersKeepTheirPhase(s: Sys, a: Action, r: string)
    requires r != a.requestId
    ensures var s' := Step(s, a);
            (r in s'.phases <==> r in s.phases) && (r in s.phases ==> s'.phases[r] == s.phases[r])
  {
  }

  lemma OthersKeepTheirStatus(s: Sys, book: Book, a: Action, r: string)
    requires r != a.requestId
    ensures StatusOf(BookStep(s, book, a), r) == StatusOf(book, r)
  {
    if CallOf(s, a).Some? {
      StatusOfOthers(book, CallOf(s, a).value, r);
    }
  }

  lemma StepKeepsAsks(s: Sys, book: Book, a: Action)
    requires AsksMatch(s, book)
    ensures AsksMatch(Step(s, a), BookStep(s, book, a))
  {
    forall i | 0 <= i < |BookStep(s, book, a)|
      ensures AskedFor(Step(s, a), BookStep(s, book, a)[i])
    {
      StepKeepsAsk(s, book, a, i);
    }
  }

  lemma StepKeepsAsk(s: Sys, book: Book, a: Action, i: nat)
    requires AsksMatch(s, book) && i < |BookStep(s, book, a)|
    ensures AskedFor(Step(s, a), BookStep(s, book, a)[i])
  {
    if i < |book| {
      SameAccount(book, CallOf(s, a), i);
    }
  }

  lemma SameAccount(book: Book, call: Option<Op>, i: nat)
    requires i < |book|
    ensures var book' := match call case None => book case Some(op) => BookApply(book, op);
            i < |book'| && book'[i] == book[i].(status := book'[i].status)
  {
  }

  lemma StepKeepsInv(s: Sys, book: Book, a: Action)
    requires Inv(s, book) && DistinctAction(a)
    ensures Inv(Step(s, a), BookStep(s, book, a))
  {
    var s', book' := Step(s, a), BookStep(s, book, a);
    StepRefines(s, book, a);
    OwnStatus(s, book, a);
    forall r
      ensures if r in s'.phases then Matches(StatusOf(book', r), s'.phases[r]) else StatusOf(book', r).None?
    {
      if r != a.requestId {
        OthersKeepTheirPhase(s, a, r);
        OthersKeepTheirStatus(s, book, a, r);
      }
    }
  }

  // ---------------------------------------------------------------- what each request costs

  /** What a request that reserved holds on a budget: the estimate it was evaluated for, on each of the
      budgets that apply to it. */
  function HeldOn(s: Sys, requestId: string, budgetId: int): Option<Money> {
    if EntriesOf(s.rows, requestId, Reserve) != [] && requestId in s.asked
       && budgetId in BudgetIds(s.asked[requestId].budgets)
    then Some(s.asked[requestId].estimate)
    else None
  }

  /** What a request at a phase should weigh on a budget it reserved on: the estimate until it
      settles, the usage cost once it succeeded, nothing once it failed. */
  function Weight(phase: Phase, held: Option<Money>): int {
    if held.None? then 0
    else
      match phase
      case Succeeded(cost, _) => cost
      case Failed(_) => 0
      case Refused => 0
      case _ => held.value
  }

  function Weights(s: Sys, requests: seq<string>, budgetId: int): int
    requires forall r :: r in requests ==> r in s.phases
  {
    if requests == [] then 0
    else
      var r := requests[|requests| - 1];
      Weights(s, requests[..|requests| - 1], budgetId) + Weight(s.phases[r], HeldOn(s, r, budgetId))
  }

  function ShareOf(book: Book, requestId: string, budgetId: int): int {
    var i := Find(book, requestId);
    if i < |book| then Share(book[i], budgetId) else 0
  }

  function Shares(book: Book, requests: seq<string>, budgetId: int): int {
    if requests == [] then 0
    else Shares(book, requests[..|requests| - 1], budgetId) + ShareOf(book, requests[|requests| - 1], budgetId)
  }

  lemma ShareIsWeight(s: Sys, book: Book, r: string, budgetId: int)
    requires Inv(s, book) && AsksMatch(s, book) && r in s.phases
    ensures ShareOf(book, r, budgetId) == Weight(s.phases[r], HeldOn(s, r, budgetId))
  {
    assert Matches(StatusOf(book, r), s.phases[r]);
    var i := Find(book, r);
    if i < |book| {
      assert Recorded(s.rows, book[i]) && Sound(book[i]) && AskedFor(s, book[i]);
      ReservedRows(s.rows, book[i]);
    } else {
      assert Unrecorded(s.rows, r);
    }
  }

  lemma {:induction false} SharesAreWeights(s: Sys, book: Book, requests: seq<string>, budgetId: int)
    requires Inv(s, book) && AsksMatch(s, book) && forall r :: r in requests ==> r in s.phases
    ensures Shares(book, requests, budgetId) == Weights(s, requests, budgetId)
  {
    if requests != [] {
      var r := requests[|requests| - 1];
      assert r in requests;
      SharesAreWeights(s, book, requests[..|requests| - 1], budgetId);
      ShareIsWeight(s, book, r, budgetId);
    }
  }

  /** Every request that arrived has a phase, and is listed once. */
  ghost predicate ArrivalsMatch(s: Sys) {
    && (forall r :: r in s.arrivals <==> r in s.phases)
    && (forall i, j :: 0 <= i < j < |s.arrivals| ==> s.arrivals[i] != s.arrivals[j])
  }

  lemma StepKeepsArrivals(s: Sys, a: Action)
    requires ArrivalsMatch(s)
    ensures ArrivalsMatch(Step(s, a))
    ensures Step(s, a).arrivals == if a.requestId in Step(s, a).phases && a.requestId !in s.phases
                                   then s.arrivals + [a.requestId] else s.arrivals
  {
    var s' := Step(s, a);
    if s'.arrivals != s.arrivals {
      forall r
        ensures r in s'.arrivals <==> r in s'.phases
      {
      }
    }
  }

  lemma {:induction false} SharesMoveWithOne(book: Book, book': Book, requests: seq<string>, r: string, budgetId: int)
    requires forall q :: q != r ==> ShareOf(book', q, budgetId) == ShareOf(book, q, budgetId)
    requires forall i, j :: 0 <= i < j < |requests| ==> requests[i] != requests[j]
    ensures Shares(book', requests, budgetId)
         == Shares(book, requests, budgetId)
            + if r in requests then ShareOf(book', r, budgetId) - ShareOf(book, r, budgetId) else 0
  {
    if requests != [] {
      var n := |requests| - 1;
      SharesMoveWithOne(book, book', requests[..n], r, budgetId);
      assert requests == requests[..n] + [requests[n]];
      if requests[n] == r {
        assert r !in requests[..n];
      }
    }
  }

  lemma ShareOfOthers(book: Book, op: Op, r: string, budgetId: int)
    requires r != op.requestId
    ensures ShareOf(BookApply(book, op), r, budgetId) == ShareOf(book, r, budgetId)
  {
    var book' := BookApply(book, op);
    if book' != book {
      if op.ReserveOp? {
        FindAfterAppend(book, book'[|book|], r);
      } else {
        var i := Find(book, op.requestId);
        FindAfterUpdate(book, i, book'[i], r);
      }
    }
  }

  lemma TotalMovesWithShare(book: Book, op: Op, budgetId: int)
    requires op.ReserveOp? ==> Find(book, op.requestId) == |book|
    ensures BookTotal(BookApply(book, op), budgetId) - BookTotal(book, budgetId)
         == ShareOf(BookApply(book, op), op.requestId, budgetId) - ShareOf(book, op.requestId, budgetId)
  {
    var book' := BookApply(book, op);
    if book' != book {
      if op.ReserveOp? {
        FindAfterAppend(book, book'[|book|], op.requestId);
        assert book'[..|book|] == book;
      } else {
        var i := Find(book, op.requestId);
        FindAfterUpdate(book, i, book'[i], op.requestId);
        TotalUpdate(book, i, book'[i], budgetId);
      }
    }
  }

  lemma SharesFollowTotal(book: Book, book': Book, arrivals: seq<string>, arrivals': seq<string>, r: string,
                          budgetId: int)
    requires BookTotal(book, budgetId) == Shares(book, arrivals, budgetId)
    requires BookTotal(book', budgetId) - BookTotal(book, budgetId)
          == ShareOf(book', r, budgetId) - ShareOf(book, r, budgetId)
    requires forall q :: q != r ==> ShareOf(book', q, budgetId) == ShareOf(book, q, budgetId)
    requires forall i, j :: 0 <= i < j < |arrivals| ==> arrivals[i] != arrivals[j]
    requires r in arrivals || ShareOf(book, r, budgetId) == 0
    requires arrivals' == if r in arrivals then arrivals
                          else if ShareOf(book', r, budgetId) == 0 && arrivals' == arrivals then arrivals
                          else arrivals + [r]
    ensures BookTotal(book', budgetId) == Shares(book', arrivals', budgetId)
  {
    SharesMoveWithOne(book, book', arrivals, r, budgetId);
    if arrivals' == arrivals + [r] {
      assert arrivals'[..|arrivals|] == arrivals;
    }
  }

  lemma CallMovesOneShare(s: Sys, book: Book, a: Action, budgetId: int)
    requires Inv(s, book)
    ensures var book' := BookStep(s, book, a);
            && (forall q :: q != a.requestId ==> ShareOf(book', q, budgetId) == ShareOf(book, q, budgetId))
            && BookTotal(book', budgetId) - BookTotal(book, budgetId)
               == ShareOf(book', a.requestId, budgetId) - ShareOf(book, a.requestId, budgetId)
  {
    match CallOf(s, a)
    case None =>
    case Some(op) =>
      forall q | q != op.requestId
        ensures ShareOf(BookApply(book, op), q, budgetId) == ShareOf(book, q, budgetId)
      {
        ShareOfOthers(book, op, q, budgetId);
      }
      assert op.ReserveOp? ==> StatusOf(book, op.requestId).None?;
      TotalMovesWithShare(book, op, budgetId);
  }

  /** One action moves the book's total and the sum over arrived requests alike. */
  lemma StepKeepsShares(s: Sys, book: Book, a: Action, budgetId: int)
    requires Inv(s, book) && ArrivalsMatch(s) && DistinctAction(a)
    requires BookTotal(book, budgetId) == Shares(book, s.arrivals, budgetId)
    ensures BookTotal(BookStep(s, book, a), budgetId) == Shares(BookStep(s, book, a), Step(s, a).arrivals, budgetId)
  {
    var r := a.requestId;
    CallMovesOneShare(s, book, a, budgetId);
    StepKeepsArrivals(s, a);
    assert r !in s.phases ==> StatusOf(book, r).None?;
    assert r !in Step(s, a).phases ==> BookStep(s, book, a) == book;
    SharesFollowTotal(book, BookStep(s, book, a), s.arrivals, Step(s, a).arrivals, r, budgetId);
  }

  ghost predicate Reached(s: Sys, book: Book) {
    && Inv(s, book)
    && AsksMatch(s, book)
    && ArrivalsMatch(s)
    && forall b :: BookTotal(book, b) == Shares(book, s.arrivals, b)
  }

  lemma {:induction false} StepsKeepReached(s: Sys, book: Book, actions: seq<Action>)
    requires Reached(s, book) && DistinctActions(actions)
    ensures Reached(Steps(s, actions), BookSteps(s, book, actions))
    decreases |actions|
  {
    if actions != [] {
      var a := actions[0];
      assert DistinctAction(a);
      StepKeepsInv(s, book, a);
      StepKeepsAsks(s, book, a);
      StepKeepsArrivals(s, a);
      forall b
        ensures BookTotal(BookStep(s, book, a), b) == Shares(BookStep(s, book, a), Step(s, a).arrivals, b)
      {
        StepKeepsShares(s, book, a, b);
      }
      StepsKeepReached(Step(s, a), BookStep(s, book, a), actions[1..]);
    }
  }

  lemma RunIsReached(actions: seq<Action>)
    requires DistinctActions(actions)
    ensures Reached(Steps(START, actions), BookSteps(START, [], actions))
  {
    EmptyLedgerRefines();
    StepsKeepReached(START, [], actions);
  }

  // ---------------------------------------------------------------- the pipeline's guarantees

  /** However the actions of any number of requests interleave, at every point each budget's latest
      total is exactly the sum over the requests that reserved on it: the estimate of each one in
      flight, the usage cost of each one that succeeded, nothing for one that failed. */
  lemma TotalsAreWhatRequestsOwe(actions: seq<Action>, budgetId: int)
    requires DistinctActions(actions)
    ensures var s := Steps(START, actions);
            && ArrivalsMatch(s)
            && LatestTotal(s.rows, budgetId) == Weights(s, s.arrivals, budgetId)
  {
    var s, book := Steps(START, actions), BookSteps(START, [], actions);
    RunIsReached(actions);
    SharesAreWeights(s, book, s.arrivals, budgetId);
  }

  /** One row per reserved budget, in the same order, moving each from its estimate to the target. */
  ghost predicate Mirrors(settled: seq<Row>, reserved: seq<Row>, target: Money) {
    && |settled| == |reserved|
    && forall k :: 0 <= k < |reserved| ==>
         settled[k].budgetId == reserved[k].budgetId && settled[k].amount == target - reserved[k].amount
  }

  /** The reserve rows are exactly one per applicable budget, in order, each for the whole estimate. */
  ghost predicate ReservedAll(s: Sys, requestId: string) {
    && requestId in s.asked && s.asked[requestId].budgets != []
    && Posts(EntriesOf(s.rows, requestId, Reserve), BudgetIds(s.asked[requestId].budgets), s.asked[requestId].estimate)
  }

  /** At every point a request has reserved all of its applicable budgets at its estimate, or nothing. */
  lemma ReservesAllOrNothing(actions: seq<Action>, requestId: string)
    requires DistinctActions(actions)
    ensures var s := Steps(START, actions);
            EntriesOf(s.rows, requestId, Reserve) == [] || ReservedAll(s, requestId)
  {
    var s, book := Steps(START, actions), BookSteps(START, [], actions);
    RunIsReached(actions);
    AccountReservedAll(s, book, requestId);
  }

  lemma AccountReservedAll(s: Sys, book: Book, requestId: string)
    requires Inv(s, book) && AsksMatch(s, book)
    ensures if Find(book, requestId) < |book| then ReservedAll(s, requestId)
            else EntriesOf(s.rows, requestId, Reserve) == []
  {
    var i := Find(book, requestId);
    if i < |book| {
      assert Recorded(s.rows, book[i]) && Sound(book[i]) && AskedFor(s, book[i]);
    } else {
      assert Unrecorded(s.rows, requestId);
    }
  }

  /** Some budget's total would leave 64 bits, or the ledger rejects the request outright. */
  ghost predicate Unreservable(rows: seq<Row>, requestId: string, budgets: seq<Budget>, estimate: Money) {
    || IsBlank(requestId) || estimate < 0
    || exists b :: b in budgets && !InI64(LatestTotal(rows, b.id) + estimate)
  }

  /** A request admitted over some budgets has reserved every one of them at its estimate; only
      observe mode lets through one that could not reserve, and that one has reserved nothing. */
  lemma AdmissionReservesEveryBudget(actions: seq<Action>, requestId: string, mode: Mode, budgets: seq<Budget>,
                                     estimate: Money)
    requires DistinctActions(actions) && Distinct(BudgetIds(budgets)) && budgets != []
    requires requestId !in Steps(START, actions).phases
    ensures var s := Steps(START, actions);
            var s' := Step(s, Evaluate(requestId, mode, Some(budgets), estimate));
            && s'.asked[requestId] == Asked(budgets, estimate)
            && if s'.phases[requestId].Admitted? && !(mode.Observe? && Unreservable(s.rows, requestId, budgets, estimate))
               then ReservedAll(s', requestId)
               else s'.rows == s.rows && EntriesOf(s'.rows, requestId, Reserve) == []
  {
    var s, book := Steps(START, actions), BookSteps(START, [], actions);
    RunIsReached(actions);
    AdmittedReserves(s, book, requestId, mode, budgets, estimate);
  }

  lemma AdmittedReserves(s: Sys, book: Book, requestId: string, mode: Mode, budgets: seq<Budget>, estimate: Money)
    requires Inv(s, book) && AsksMatch(s, book) && requestId !in s.phases
    requires Distinct(BudgetIds(budgets)) && budgets != []
    ensures var s' := Step(s, Evaluate(requestId, mode, Some(budgets), estimate));
            && s'.asked[requestId] == Asked(budgets, estimate)
            && if s'.phases[requestId].Admitted? && !(mode.Observe? && Unreservable(s.rows, requestId, budgets, estimate))
               then ReservedAll(s', requestId)
               else s'.rows == s.rows && EntriesOf(s'.rows, requestId, Reserve) == []
  {
    var a := Evaluate(requestId, mode, Some(budgets), estimate);
    var op := ReserveOp(requestId, budgets, estimate, mode.Guard?);
    var s', book' := Step(s, a), BookStep(s, book, a);
    assert StatusOf(book, requestId).None?;
    StepKeepsInv(s, book, a);
    StepKeepsAsks(s, book, a);
    AccountReservedAll(s', book', requestId);
    ReserveRefines(s.rows, book, op);
    ReservedStatus(book, op);
    if !CanReserve(book, requestId, budgets, estimate, mode.Guard?) {
      RefusalWritesNothing(s.rows, op);
    }
    UnaffordableInObserve(s.rows, book, requestId, budgets, estimate);
  }

  lemma RefusalWritesNothing(rows: seq<Row>, op: Op)
    requires op.ReserveOp?
    ensures var (after, reply) := Apply(rows, op);
            (reply.reservation.Ok? && reply.reservation.value.Granted?) || after == rows
  {
  }

  lemma UnaffordableInObserve(rows: seq<Row>, book: Book, requestId: string, budgets: seq<Budget>, estimate: Money)
    requires forall b :: LatestTotal(rows, b) == BookTotal(book, b)
    requires Find(book, requestId) == |book| && budgets != []
    ensures CanReserve(book, requestId, budgets, estimate, false) <==> !Unreservable(rows, requestId, budgets, estimate)
  {
    forall i | 0 <= i < |budgets|
      ensures InI64(BookTotal(book, budgets[i].id) + estimate)
              <==> InI64(LatestTotal(rows, budgets[i].id) + estimate)
    {
      assert LatestTotal(rows, budgets[i].id) == BookTotal(book, budgets[i].id);
    }
    if exists b :: b in budgets && !InI64(LatestTotal(rows, b.id) + estimate) {
      var b :| b in budgets && !InI64(LatestTotal(rows, b.id) + estimate);
      var i :| 0 <= i < |budgets| && budgets[i] == b;
      assert !InI64(BookTotal(book, budgets[i].id) + estimate);
    }
    forall i | 0 <= i < |budgets|
      ensures budgets[i] in budgets
    {
    }
  }

  /** The rows a finished request leaves: none, or one reserve row for each applicable budget at the
      estimate, with exactly one settlement row each. A stranded request, whose reconcile failed, keeps
      its reserve rows. */
  ghost predicate LeavesTrace(s: Sys, requestId: string, phase: Phase) {
    var reserved := EntriesOf(s.rows, requestId, Reserve);
    var reconciled := EntriesOf(s.rows, requestId, Reconcile);
    var released := EntriesOf(s.rows, requestId, Release);
    match phase
    case Failed(true) =>
      ReservedAll(s, requestId) && Mirrors(released, reserved, 0) && reconciled == []
    case Succeeded(cost, true) =>
      ReservedAll(s, requestId) && Mirrors(reconciled, reserved, cost) && released == []
    case Stranded(_) =>
      ReservedAll(s, requestId) && reconciled == [] && released == []
    case _ =>
      reserved == [] && reconciled == [] && released == []
  }

  lemma FinishedRequestsLeaveOneTrace(actions: seq<Action>, requestId: string)
    requires DistinctActions(actions)
    ensures var s := Steps(START, actions);
            requestId in s.phases && Finished(s.phases[requestId]) ==>
              LeavesTrace(s, requestId, s.phases[requestId])
  {
    var s, book := Steps(START, actions), BookSteps(START, [], actions);
    RunIsReached(actions);
    if requestId in s.phases && Finished(s.phases[requestId]) {
      TraceOf(s, book, requestId);
    }
  }

  lemma TraceOf(s: Sys, book: Book, requestId: string)
    requires Inv(s, book) && AsksMatch(s, book) && requestId in s.phases && Finished(s.phases[requestId])
    ensures LeavesTrace(s, requestId, s.phases[requestId])
  {
    assert Matches(StatusOf(book, requestId), s.phases[requestId]);
    AccountReservedAll(s, book, requestId);
    var i := Find(book, requestId);
    if i < |book| {
      assert Recorded(s.rows, book[i]) && Sound(book[i]);
    } else {
      assert Unrecorded(s.rows, requestId);
    }
  }

  /** Replacing each reserved amount by the cost keeps every budget's total a 64-bit amount. */
  ghost predicate EachFits(rows: seq<Row>, reserved: seq<Row>, cost: Money) {
    forall k :: 0 <= k < |reserved| ==> FitsAt(rows, reserved[k], cost - reserved[k].amount)
  }

  /** A dispatch is stranded exactly when it had reserved and its usage cost is negative or would
      carry one of its budgets out of the 64-bit range. */
  lemma StrandedExactlyOnOverflow(actions: seq<Action>, requestId: string, cost: Money)
    requires DistinctActions(actions)
    requires var s := Steps(START, actions); requestId in s.phases && s.phases[requestId].Dispatching?
    ensures var s := Steps(START, actions);
            var reserved := EntriesOf(s.rows, requestId, Reserve);
            Step(s, Finish(requestId, UsageCost(cost))).phases[requestId].Stranded?
            <==> s.phases[requestId].persisted
                 && (cost < 0 || !EachFits(s.rows, reserved, cost))
  {
    var s, book := Steps(START, actions), BookSteps(START, [], actions);
    RunIsReached(actions);
    if s.phases[requestId].persisted && cost >= 0 {
      StrandedIffUnfit(s, book, requestId, cost);
    } else {
      StrandedIffNegative(s, requestId, cost);
    }
  }

  lemma StrandedIffNegative(s: Sys, r: string, cost: Money)
    requires r in s.phases && s.phases[r].Dispatching? && (!s.phases[r].persisted || cost < 0)
    ensures Step(s, Finish(r, UsageCost(cost))).phases[r].Stranded? <==> s.phases[r].persisted
  {
  }

  lemma StrandedIffUnfit(s: Sys, book: Book, r: string, cost: Money)
    requires Inv(s, book) && r in s.phases && s.phases[r] == Dispatching(true) && cost >= 0
    ensures Step(s, Finish(r, UsageCost(cost))).phases[r].Stranded?
            <==> !EachFits(s.rows, EntriesOf(s.rows, r, Reserve), cost)
  {
    FinishStrands(s, r, cost);
    OpenAccountFits(s.rows, book[Find(book, r)], cost);
  }

  lemma OpenAccountFits(rows: seq<Row>, a: Account, cost: Money)
    requires Recorded(rows, a) && Sound(a) && a.status.Open? && cost >= 0
    ensures Apply(rows, ReconcileOp(a.requestId, cost)).1.ids.Ok?
            <==> EachFits(rows, EntriesOf(rows, a.requestId, Reserve), cost)
  {
    UnsettledRequestPosts(rows, ReconcileOp(a.requestId, cost), a.budgetIds, a.estimate);
  }

  lemma FinishStrands(s: Sys, r: string, cost: Money)
    requires r in s.phases && s.phases[r] == Dispatching(true)
    ensures Step(s, Finish(r, UsageCost(cost))).phases[r].Stranded?
            <==> Apply(s.rows, ReconcileOp(r, cost)).1.ids.Err?
  {
  }

  /** The steps before a stranding: one request reserves an estimate of zero, and another takes the
      total to the largest amount. */
  function StrandingRun(budget: Budget): seq<Action> {
    [Evaluate("a", Guard, Some([budget]), 0), Evaluate("b", Guard, Some([budget]), I64_MAX), CheckReserve("a")]
  }

  /** After them a cost of one micro can no longer be reconciled. */
  lemma ACostCanStrand(budget: Budget)
    requires budget.hardLimit.None?
    ensures var s := Steps(START, StrandingRun(budget));
            && "a" in s.phases && s.phases["a"] == Dispatching(true)
            && Step(s, Finish("a", UsageCost(1))).phases["a"] == Stranded(1)
  {
    var s := Steps(START, StrandingRun(budget));
    StrandingState(budget);
    StrandingRows(budget.id);
    StrandedExactlyOnOverflow(StrandingRun(budget), "a", 1);
    NothingFits(s.rows, budget.id);
  }

  lemma StrandingState(budget: Budget)
    requires budget.hardLimit.None?
    ensures var s := Steps(START, StrandingRun(budget));
            && "a" in s.phases && s.phases["a"] == Dispatching(true)
            && s.rows == Insert(Insert([], "a", Reserve, budget.id, 0, 0), "b", Reserve, budget.id, I64_MAX, I64_MAX)
  {
    var x, y := Evaluate("a", Guard, Some([budget]), 0), Evaluate("b", Guard, Some([budget]), I64_MAX);
    ThreeSteps(START, x, y, CheckReserve("a"));
    StrandingRows(budget.id);
    StrandingBegins(budget);
    StrandingGoesOn(Step(START, x), budget);
  }

  lemma StrandingBegins(budget: Budget)
    requires budget.hardLimit.None?
    ensures var s := Step(START, Evaluate("a", Guard, Some([budget]), 0));
            && "a" in s.phases && s.phases["a"] == Admitted && "b" !in s.phases
            && s.rows == Insert([], "a", Reserve, budget.id, 0, 0)
  {
    assert !IsWhitespace("a"[0]);
    StrandingRows(budget.id);
    OpensOne(START, "a", budget, 0);
    OthersKeepTheirPhase(START, Evaluate("a", Guard, Some([budget]), 0), "b");
  }

  lemma StrandingGoesOn(s: Sys, budget: Budget)
    requires budget.hardLimit.None?
    requires "a" in s.phases && s.phases["a"] == Admitted && "b" !in s.phases
    requires s.rows == Insert([], "a", Reserve, budget.id, 0, 0)
    ensures var s' := Step(s, Evaluate("b", Guard, Some([budget]), I64_MAX));
            && "a" in s'.phases && s'.phases["a"] == Admitted
            && s'.rows == Insert(s.rows, "b", Reserve, budget.id, I64_MAX, I64_MAX)
  {
    assert !IsWhitespace("b"[0]);
    StrandingRows(budget.id);
    OpensOne(s, "b", budget, I64_MAX);
    OthersKeepTheirPhase(s, Evaluate("b", Guard, Some([budget]), I64_MAX), "a");
  }

  lemma StrandingRows(budgetId: int)
    ensures var rows := Insert([], "a", Reserve, budgetId, 0, 0);
            var both := Insert(rows, "b", Reserve, budgetId, I64_MAX, I64_MAX);
            && LatestTotal([], budgetId) == 0 && EntriesOf([], "a", Reserve) == []
            && LatestTotal(rows, budgetId) == 0 && EntriesOf(rows, "b", Reserve) == []
            && LatestTotal(both, budgetId) == I64_MAX && EntriesOf(both, "a", Reserve) == rows
  {
    RowsOfTwo("a", "b", budgetId, I64_MAX);
  }

  lemma RowsOfTwo(a: string, b: string, budgetId: int, amount: Money)
    requires a != b
    ensures var rows := Insert([], a, Reserve, budgetId, 0, 0);
            var both := Insert(rows, b, Reserve, budgetId, amount, amount);
            && LatestTotal([], budgetId) == 0 && EntriesOf([], a, Reserve) == []
            && LatestTotal(rows, budgetId) == 0 && EntriesOf(rows, b, Reserve) == []
            && LatestTotal(both, budgetId) == amount && EntriesOf(both, a, Reserve) == rows
  {
    var rows := Insert([], a, Reserve, budgetId, 0, 0);
    var both := Insert(rows, b, Reserve, budgetId, amount, amount);
    assert rows[..0] == [] && both[..1] == rows;
    assert EntriesOf(rows, a, Reserve) == EntriesOf([], a, Reserve) + [rows[0]];
    assert EntriesOf(rows, b, Reserve) == EntriesOf([], b, Reserve);
  }

  lemma NothingFits(rows: seq<Row>, budgetId: int)
    requires LatestTotal(rows, budgetId) == I64_MAX
    requires EntriesOf(rows, "a", Reserve) != []
    requires EntriesOf(rows, "a", Reserve)[0].budgetId == budgetId && EntriesOf(rows, "a", Reserve)[0].amount == 0
    ensures !EachFits(rows, EntriesOf(rows, "a", Reserve), 1)
  {
    assert !FitsAt(rows, EntriesOf(rows, "a", Reserve)[0], 1);
  }

  lemma ThreeSteps(s: Sys, a: Action, b: Action, c: Action)
    ensures Steps(s, [a, b, c]) == Step(Step(Step(s, a), b), c)
  {
    assert [a, b, c][1..] == [b, c] && [b, c][1..] == [c] && [c][1..] == [];
    var s1 := Step(s, a);
    assert Steps(s1, [b, c]) == Steps(Step(s1, b), [c]);
    assert Steps(Step(s1, b), [c]) == Steps(Step(Step(s1, b), c), []);
  }

  /** One admission over one unlimited budget. */
  lemma OpensOne(s: Sys, r: string, budget: Budget, estimate: Money)
    requires r !in s.phases && !IsBlank(r) && estimate >= 0 && budget.hardLimit.None?
    requires EntriesOf(s.rows, r, Reserve) == [] && InI64(LatestTotal(s.rows, budget.id) + estimate)
    ensures var s' := Step(s, Evaluate(r, Guard, Some([budget]), estimate));
            && r in s'.phases && s'.phases[r] == Admitted
            && s'.rows == Insert(s.rows, r, Reserve, budget.id, estimate, LatestTotal(s.rows, budget.id) + estimate)
  {
    PostsOne(s.rows, r, budget, estimate);
  }

  lemma PostsOne(rows: seq<Row>, r: string, budget: Budget, cost: Money)
    requires budget.hardLimit.None? && InI64(LatestTotal(rows, budget.id) + cost)
    ensures PostReserve(rows, r, [budget], cost, true)
         == Posted(Insert(rows, r, Reserve, budget.id, cost, LatestTotal(rows, budget.id) + cost))
  {
    var after := Insert(rows, r, Reserve, budget.id, cost, LatestTotal(rows, budget.id) + cost);
    assert [budget][1..] == [];
    assert PostReserve(after, r, [], cost, true) == Posted(after);
  }

  /** Once every request has finished and none is stranded, each budget's total is the sum of the
      usage costs of the successful requests that reserved on it. */
  lemma SettledTotalsAreUsage(actions: seq<Action>, budgetId: int)
    requires DistinctActions(actions)
    requires var s := Steps(START, actions);
             forall r :: r in s.phases ==> Finished(s.phases[r]) && !s.phases[r].Stranded?
    ensures var s := Steps(START, actions);
            LatestTotal(s.rows, budgetId) == UsageSum(s, s.arrivals, budgetId)
  {
    TotalsAreWhatRequestsOwe(actions, budgetId);
    var s := Steps(START, actions);
    WeightsAreUsage(s, s.arrivals, budgetId);
  }

  function UsageSum(s: Sys, requests: seq<string>, budgetId: int): int {
    if requests == [] then 0
    else
      var r := requests[|requests| - 1];
      UsageSum(s, requests[..|requests| - 1], budgetId)
      + if r in s.phases && s.phases[r].Succeeded? && HeldOn(s, r, budgetId).Some? then s.phases[r].cost else 0
  }

  lemma {:induction false} WeightsAreUsage(s: Sys, requests: seq<string>, budgetId: int)
    requires forall r :: r in requests ==> r in s.phases
    requires forall r :: r in s.phases ==> Finished(s.phases[r]) && !s.phases[r].Stranded?
    ensures Weights(s, requests, budgetId) == UsageSum(s, requests, budgetId)
  {
    if requests != [] {
      assert requests[|requests| - 1] in requests;
      WeightsAreUsage(s, requests[..|requests| - 1], budgetId);
    }
  }
}
