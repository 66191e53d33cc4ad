/** The ledger as one account per request, which the rows refine. */
module LedgerBook {
  import opened Outcomes
  import opened Amounts
  import opened Text
  import opened LedgerModel
  import opened LedgerFacts
  import opened ReserveFacts

  datatype Status = Open | Charged(actual: Money) | Returned

  datatype Account = Account(requestId: string, budgetIds: seq<int>, estimate: Money, status: Status)

  type Book = seq<Account>

  /** What an account counts for: its estimate while open, the actual cost once reconciled, nothing
      once released. */
  function Worth(a: Account): int {
    match a.status
    case Open => a.estimate
    case Charged(actual) => actual
    case Returned => 0
  }

  function Share(a: Account, budgetId: int): int {
    if budgetId in a.budgetIds then Worth(a) else 0
  }

  function BookTotal(book: Book, budgetId: int): int {
    if book == [] then 0 else BookTotal(book[..|book| - 1], budgetId) + Share(book[|book| - 1], budgetId)
  }

  function Find(book: Book, requestId: string): (i: nat)
    ensures i <= |book|
    ensures i < |book| ==> book[i].requestId == requestId
    ensures forall j :: 0 <= j < i ==> book[j].requestId != requestId
  {
    if book == [] || book[0].requestId == requestId then 0 else 1 + Find(book[1..], requestId)
  }

  ghost predicate Affordable(book: Book, budgets: seq<Budget>, cost: Money, enforce: bool) {
    forall i :: 0 <= i < |budgets| ==>
      var total := BookTotal(book, budgets[i].id) + cost;
      InI64(total) && !(enforce && OverLimit(budgets[i], total))
  }

  ghost predicate Movable(book: Book, ids: seq<int>, delta: int) {
    forall i :: 0 <= i < |ids| ==> InI64(BookTotal(book, ids[i]) + delta)
  }

  /** A settlement of the request would be accepted: its account is open and no total leaves the
      64-bit range. */
  ghost predicate CanSettle(book: Book, requestId: string, target: int) {
    var i := Find(book, requestId);
    i < |book| && book[i].status.Open? && Movable(book, book[i].budgetIds, target - book[i].estimate)
  }

  ghost predicate CanReserve(book: Book, requestId: string, budgets: seq<Budget>, cost: Money, enforce: bool) {
    && !IsBlank(requestId) && cost >= 0 && budgets != []
    && Find(book, requestId) == |book|
    && Affordable(book, budgets, cost, enforce)
  }

  ghost function BookApply(book: Book, op: Op): Book {
    match op
    case ReserveOp(requestId, budgets, cost, enforce) =>
      if CanReserve(book, requestId, budgets, cost, enforce)
      then book + [Account(requestId, BudgetIds(budgets), cost, Open)]
      else book
    case ReconcileOp(requestId, actual) =>
      if actual >= 0 && CanSettle(book, requestId, actual)
      then var i := Find(book, requestId); book[i := book[i].(status := Charged(actual))]
      else book
    case ReleaseOp(requestId) =>
      if CanSettle(book, requestId, 0)
      then var i := Find(book, requestId); book[i := book[i].(status := Returned)]
      else book
  }

  // ---------------------------------------------------------------- the refinement relation

  ghost predicate Sound(a: Account) {
    && !IsBlank(a.requestId) && a.budgetIds != [] && Distinct(a.budgetIds)
    && a.estimate >= 0 && Worth(a) >= 0
  }

  ghost predicate WellFormed(book: Book) {
    && (forall i :: 0 <= i < |book| ==> Sound(book[i]))
    && (forall i, j :: 0 <= i < j < |book| ==> book[i].requestId != book[j].requestId)
  }

  /** One row per budget, in order, all of one amount. */
  ghost predicate Posts(entries: seq<Row>, ids: seq<int>, amount: int) {
    && |entries| == |ids|
    && forall k :: 0 <= k < |ids| ==> entries[k].budgetId == ids[k] && entries[k].amount == amount
  }

  /** The rows an account stands for: its reserve rows, and the rows of its one settlement if any. */
  ghost predicate Recorded(rows: seq<Row>, a: Account) {
    && Posts(EntriesOf(rows, a.requestId, Reserve), a.budgetIds, a.estimate)
    && (if a.status.Charged?
        then Posts(EntriesOf(rows, a.requestId, Reconcile), a.budgetIds, a.status.actual - a.estimate)
        else EntriesOf(rows, a.requestId, Reconcile) == [])
    && (if a.status.Returned?
        then Posts(EntriesOf(rows, a.requestId, Release), a.budgetIds, 0 - a.estimate)
        else EntriesOf(rows, a.requestId, Release) == [])
  }

  ghost predicate Unrecorded(rows: seq<Row>, requestId: string) {
    && EntriesOf(rows, requestId, Reserve) == []
    && EntriesOf(rows, requestId, Reconcile) == []
    && EntriesOf(rows, requestId, Release) == []
  }

  ghost predicate Refines(rows: seq<Row>, book: Book) {
    && WellFormed(book)
    && (forall i :: 0 <= i < |book| ==> Recorded(rows, book[i]))
    && (forall r :: Find(book, r) == |book| ==> Unrecorded(rows, r))
    && (forall b :: LatestTotal(rows, b) == BookTotal(book, b))
  }

  // ---------------------------------------------------------------- sums over the book

  lemma {:induction false} TotalUpdate(book: Book, i: nat, a: Account, budgetId: int)
    requires i < |book|
    ensures BookTotal(book[i := a], budgetId) == BookTotal(book, budgetId) - Share(book[i], budgetId) + Share(a, budgetId)
  {
    var n := |book| - 1;
    if i == n {
      assert book[i := a][..n] == book[..n];
    } else {
      assert book[i := a][..n] == book[..n][i := a];
      TotalUpdate(book[..n], i, a, budgetId);
    }
  }

  lemma {:induction false} TotalCovers(book: Book, i: nat, budgetId: int)
    requires WellFormed(book) && i < |book|
    ensures BookTotal(book, budgetId) >= Share(book[i], budgetId)
  {
    var front := book[..|book| - 1];
    TotalIsNonNegative(front, budgetId);
    assert Sound(book[|book| - 1]);
    if i < |front| {
      TotalCovers(front, i, budgetId);
    }
  }

  lemma {:induction false} TotalIsNonNegative(book: Book, budgetId: int)
    requires WellFormed(book)
    ensures BookTotal(book, budgetId) >= 0
  {
    if book != [] {
      assert Sound(book[|book| - 1]);
      TotalIsNonNegative(book[..|book| - 1], budgetId);
    }
  }

  lemma FindAfterUpdate(book: Book, i: nat, a: Account, requestId: string)
    requires i < |book| && a.requestId == book[i].requestId
    ensures Find(book[i := a], requestId) == Find(book, requestId)
  {
    var book' := book[i := a];
    assert forall j :: 0 <= j < |book| ==> book'[j].requestId == book[j].requestId;
    var k, k' := Find(book, requestId), Find(book', requestId);
    assert k < |book| ==> book'[k].requestId == requestId;
    assert k' < |book| ==> book[k'].requestId == requestId;
  }

  // ---------------------------------------------------------------- one posting

  /** A posting of one amount to distinct budgets leaves every other request's rows alone, adds its
      own rows to its own type, and moves exactly the listed totals. */
  lemma PostingEffect(rows: seq<Row>, after: seq<Row>, requestId: string, entryType: EntryType, ids: seq<int>,
                      amount: int)
    requires Extends(rows, after, requestId, entryType, ids, Copies(|ids|, amount)) && Distinct(ids)
    ensures forall r, t :: r != requestId || t != entryType ==> EntriesOf(after, r, t) == EntriesOf(rows, r, t)
    ensures EntriesOf(rows, requestId, entryType) == [] ==> Posts(EntriesOf(after, requestId, entryType), ids, amount)
    ensures forall b :: LatestTotal(after, b) == LatestTotal(rows, b) + if b in ids then amount else 0
  {
    var amounts := Copies(|ids|, amount);
    forall r, t | r != requestId || t != entryType
      ensures EntriesOf(after, r, t) == EntriesOf(rows, r, t)
    {
      ExtendsEntries(rows, after, requestId, entryType, ids, amounts, r, t);
    }
    ExtendsEntries(rows, after, requestId, entryType, ids, amounts, requestId, entryType);
    forall k | 0 <= k < |ids|
      ensures after[|rows|..][k].budgetId == ids[k] && after[|rows|..][k].amount == amount
    {
      assert PostedAt(after, |rows| + k, requestId, entryType, ids[k], amounts[k]);
    }
    forall b
      ensures LatestTotal(after, b) == LatestTotal(rows, b) + if b in ids then amount else 0
    {
      ExtendsTotal(rows, after, requestId, entryType, ids, amounts, b);
    }
  }

  ghost predicate FitsAt(rows: seq<Row>, row: Row, delta: int) {
    InI64(LatestTotal(rows, row.budgetId) + delta)
  }

  ghost predicate AllFit(rows: seq<Row>, reserved: seq<Row>, delta: int) {
    forall i :: 0 <= i < |reserved| ==> FitsAt(rows, reserved[i], delta)
  }

  lemma FirstThenRestFit(rows: seq<Row>, requestId: string, entryType: EntryType, reserved: seq<Row>, delta: Money)
    requires reserved != [] && DistinctBudgets(reserved)
    requires FitsAt(rows, reserved[0], delta)
    ensures var mid := Insert(rows, requestId, entryType, reserved[0].budgetId, delta,
                              LatestTotal(rows, reserved[0].budgetId) + delta);
            AllFit(mid, reserved[1..], delta) <==> AllFit(rows, reserved, delta)
  {
    var first := reserved[0].budgetId;
    var mid := Insert(rows, requestId, entryType, first, delta, LatestTotal(rows, first) + delta);
    InsertMovesOneTotal(rows, requestId, entryType, first, delta, LatestTotal(rows, first) + delta);
    var rest := reserved[1..];
    forall i | 0 <= i < |rest|
      ensures FitsAt(mid, rest[i], delta) <==> FitsAt(rows, reserved[i + 1], delta)
    {
      assert reserved[0].budgetId != reserved[i + 1].budgetId;
    }
    if AllFit(mid, rest, delta) {
      forall i | 0 <= i < |reserved|
        ensures FitsAt(rows, reserved[i], delta)
      {
        if i > 0 {
          assert FitsAt(mid, rest[i - 1], delta);
        }
      }
    }
    if AllFit(rows, reserved, delta) {
      forall i | 0 <= i < |rest|
        ensures FitsAt(mid, rest[i], delta)
      {
        assert FitsAt(rows, reserved[i + 1], delta);
      }
    }
  }

  lemma SettlementStep(rows: seq<Row>, requestId: string, entryType: EntryType, reserved: seq<Row>, target: Money)
    requires reserved != [] && InI64(target - reserved[0].amount)
    ensures var delta := target - reserved[0].amount;
            var b := reserved[0].budgetId;
            PostSettlement(rows, requestId, entryType, reserved, target)
            == if FitsAt(rows, reserved[0], delta)
               then PostSettlement(Insert(rows, requestId, entryType, b, delta, LatestTotal(rows, b) + delta), requestId,
                                   entryType, reserved[1..], target)
               else Err(TotalOverflow)
  {
    var delta := target - reserved[0].amount;
    assert CheckedSub(target, reserved[0].amount) == Some(delta);
  }

  lemma {:induction false} SettlementFits(rows: seq<Row>, requestId: string, entryType: EntryType, reserved: seq<Row>,
                                          target: Money, estimate: Money)
    requires DistinctBudgets(reserved) && InI64(target - estimate)
    requires forall i :: 0 <= i < |reserved| ==> reserved[i].amount == estimate
    ensures PostSettlement(rows, requestId, entryType, reserved, target).Ok?
            <==> AllFit(rows, reserved, target - estimate)
    decreases |reserved|
  {
    if reserved != [] {
      var diff := target - estimate;
      assert reserved[0].amount == estimate;
      SettlementStep(rows, requestId, entryType, reserved, target);
      if FitsAt(rows, reserved[0], diff) {
        var b := reserved[0].budgetId;
        var mid := Insert(rows, requestId, entryType, b, diff, LatestTotal(rows, b) + diff);
        RestIsUniform(reserved, estimate);
        FirstThenRestFit(rows, requestId, entryType, reserved, diff);
        SettlementFits(mid, requestId, entryType, reserved[1..], target, estimate);
      } else {
        FirstDoesNotFit(rows, reserved, diff);
      }
    }
  }

  lemma RestIsUniform(reserved: seq<Row>, estimate: Money)
    requires reserved != [] && DistinctBudgets(reserved)
    requires forall i :: 0 <= i < |reserved| ==> reserved[i].amount == estimate
    ensures var rest := reserved[1..];
            DistinctBudgets(rest) && forall i :: 0 <= i < |rest| ==> rest[i].amount == estimate
  {
  }

  lemma FirstDoesNotFit(rows: seq<Row>, reserved: seq<Row>, delta: int)
    requires reserved != [] && !FitsAt(rows, reserved[0], delta)
    ensures !AllFit(rows, reserved, delta)
  {
  }

  // ---------------------------------------------------------------- each call refines its book step

  lemma AffordableMeansNoRefusal(rows: seq<Row>, book: Book, budgets: seq<Budget>, cost: Money, enforce: bool)
    requires forall b :: LatestTotal(rows, b) == BookTotal(book, b)
    ensures Affordable(book, budgets, cost, enforce) <==> FirstRefusal(rows, budgets, cost, enforce) == |budgets|
  {
    var k := FirstRefusal(rows, budgets, cost, enforce);
    forall i | 0 <= i < |budgets|
      ensures Refuses(rows, budgets[i], cost, enforce)
              <==> var total := BookTotal(book, budgets[i].id) + cost;
                   !(InI64(total) && !(enforce && OverLimit(budgets[i], total)))
    {
      assert LatestTotal(rows, budgets[i].id) == BookTotal(book, budgets[i].id);
    }
  }

  lemma KnownReserveChangesNothing(rows: seq<Row>, book: Book, op: Op)
    requires Refines(rows, book) && op.ReserveOp? && Find(book, op.requestId) < |book|
    ensures Apply(rows, op).0 == rows && BookApply(book, op) == book
  {
    var a := book[Find(book, op.requestId)];
    assert Recorded(rows, a) && Sound(a);
    ReservedRows(rows, a);
  }

  lemma FreshReserveRefines(rows: seq<Row>, book: Book, op: Op)
    requires Refines(rows, book) && op.ReserveOp?
    requires Find(book, op.requestId) == |book|
    requires FreshReserve(rows, op.requestId, op.budgets, op.cost)
    ensures Refines(Apply(rows, op).0, BookApply(book, op))
    ensures var r := Apply(rows, op).1.reservation;
            CanReserve(book, op.requestId, op.budgets, op.cost, op.enforce) <==> r.Ok? && r.value.Granted?
  {
    ReserveIsAllOrNothing(rows, op.requestId, op.budgets, op.cost, op.enforce);
    AffordableMeansNoRefusal(rows, book, op.budgets, op.cost, op.enforce);
    if CanReserve(book, op.requestId, op.budgets, op.cost, op.enforce) {
      AccountOpens(rows, Apply(rows, op).0, book, op.requestId, BudgetIds(op.budgets), op.cost);
    }
  }

  lemma ReserveRefines(rows: seq<Row>, book: Book, op: Op)
    requires Refines(rows, book) && op.ReserveOp? && Distinct(BudgetIds(op.budgets))
    ensures Refines(Apply(rows, op).0, BookApply(book, op))
    ensures var r := Apply(rows, op).1.reservation;
            op.budgets != [] && Find(book, op.requestId) == |book| ==>
              (CanReserve(book, op.requestId, op.budgets, op.cost, op.enforce) <==> r.Ok? && r.value.Granted?)
  {
    if Find(book, op.requestId) < |book| {
      KnownReserveChangesNothing(rows, book, op);
    } else if !IsBlank(op.requestId) && op.cost >= 0 && op.budgets != [] {
      assert Unrecorded(rows, op.requestId);
      FreshReserveRefines(rows, book, op);
    }
  }

  lemma AccountOpens(rows: seq<Row>, after: seq<Row>, book: Book, requestId: string, ids: seq<int>, cost: Money)
    requires Refines(rows, book) && Find(book, requestId) == |book|
    requires !IsBlank(requestId) && ids != [] && Distinct(ids) && cost >= 0
    requires Extends(rows, after, requestId, Reserve, ids, Copies(|ids|, cost))
    ensures Refines(after, book + [Account(requestId, ids, cost, Open)])
  {
    var a := Account(requestId, ids, cost, Open);
    PostingEffect(rows, after, requestId, Reserve, ids, cost);
    assert Unrecorded(rows, requestId);
    AccountsAfterOpening(rows, after, book, a);
    UnrecordedAfterOpening(rows, after, book, a);
    TotalsAfterOpening(book, a);
  }

  lemma AccountsAfterOpening(rows: seq<Row>, after: seq<Row>, book: Book, a: Account)
    requires WellFormed(book) && Find(book, a.requestId) == |book|
    requires forall i :: 0 <= i < |book| ==> Recorded(rows, book[i])
    requires forall r, t :: r != a.requestId ==> EntriesOf(after, r, t) == EntriesOf(rows, r, t)
    requires Recorded(after, a) && Sound(a)
    ensures WellFormed(book + [a])
    ensures var book' := book + [a]; forall i :: 0 <= i < |book'| ==> Recorded(after, book'[i])
  {
    var book' := book + [a];
    forall i | 0 <= i < |book'|
      ensures Recorded(after, book'[i])
    {
      if i < |book| {
        assert Recorded(rows, book[i]);
        assert book[i].requestId != a.requestId;
      }
    }
  }

  lemma UnrecordedAfterOpening(rows: seq<Row>, after: seq<Row>, book: Book, a: Account)
    requires forall r :: Find(book, r) == |book| ==> Unrecorded(rows, r)
    requires forall r, t :: r != a.requestId ==> EntriesOf(after, r, t) == EntriesOf(rows, r, t)
    ensures var book' := book + [a]; forall r :: Find(book', r) == |book'| ==> Unrecorded(after, r)
  {
    var book' := book + [a];
    forall r | Find(book', r) == |book'|
      ensures Unrecorded(after, r)
    {
      assert book'[|book|].requestId != r;
      assert forall j :: 0 <= j < |book| ==> book'[j] == book[j];
      assert Find(book, r) == |book|;
    }
  }

  lemma TotalsAfterOpening(book: Book, a: Account)
    ensures forall b :: BookTotal(book + [a], b) == BookTotal(book, b) + Share(a, b)
  {
    assert (book + [a])[..|book|] == book;
  }

  function SettleTarget(op: Op): Money
    requires !op.ReserveOp?
  {
    if op.ReconcileOp? then op.actual else 0
  }

  /** A request with reserve rows of one estimate and no settlement: the call posts the difference to
      each of its budgets if all the totals stay in range, and otherwise fails and writes nothing. */
  lemma UnsettledRequestPosts(rows: seq<Row>, op: Op, ids: seq<int>, estimate: Money)
    requires !op.ReserveOp? && SettleTarget(op) >= 0 && !IsBlank(op.requestId) && estimate >= 0
    requires Posts(EntriesOf(rows, op.requestId, Reserve), ids, estimate) && ids != [] && Distinct(ids)
    requires EntriesOf(rows, op.requestId, Reconcile) == [] && EntriesOf(rows, op.requestId, Release) == []
    ensures var (after, r) := Apply(rows, op);
            if AllFit(rows, EntriesOf(rows, op.requestId, Reserve), SettleTarget(op) - estimate) then
              && r.ids.Ok?
              && Extends(rows, after, op.requestId, OpType(op), ids, Copies(|ids|, SettleTarget(op) - estimate))
            else r.ids.Err? && after == rows
  {
    var reserved := EntriesOf(rows, op.requestId, Reserve);
    SettlementIsPosted(rows, op);
    PostedIsDistinct(reserved, ids, estimate);
    ReservedSettles(rows, op.requestId, OpType(op), reserved, SettleTarget(op), ids, estimate);
  }

  /** With nothing settled yet, a settlement call is the posting, or its error with nothing written. */
  lemma SettlementIsPosted(rows: seq<Row>, op: Op)
    requires !op.ReserveOp? && SettleTarget(op) >= 0 && !IsBlank(op.requestId)
    requires EntriesOf(rows, op.requestId, Reserve) != []
    requires EntriesOf(rows, op.requestId, Reconcile) == [] && EntriesOf(rows, op.requestId, Release) == []
    ensures var p := PostSettlement(rows, op.requestId, OpType(op), EntriesOf(rows, op.requestId, Reserve),
                                    SettleTarget(op));
            var (after, r) := Apply(rows, op);
            && (r.ids.Ok? <==> p.Ok?)
            && after == if p.Ok? then p.value else rows
  {
  }

  lemma PostedIsDistinct(reserved: seq<Row>, ids: seq<int>, estimate: Money)
    requires Posts(reserved, ids, estimate) && ids != [] && Distinct(ids)
    ensures reserved != [] && DistinctBudgets(reserved) && reserved[0].amount == estimate
  {
    forall i, j | 0 <= i < j < |reserved|
      ensures reserved[i].budgetId != reserved[j].budgetId
    {
      assert ids[i] != ids[j];
    }
  }

  lemma ReservedSettles(rows: seq<Row>, requestId: string, entryType: EntryType, reserved: seq<Row>, target: Money,
                        ids: seq<int>, estimate: Money)
    requires Posts(reserved, ids, estimate) && DistinctBudgets(reserved) && target >= 0 && estimate >= 0
    ensures var p := PostSettlement(rows, requestId, entryType, reserved, target);
            && (p.Ok? <==> AllFit(rows, reserved, target - estimate))
            && (p.Ok? ==> Extends(rows, p.value, requestId, entryType, ids, Copies(|ids|, target - estimate)))
  {
    assert InI64(target) && InI64(estimate) && InI64(target - estimate);
    SettlementFits(rows, requestId, entryType, reserved, target, estimate);
    if PostSettlement(rows, requestId, entryType, reserved, target).Ok? {
      SettlementPosts(rows, requestId, entryType, reserved, target);
      assert RowBudgets(reserved) == ids;
      assert Diffs(reserved, target) == Copies(|ids|, target - estimate);
    }
  }

  /** A settlement posts exactly when the book allows it, and then posts the account's difference. */
  lemma OpenSettlementPosts(rows: seq<Row>, book: Book, op: Op)
    requires !op.ReserveOp? && SettleTarget(op) >= 0
    requires Find(book, op.requestId) < |book| && book[Find(book, op.requestId)].status.Open?
    requires var a := book[Find(book, op.requestId)]; Recorded(rows, a) && Sound(a)
    requires forall b :: LatestTotal(rows, b) == BookTotal(book, b)
    ensures var a := book[Find(book, op.requestId)];
            var (after, r) := Apply(rows, op);
            if CanSettle(book, op.requestId, SettleTarget(op)) then
              && r.ids.Ok?
              && Extends(rows, after, op.requestId, OpType(op), a.budgetIds,
                         Copies(|a.budgetIds|, SettleTarget(op) - a.estimate))
            else r.ids.Err? && after == rows
  {
    var a := book[Find(book, op.requestId)];
    SettlesWhenMovable(book, op.requestId, SettleTarget(op), a);
    UnsettledRequestPosts(rows, op, a.budgetIds, a.estimate);
    MovableMeansAllFit(rows, book, EntriesOf(rows, op.requestId, Reserve), a, SettleTarget(op) - a.estimate);
  }

  lemma SettlesWhenMovable(book: Book, requestId: string, target: int, a: Account)
    requires Find(book, requestId) < |book| && a == book[Find(book, requestId)] && a.status.Open?
    ensures CanSettle(book, requestId, target) <==> Movable(book, a.budgetIds, target - a.estimate)
  {
  }

  lemma MovableMeansAllFit(rows: seq<Row>, book: Book, reserved: seq<Row>, a: Account, delta: int)
    requires forall b :: LatestTotal(rows, b) == BookTotal(book, b)
    requires Posts(reserved, a.budgetIds, a.estimate)
    ensures Movable(book, a.budgetIds, delta) <==> AllFit(rows, reserved, delta)
  {
    forall i | 0 <= i < |reserved|
      ensures FitsAt(rows, reserved[i], delta) <==> InI64(BookTotal(book, a.budgetIds[i]) + delta)
    {
    }
    if AllFit(rows, reserved, delta) {
      forall i | 0 <= i < |a.budgetIds|
        ensures InI64(BookTotal(book, a.budgetIds[i]) + delta)
      {
        assert FitsAt(rows, reserved[i], delta);
      }
    }
  }

  lemma ClosedSettlementChangesNothing(rows: seq<Row>, book: Book, op: Op)
    requires Refines(rows, book) && !op.ReserveOp?
    requires var i := Find(book, op.requestId);
             SettleTarget(op) < 0 || i == |book| || !book[i].status.Open?
    ensures Apply(rows, op).0 == rows && BookApply(book, op) == book
  {
    var i := Find(book, op.requestId);
    if i == |book| {
      assert Unrecorded(rows, op.requestId);
    } else if SettleTarget(op) >= 0 {
      assert Recorded(rows, book[i]) && Sound(book[i]);
      ReservedRows(rows, book[i]);
    }
  }

  lemma SettledBook(rows: seq<Row>, after: seq<Row>, book: Book, op: Op)
    requires Refines(rows, book) && !op.ReserveOp? && SettleTarget(op) >= 0
    requires CanSettle(book, op.requestId, SettleTarget(op))
    requires var a := book[Find(book, op.requestId)];
             Extends(rows, after, op.requestId, OpType(op), a.budgetIds,
                     Copies(|a.budgetIds|, SettleTarget(op) - a.estimate))
    ensures Refines(after, BookApply(book, op))
  {
    AccountSettles(rows, after, book, Find(book, op.requestId), OpType(op), SettleTarget(op));
  }

  lemma OpenSettleRefines(rows: seq<Row>, book: Book, op: Op)
    requires Refines(rows, book) && !op.ReserveOp? && SettleTarget(op) >= 0
    requires Find(book, op.requestId) < |book| && book[Find(book, op.requestId)].status.Open?
    ensures Refines(Apply(rows, op).0, BookApply(book, op))
    ensures Apply(rows, op).1.ids.Ok? <==> CanSettle(book, op.requestId, SettleTarget(op))
  {
    var i := Find(book, op.requestId);
    assert Recorded(rows, book[i]) && Sound(book[i]);
    OpenSettlementPosts(rows, book, op);
    var after := Apply(rows, op).0;
    if CanSettle(book, op.requestId, SettleTarget(op)) {
      SettledBook(rows, after, book, op);
    } else {
      assert BookApply(book, op) == book;
    }
  }

  lemma SettleRefines(rows: seq<Row>, book: Book, op: Op)
    requires Refines(rows, book) && !op.ReserveOp?
    ensures Refines(Apply(rows, op).0, BookApply(book, op))
  {
    var i := Find(book, op.requestId);
    if SettleTarget(op) < 0 || i == |book| || !book[i].status.Open? {
      ClosedSettlementChangesNothing(rows, book, op);
    } else {
      OpenSettleRefines(rows, book, op);
    }
  }

  lemma ReservedRows(rows: seq<Row>, a: Account)
    requires Recorded(rows, a) && Sound(a)
    ensures var reserved := EntriesOf(rows, a.requestId, Reserve);
            && reserved != [] && DistinctBudgets(reserved)
            && forall k :: 0 <= k < |reserved| ==> reserved[k].amount == a.estimate
  {
    var reserved := EntriesOf(rows, a.requestId, Reserve);
    forall i, j | 0 <= i < j < |reserved|
      ensures reserved[i].budgetId != reserved[j].budgetId
    {
      assert a.budgetIds[i] != a.budgetIds[j];
    }
  }

  function SettledStatus(entryType: EntryType, target: Money): Status {
    if entryType == Reconcile then Charged(target) else Returned
  }

  lemma AccountSettles(rows: seq<Row>, after: seq<Row>, book: Book, i: nat, entryType: EntryType, target: Money)
    requires Refines(rows, book) && i < |book| && book[i].status.Open?
    requires entryType != Reserve && target >= 0 && (entryType == Release ==> target == 0)
    requires Extends(rows, after, book[i].requestId, entryType, book[i].budgetIds,
                     Copies(|book[i].budgetIds|, target - book[i].estimate))
    ensures Refines(after, book[i := book[i].(status := SettledStatus(entryType, target))])
  {
    var a := book[i];
    var a' := a.(status := SettledStatus(entryType, target));
    var book' := book[i := a'];
    assert Sound(a) && Recorded(rows, a);
    PostingEffect(rows, after, a.requestId, entryType, a.budgetIds, target - a.estimate);
    AccountsAfterSettling(rows, after, book, i, a');
    UnrecordedAfterSettling(rows, after, book, i, a');
    forall b
      ensures LatestTotal(after, b) == BookTotal(book', b)
    {
      TotalUpdate(book, i, a', b);
    }
  }

  lemma UnrecordedAfterSettling(rows: seq<Row>, after: seq<Row>, book: Book, i: nat, a': Account)
    requires i < |book| && a'.requestId == book[i].requestId
    requires forall r :: Find(book, r) == |book| ==> Unrecorded(rows, r)
    requires forall r, t :: r != book[i].requestId ==> EntriesOf(after, r, t) == EntriesOf(rows, r, t)
    ensures var book' := book[i := a']; forall r :: Find(book', r) == |book'| ==> Unrecorded(after, r)
  {
    var book' := book[i := a'];
    forall r | Find(book', r) == |book'|
      ensures Unrecorded(after, r)
    {
      FindAfterUpdate(book, i, a', r);
      assert r != book[i].requestId;
      assert Unrecorded(rows, r);
    }
  }

  lemma AccountsAfterSettling(rows: seq<Row>, after: seq<Row>, book: Book, i: nat, a': Account)
    requires WellFormed(book) && i < |book|
    requires forall j :: 0 <= j < |book| ==> Recorded(rows, book[j])
    requires forall r, t :: r != book[i].requestId ==> EntriesOf(after, r, t) == EntriesOf(rows, r, t)
    requires a'.requestId == book[i].requestId && Recorded(after, a') && Sound(a')
    ensures WellFormed(book[i := a'])
    ensures var book' := book[i := a']; forall j :: 0 <= j < |book'| ==> Recorded(after, book'[j])
  {
    var book' := book[i := a'];
    forall j | 0 <= j < |book'|
      ensures Recorded(after, book'[j])
    {
      assert Recorded(rows, book[j]);
      assert j != i ==> book[j].requestId != book[i].requestId;
    }
  }

  // ---------------------------------------------------------------- whole runs

  ghost predicate DistinctOps(ops: seq<Op>) {
    forall i :: 0 <= i < |ops| ==> DistinctOp(ops[i])
  }

  /** A reservation names each budget once, as a primary-keyed budget table guarantees. */
  ghost predicate DistinctOp(op: Op) {
    op.ReserveOp? ==> Distinct(BudgetIds(op.budgets))
  }

  ghost function BookRun(book: Book, ops: seq<Op>): Book
    decreases |ops|
  {
    if ops == [] then book else BookRun(BookApply(book, ops[0]), ops[1..])
  }

  lemma ApplyRefines(rows: seq<Row>, book: Book, op: Op)
    requires Refines(rows, book) && DistinctOp(op)
    ensures Refines(Apply(rows, op).0, BookApply(book, op))
  {
    if op.ReserveOp? {
      ReserveRefines(rows, book, op);
    } else {
      SettleRefines(rows, book, op);
    }
  }

  /** The row ledger refines the book over every run of calls. */
  lemma {:induction false} RunRefines(rows: seq<Row>, book: Book, ops: seq<Op>)
    requires Refines(rows, book) && DistinctOps(ops)
    ensures Refines(Run(rows, ops), BookRun(book, ops))
    decreases |ops|
  {
    if ops != [] {
      assert DistinctOp(ops[0]);
      ApplyRefines(rows, book, ops[0]);
      RunRefines(Apply(rows, ops[0]).0, BookApply(book, ops[0]), ops[1..]);
    }
  }

  lemma EmptyLedgerRefines()
    ensures Refines([], [])
  {
  }

  /** Over every run from the empty ledger, each budget's latest total is the sum of the estimates of
      its open requests and the actual costs of its reconciled ones; released requests count zero. */
  lemma TotalsDecompose(ops: seq<Op>, budgetId: int)
    requires DistinctOps(ops)
    ensures Refines(Run([], ops), BookRun([], ops))
    ensures LatestTotal(Run([], ops), budgetId) == BookTotal(BookRun([], ops), budgetId)
  {
    EmptyLedgerRefines();
    RunRefines([], [], ops);
  }

  // ---------------------------------------------------------------- the guard bound

  /** How far a budget's reconciled requests went over their estimates. */
  function Overshoot(book: Book, budgetId: int): int {
    if book == [] then 0
    else
      var last := book[|book| - 1];
      Overshoot(book[..|book| - 1], budgetId)
      + if last.status.Charged? && budgetId in last.budgetIds then Max(0, last.status.actual - last.estimate) else 0
  }

  function Max(a: int, b: int): int {
    if a >= b then a else b
  }

  /** Every reservation enforces limits, and any that names the budget carries this same limit. */
  ghost predicate GuardedBy(op: Op, budgetId: int, limit: Money) {
    op.ReserveOp? ==>
      && op.enforce
      && forall i :: 0 <= i < |op.budgets| && op.budgets[i].id == budgetId ==> op.budgets[i].hardLimit == Some(limit)
  }

  ghost predicate WithinBound(book: Book, budgetId: int, limit: Money) {
    0 <= BookTotal(book, budgetId) <= Max(0, limit) + Overshoot(book, budgetId)
  }

  lemma {:induction false} OvershootUpdate(book: Book, i: nat, a: Account, budgetId: int)
    requires i < |book| && book[i].status.Open?
    ensures Overshoot(book[i := a], budgetId)
         == Overshoot(book, budgetId)
            + if a.status.Charged? && budgetId in a.budgetIds then Max(0, a.status.actual - a.estimate) else 0
  {
    var n := |book| - 1;
    if i == n {
      assert book[i := a][..n] == book[..n];
    } else {
      assert book[i := a][..n] == book[..n][i := a];
      OvershootUpdate(book[..n], i, a, budgetId);
    }
  }

  lemma BoundKept(book: Book, op: Op, budgetId: int, limit: Money)
    requires WellFormed(book) && WellFormed(BookApply(book, op))
    requires GuardedBy(op, budgetId, limit) && WithinBound(book, budgetId, limit)
    requires 0 <= Overshoot(book, budgetId)
    ensures WithinBound(BookApply(book, op), budgetId, limit) && 0 <= Overshoot(BookApply(book, op), budgetId)
  {
    TotalIsNonNegative(BookApply(book, op), budgetId);
    if op.ReserveOp? {
      if CanReserve(book, op.requestId, op.budgets, op.cost, op.enforce) {
        OpeningIsAffordable(book, op, budgetId, limit);
      }
    } else if BookApply(book, op) != book {
      var i := Find(book, op.requestId);
      var a' := BookApply(book, op)[i];
      TotalUpdate(book, i, a', budgetId);
      OvershootUpdate(book, i, a', budgetId);
    }
  }

  lemma OpeningIsAffordable(book: Book, op: Op, budgetId: int, limit: Money)
    requires op.ReserveOp? && GuardedBy(op, budgetId, limit)
    requires CanReserve(book, op.requestId, op.budgets, op.cost, op.enforce)
    ensures var book' := BookApply(book, op);
            && Overshoot(book', budgetId) == Overshoot(book, budgetId)
            && (BookTotal(book', budgetId) <= limit || BookTotal(book', budgetId) == BookTotal(book, budgetId))
  {
    var ids := BudgetIds(op.budgets);
    assert BookApply(book, op)[..|book|] == book;
    if budgetId in ids {
      var k :| 0 <= k < |ids| && ids[k] == budgetId;
      assert op.budgets[k].hardLimit == Some(limit);
    }
  }

  lemma {:induction false} BoundOverRun(rows: seq<Row>, book: Book, ops: seq<Op>, budgetId: int, limit: Money)
    requires Refines(rows, book) && DistinctOps(ops)
    requires forall i :: 0 <= i < |ops| ==> GuardedBy(ops[i], budgetId, limit)
    requires WithinBound(book, budgetId, limit) && 0 <= Overshoot(book, budgetId)
    ensures WithinBound(BookRun(book, ops), budgetId, limit)
    decreases |ops|
  {
    if ops != [] {
      assert DistinctOp(ops[0]) && GuardedBy(ops[0], budgetId, limit);
      ApplyRefines(rows, book, ops[0]);
      BoundKept(book, ops[0], budgetId, limit);
      BoundOverRun(Apply(rows, ops[0]).0, BookApply(book, ops[0]), ops[1..], budgetId, limit);
    }
  }

  /** With a fixed hard limit and guard-mode reservations only, the budget's total is never negative
      and exceeds the limit, or zero when the limit is negative, by at most what reconciled requests
      exceeded their own estimates. Any prefix of a run is a run, so this holds at every point. */
  lemma GuardBoundsTheTotal(ops: seq<Op>, budgetId: int, limit: Money)
    requires DistinctOps(ops)
    requires forall i :: 0 <= i < |ops| ==> GuardedBy(ops[i], budgetId, limit)
    ensures 0 <= LatestTotal(Run([], ops), budgetId) <= Max(0, limit) + Overshoot(BookRun([], ops), budgetId)
  {
    EmptyLedgerRefines();
    RunRefines([], [], ops);
    BoundOverRun([], [], ops, budgetId, limit);
  }

  lemma {:induction false} NoOvershoot(book: Book, budgetId: int)
    requires forall i :: 0 <= i < |book| && book[i].status.Charged? ==> book[i].status.actual <= book[i].estimate
    ensures Overshoot(book, budgetId) == 0
  {
    if book != [] {
      NoOvershoot(book[..|book| - 1], budgetId);
    }
  }

  /** When no request costs more than its estimate, the limit is never exceeded. */
  lemma GuardNeverExceedsTheLimit(ops: seq<Op>, budgetId: int, limit: Money)
    requires DistinctOps(ops) && limit >= 0
    requires forall i :: 0 <= i < |ops| ==> GuardedBy(ops[i], budgetId, limit)
    requires forall a :: a in BookRun([], ops) && a.status.Charged? ==> a.status.actual <= a.estimate
    ensures 0 <= LatestTotal(Run([], ops), budgetId) <= limit
  {
    GuardBoundsTheTotal(ops, budgetId, limit);
    NoOvershoot(BookRun([], ops), budgetId);
  }

  /** A release of an open request never overflows, so a failed dispatch always gives its money back. */
  lemma ReleaseAlwaysSucceeds(ops: seq<Op>, requestId: string)
    requires DistinctOps(ops)
    requires var book := BookRun([], ops); var i := Find(book, requestId); i < |book| && book[i].status.Open?
    ensures var rows := Run([], ops);
            var (after, r) := SettleStep(rows, requestId, Release, 0);
            r.Ok? && Refines(after, BookApply(BookRun([], ops), ReleaseOp(requestId)))
  {
    var rows, book := Run([], ops), BookRun([], ops);
    EmptyLedgerRefines();
    RunRefines([], [], ops);
    OpenCanRelease(rows, book, requestId);
    OpenSettleRefines(rows, book, ReleaseOp(requestId));
  }

  lemma OpenCanRelease(rows: seq<Row>, book: Book, requestId: string)
    requires Refines(rows, book)
    requires var i := Find(book, requestId); i < |book| && book[i].status.Open?
    ensures CanSettle(book, requestId, 0)
  {
    var i := Find(book, requestId);
    var a := book[i];
    assert Sound(a);
    forall k | 0 <= k < |a.budgetIds|
      ensures InI64(BookTotal(book, a.budgetIds[k]) + (0 - a.estimate))
    {
      var b := a.budgetIds[k];
      TotalCovers(book, i, b);
      assert InI64(LatestTotal(rows, b));
    }
  }
}
