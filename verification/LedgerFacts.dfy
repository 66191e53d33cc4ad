/** What every ledger call keeps, and what holds over every run of calls. */
module LedgerFacts {
  import opened Outcomes
  import opened Amounts
  import opened LedgerModel

  // ---------------------------------------------------------------- chained postings

  ghost predicate PostedAt(after: seq<Row>, i: nat, requestId: string, entryType: EntryType, budgetId: int, amount: int)
    requires i < |after|
  {
    var row := after[i];
    && row.requestId == requestId
    && row.entryType == entryType
    && row.budgetId == budgetId
    && row.amount == amount
    && row.id == NextId(after[..i])
    && row.runningTotal == LatestTotal(after[..i], budgetId) + amount
  }

  /** `after` is `rows` followed by one row of `requestId` per listed budget, each row's total
      built on the row before it. */
  ghost predicate Extends(rows: seq<Row>, after: seq<Row>, requestId: string, entryType: EntryType, ids: seq<int>,
                          amounts: seq<int>)
  {
    && |ids| == |amounts|
    && rows <= after
    && |after| == |rows| + |ids|
    && forall k :: 0 <= k < |ids| ==> PostedAt(after, |rows| + k, requestId, entryType, ids[k], amounts[k])
  }

  lemma ExtendsByInsert(rows: seq<Row>, mid: seq<Row>, after: seq<Row>, requestId: string, entryType: EntryType,
                        budgetId: int, amount: Money, total: Money, ids: seq<int>, amounts: seq<int>)
    requires total == LatestTotal(rows, budgetId) + amount
    requires mid == Insert(rows, requestId, entryType, budgetId, amount, total)
    requires Extends(mid, after, requestId, entryType, ids, amounts)
    ensures Extends(rows, after, requestId, entryType, [budgetId] + ids, [amount] + amounts)
  {
    var allIds, allAmounts := [budgetId] + ids, [amount] + amounts;
    assert after[|rows|] == mid[|rows|];
    assert after[..|rows|] == rows;
    forall k | 0 <= k < |allIds|
      ensures PostedAt(after, |rows| + k, requestId, entryType, allIds[k], allAmounts[k])
    {
      if k > 0 {
        assert PostedAt(after, |mid| + (k - 1), requestId, entryType, ids[k - 1], amounts[k - 1]);
        assert |mid| + (k - 1) == |rows| + k;
      }
    }
  }

  function Copies(n: nat, x: int): (s: seq<int>)
    ensures |s| == n
  {
    seq(n, i => x)
  }

  function Diffs(reserved: seq<Row>, target: Money): (s: seq<int>)
    ensures |s| == |reserved|
  {
    seq(|reserved|, i requires 0 <= i < |reserved| => target - reserved[i].amount)
  }

  function RowBudgets(rows: seq<Row>): (s: seq<int>)
    ensures |s| == |rows|
  {
    seq(|rows|, i requires 0 <= i < |rows| => rows[i].budgetId)
  }

  lemma {:induction false} ReservePosts(rows: seq<Row>, requestId: string, budgets: seq<Budget>, cost: Money,
                                        enforce: bool)
    requires PostReserve(rows, requestId, budgets, cost, enforce).Posted?
    ensures Extends(rows, PostReserve(rows, requestId, budgets, cost, enforce).rows, requestId, Reserve,
                    BudgetIds(budgets), Copies(|budgets|, cost))
    decreases |budgets|
  {
    if budgets != [] {
      var total := LatestTotal(rows, budgets[0].id) + cost;
      var mid := Insert(rows, requestId, Reserve, budgets[0].id, cost, total);
      ReservePosts(mid, requestId, budgets[1..], cost, enforce);
      var after := PostReserve(rows, requestId, budgets, cost, enforce).rows;
      ExtendsByInsert(rows, mid, after, requestId, Reserve, budgets[0].id, cost, total, BudgetIds(budgets[1..]),
                      Copies(|budgets| - 1, cost));
      assert BudgetIds(budgets) == [budgets[0].id] + BudgetIds(budgets[1..]);
      assert Copies(|budgets|, cost) == [cost] + Copies(|budgets| - 1, cost);
    }
  }

  lemma {:induction false} SettlementPosts(rows: seq<Row>, requestId: string, entryType: EntryType,
                                           reserved: seq<Row>, target: Money)
    requires PostSettlement(rows, requestId, entryType, reserved, target).Ok?
    ensures Extends(rows, PostSettlement(rows, requestId, entryType, reserved, target).value, requestId, entryType,
                    RowBudgets(reserved), Diffs(reserved, target))
    decreases |reserved|
  {
    if reserved != [] {
      SettlementStarts(rows, requestId, entryType, reserved, target);
      var diff := target - reserved[0].amount;
      var total := LatestTotal(rows, reserved[0].budgetId) + diff;
      var mid := Insert(rows, requestId, entryType, reserved[0].budgetId, diff, total);
      SettlementPosts(mid, requestId, entryType, reserved[1..], target);
      var after := PostSettlement(mid, requestId, entryType, reserved[1..], target).value;
      ExtendsByInsert(rows, mid, after, requestId, entryType, reserved[0].budgetId, diff, total,
                      RowBudgets(reserved[1..]), Diffs(reserved[1..], target));
      FirstRow(reserved, target);
    } else {
      assert RowBudgets(reserved) == [] && Diffs(reserved, target) == [];
    }
  }

  lemma FirstRow(reserved: seq<Row>, target: Money)
    requires reserved != []
    ensures RowBudgets(reserved) == [reserved[0].budgetId] + RowBudgets(reserved[1..])
    ensures Diffs(reserved, target) == [target - reserved[0].amount] + Diffs(reserved[1..], target)
  {
  }

  lemma SettlementStarts(rows: seq<Row>, requestId: string, entryType: EntryType, reserved: seq<Row>, target: Money)
    requires reserved != [] && PostSettlement(rows, requestId, entryType, reserved, target).Ok?
    ensures var diff := target - reserved[0].amount;
            var b := reserved[0].budgetId;
            && InI64(diff) && InI64(LatestTotal(rows, b) + diff)
            && PostSettlement(rows, requestId, entryType, reserved, target)
               == PostSettlement(Insert(rows, requestId, entryType, b, diff, LatestTotal(rows, b) + diff), requestId,
                                 entryType, reserved[1..], target)
  {
  }

  function OpRequest(op: Op): string {
    op.requestId
  }

  function OpType(op: Op): EntryType {
    match op
    case ReserveOp(_, _, _, _) => Reserve
    case ReconcileOp(_, _) => Reconcile
    case ReleaseOp(_) => Release
  }

  /** Every call appends a chained posting of its own request and type, possibly an empty one. */
  lemma ApplyExtends(rows: seq<Row>, op: Op) returns (ids: seq<int>, amounts: seq<int>)
    ensures Extends(rows, Apply(rows, op).0, OpRequest(op), OpType(op), ids, amounts)
    ensures Apply(rows, op).0 != rows ==>
              && EntriesOf(rows, OpRequest(op), OpType(op)) == []
              && (OpType(op) != Reserve ==> EntriesOf(rows, OpRequest(op), OtherSettlement(OpType(op))) == [])
  {
    ids, amounts := [], [];
    if Apply(rows, op).0 != rows {
      match op
      case ReserveOp(requestId, budgets, cost, enforce) =>
        ReservePosts(rows, requestId, budgets, cost, enforce);
        ids, amounts := BudgetIds(budgets), Copies(|budgets|, cost);
      case ReconcileOp(requestId, actual) =>
        var reserved := EntriesOf(rows, requestId, Reserve);
        SettlementPosts(rows, requestId, Reconcile, reserved, actual);
        ids, amounts := RowBudgets(reserved), Diffs(reserved, actual);
      case ReleaseOp(requestId) =>
        var reserved := EntriesOf(rows, requestId, Reserve);
        SettlementPosts(rows, requestId, Release, reserved, 0);
        ids, amounts := RowBudgets(reserved), Diffs(reserved, 0);
    }
  }

  // ---------------------------------------------------------------- running totals are sums

  ghost function AmountSum(rows: seq<Row>, budgetId: int): int {
    if rows == [] then 0
    else
      AmountSum(rows[..|rows| - 1], budgetId)
      + if rows[|rows| - 1].budgetId == budgetId then rows[|rows| - 1].amount else 0
  }

  /** Each row's cached total is the sum of its budget's amounts up to and including it. */
  ghost predicate TotalsAreSums(rows: seq<Row>) {
    forall i :: 0 <= i < |rows| ==> rows[i].runningTotal == AmountSum(rows[..i + 1], rows[i].budgetId)
  }

  lemma {:induction false} LatestIsSum(rows: seq<Row>, budgetId: int)
    requires TotalsAreSums(rows)
    ensures LatestTotal(rows, budgetId) == AmountSum(rows, budgetId)
  {
    if rows != [] {
      var front := rows[..|rows| - 1];
      assert rows[..|rows|] == rows;
      forall i | 0 <= i < |front|
        ensures front[i].runningTotal == AmountSum(front[..i + 1], front[i].budgetId)
      {
        assert front[..i + 1] == rows[..i + 1];
      }
      LatestIsSum(front, budgetId);
    }
  }

  lemma SumsBySnoc(rows: seq<Row>, row: Row)
    requires TotalsAreSums(rows)
    requires row.runningTotal == LatestTotal(rows, row.budgetId) + row.amount
    ensures TotalsAreSums(rows + [row])
  {
    var now := rows + [row];
    LatestIsSum(rows, row.budgetId);
    assert now[..|rows|] == rows && now[..|rows| + 1] == now;
    forall i | 0 <= i < |now|
      ensures now[i].runningTotal == AmountSum(now[..i + 1], now[i].budgetId)
    {
      if i < |rows| {
        assert now[..i + 1] == rows[..i + 1];
      }
    }
  }

  lemma PostedPrefix(after: seq<Row>, i: nat)
    requires i < |after|
    ensures after[..i + 1] == after[..i] + [after[i]]
  {
  }

  lemma {:induction false} ExtendsKeepsSums(rows: seq<Row>, after: seq<Row>, requestId: string, entryType: EntryType,
                                            ids: seq<int>, amounts: seq<int>, n: nat)
    requires TotalsAreSums(rows)
    requires Extends(rows, after, requestId, entryType, ids, amounts)
    requires n <= |ids|
    ensures TotalsAreSums(after[..|rows| + n])
  {
    if n == 0 {
      assert after[..|rows|] == rows;
    } else {
      var i := |rows| + (n - 1);
      ExtendsKeepsSums(rows, after, requestId, entryType, ids, amounts, n - 1);
      assert PostedAt(after, i, requestId, entryType, ids[n - 1], amounts[n - 1]);
      PostedPrefix(after, i);
      SumsBySnoc(after[..i], after[i]);
    }
  }

  lemma {:induction false} ExtendsKeepsIds(rows: seq<Row>, after: seq<Row>, requestId: string, entryType: EntryType,
                                           ids: seq<int>, amounts: seq<int>, n: nat)
    requires IsNumbered(rows)
    requires Extends(rows, after, requestId, entryType, ids, amounts)
    requires n <= |ids|
    ensures IsNumbered(after[..|rows| + n])
  {
    if n == 0 {
      assert after[..|rows|] == rows;
    } else {
      var i := |rows| + (n - 1);
      ExtendsKeepsIds(rows, after, requestId, entryType, ids, amounts, n - 1);
      assert PostedAt(after, i, requestId, entryType, ids[n - 1], amounts[n - 1]);
      PostedPrefix(after, i);
    }
  }

  lemma {:induction false} RunKeepsSums(rows: seq<Row>, ops: seq<Op>)
    requires TotalsAreSums(rows) && IsNumbered(rows)
    ensures TotalsAreSums(Run(rows, ops)) && IsNumbered(Run(rows, ops))
    ensures rows <= Run(rows, ops)
    decreases |ops|
  {
    if ops != [] {
      ApplyKeepsSums(rows, ops[0]);
      RunKeepsSums(Apply(rows, ops[0]).0, ops[1..]);
    }
  }

  lemma ApplyKeepsSums(rows: seq<Row>, op: Op)
    requires TotalsAreSums(rows) && IsNumbered(rows)
    ensures var after := Apply(rows, op).0;
            TotalsAreSums(after) && IsNumbered(after) && rows <= after
  {
    var ids, amounts := ApplyExtends(rows, op);
    PostingKeepsSums(rows, Apply(rows, op).0, OpRequest(op), OpType(op), ids, amounts);
  }

  lemma PostingKeepsSums(rows: seq<Row>, after: seq<Row>, requestId: string, entryType: EntryType, ids: seq<int>,
                         amounts: seq<int>)
    requires TotalsAreSums(rows) && IsNumbered(rows)
    requires Extends(rows, after, requestId, entryType, ids, amounts)
    ensures TotalsAreSums(after) && IsNumbered(after)
  {
    ExtendsKeepsSums(rows, after, requestId, entryType, ids, amounts, |ids|);
    ExtendsKeepsIds(rows, after, requestId, entryType, ids, amounts, |ids|);
    assert after[..|rows| + |ids|] == after;
  }

  /** Over every run of calls from the empty ledger, whatever the requests, the budgets, and the
      order: each cached running total is the exact sum of its budget's amounts, ids count up from one,
      so the newest row of a budget by position is its newest by id, and its total is the whole sum. */
  lemma RunningTotalsAreSums(ops: seq<Op>, budgetId: int)
    ensures TotalsAreSums(Run([], ops)) && IsNumbered(Run([], ops))
    ensures LatestTotal(Run([], ops), budgetId) == AmountSum(Run([], ops), budgetId)
  {
    RunKeepsSums([], ops);
    LatestIsSum(Run([], ops), budgetId);
  }

  // ---------------------------------------------------------------- rows of one request

  lemma {:induction false} EntriesOfAppend(rows: seq<Row>, extra: seq<Row>, requestId: string, entryType: EntryType)
    ensures EntriesOf(rows + extra, requestId, entryType)
         == EntriesOf(rows, requestId, entryType) + EntriesOf(extra, requestId, entryType)
    decreases |extra|
  {
    if extra == [] {
      assert rows + extra == rows;
    } else {
      var front := extra[..|extra| - 1];
      EntriesOfAppend(rows, front, requestId, entryType);
      assert (rows + extra)[..|rows + extra| - 1] == rows + front;
    }
  }

  lemma {:induction false} EntriesOfUniform(extra: seq<Row>, requestId: string, entryType: EntryType,
                                            requestId': string, entryType': EntryType)
    requires forall i :: 0 <= i < |extra| ==> extra[i].requestId == requestId && extra[i].entryType == entryType
    ensures EntriesOf(extra, requestId', entryType')
         == if requestId == requestId' && entryType == entryType' then extra else []
    decreases |extra|
  {
    if extra != [] {
      EntriesOfUniform(extra[..|extra| - 1], requestId, entryType, requestId', entryType');
      assert extra == extra[..|extra| - 1] + [extra[|extra| - 1]];
    }
  }

  /** A posting adds exactly its own rows to its own request and type, and touches no other. */
  lemma ExtendsEntries(rows: seq<Row>, after: seq<Row>, requestId: string, entryType: EntryType, ids: seq<int>,
                       amounts: seq<int>, requestId': string, entryType': EntryType)
    requires Extends(rows, after, requestId, entryType, ids, amounts)
    ensures EntriesOf(after, requestId', entryType')
         == EntriesOf(rows, requestId', entryType')
            + if requestId == requestId' && entryType == entryType' then after[|rows|..] else []
  {
    var extra := after[|rows|..];
    assert after == rows + extra;
    forall i | 0 <= i < |extra|
      ensures extra[i].requestId == requestId && extra[i].entryType == entryType
    {
      assert PostedAt(after, |rows| + i, requestId, entryType, ids[i], amounts[i]);
    }
    EntriesOfAppend(rows, extra, requestId', entryType');
    EntriesOfUniform(extra, requestId, entryType, requestId', entryType');
  }

  // ---------------------------------------------------------------- exclusive and permanent settlement

  /** No request has both reconcile and release rows. */
  ghost predicate Exclusive(rows: seq<Row>) {
    forall r :: EntriesOf(rows, r, Reconcile) == [] || EntriesOf(rows, r, Release) == []
  }

  lemma ApplyKeepsExclusive(rows: seq<Row>, op: Op)
    requires Exclusive(rows)
    ensures Exclusive(Apply(rows, op).0)
  {
    var after := Apply(rows, op).0;
    var ids, amounts := ApplyExtends(rows, op);
    forall r
      ensures EntriesOf(after, r, Reconcile) == [] || EntriesOf(after, r, Release) == []
    {
      ExtendsEntries(rows, after, OpRequest(op), OpType(op), ids, amounts, r, Reconcile);
      ExtendsEntries(rows, after, OpRequest(op), OpType(op), ids, amounts, r, Release);
    }
  }

  lemma {:induction false} RunKeepsExclusive(rows: seq<Row>, ops: seq<Op>)
    requires Exclusive(rows)
    ensures Exclusive(Run(rows, ops))
    decreases |ops|
  {
    if ops != [] {
      ApplyKeepsExclusive(rows, ops[0]);
      RunKeepsExclusive(Apply(rows, ops[0]).0, ops[1..]);
    }
  }

  /** Once a request has rows of a type, no later call adds or removes any. */
  lemma {:induction false} EntriesAreFrozen(rows: seq<Row>, ops: seq<Op>, requestId: string, entryType: EntryType)
    requires EntriesOf(rows, requestId, entryType) != []
    ensures EntriesOf(Run(rows, ops), requestId, entryType) == EntriesOf(rows, requestId, entryType)
    decreases |ops|
  {
    if ops != [] {
      var after := Apply(rows, ops[0]).0;
      var ids, amounts := ApplyExtends(rows, ops[0]);
      ExtendsEntries(rows, after, OpRequest(ops[0]), OpType(ops[0]), ids, amounts, requestId, entryType);
      assert after[|rows|..] == [] || after != rows;
      EntriesAreFrozen(after, ops[1..], requestId, entryType);
    }
  }

  lemma SettledRowsAreTheReply(rows: seq<Row>, settle: Op)
    requires !settle.ReserveOp? && Apply(rows, settle).1.ids.Ok?
    ensures var (after, reply) := Apply(rows, settle);
            var entries := EntriesOf(after, OpRequest(settle), OpType(settle));
            entries != [] && reply.ids.value == Ids(entries)
  {
    var after := Apply(rows, settle).0;
    if EntriesOf(rows, OpRequest(settle), OpType(settle)) == [] {
      var reserved := EntriesOf(rows, OpRequest(settle), Reserve);
      var target := if settle.ReconcileOp? then settle.actual else 0;
      SettlementPosts(rows, OpRequest(settle), OpType(settle), reserved, target);
      ExtendsEntries(rows, after, OpRequest(settle), OpType(settle), RowBudgets(reserved), Diffs(reserved, target),
                     OpRequest(settle), OpType(settle));
      assert [] + after[|rows|..] == after[|rows|..];
    }
  }

  /** After a call settles a request, and after any further calls by anyone: settling it the same
      way again, at whatever cost, answers the same ids and changes nothing; settling it the other
      way is refused and changes nothing. */
  lemma SettlementIsFinal(prior: seq<Op>, settle: Op, later: seq<Op>, again: Op)
    requires !settle.ReserveOp? && Apply(Run([], prior), settle).1.ids.Ok?
    requires !again.ReserveOp? && OpRequest(again) == OpRequest(settle)
    requires again.ReconcileOp? ==> again.actual >= 0
    ensures var (after, reply) := Apply(Run([], prior), settle);
            var final := Run(after, later);
            Apply(final, again)
            == (final,
                if OpType(again) == OpType(settle) then reply
                else Settled(Err(if again.ReconcileOp? then ReconcileAfterRelease else ReleaseAfterReconcile)))
  {
    var rows := Run([], prior);
    var after := Apply(rows, settle).0;
    var final := Run(after, later);
    SettledRowsAreTheReply(rows, settle);
    EntriesAreFrozen(after, later, OpRequest(settle), OpType(settle));
    RunKeepsExclusive([], prior);
    ApplyKeepsExclusive(rows, settle);
    RunKeepsExclusive(after, later);
    var r := OpRequest(settle);
    assert EntriesOf(final, r, Reconcile) == [] || EntriesOf(final, r, Release) == [];
  }
}
