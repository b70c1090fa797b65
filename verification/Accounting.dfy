/**
 The handlers composed with the ledger and with what providers really bill: an exact account of every
 run, and from it the claim that the gateway never under-accounts.
 */
module Accounting {
  import opened Billing
  import opened Ledger
  import opened Saga
  import Upstream

  // ---------------------------------------------------------------- calls as they really were

  /** A call's plan, what the gateway saw of it, and what the provider billed. */
  datatype Call = Call(plan: Plan, seen: Evidence, bill: int)

  predicate ProvenUnbilled(seen: Evidence) {
    match seen
    case NeverCalled => true
    case Chat(Failure(exposure)) => exposure == DefinitelyUnbilled
    case Synchronous(_, _, Error(unbilled)) => unbilled
    case _ => false
  }

  /** The final price the provider itself reported, when it reported one. */
  function Reported(plan: Plan, seen: Evidence): Option<int> {
    match seen
    case Chat(Answered(Streaming(lines, _, _))) =>
      var n := Shown(lines, 0);
      if n > 0 && lines[n - 1].done then PriceOf(plan, Accumulate(Usages(lines, n))) else None
    case Chat(Answered(Whole(readable, client, usage))) =>
      if readable && client.Some? then PriceOf(plan, usage) else None
    case Synchronous(unit, units, Done) =>
      var cost := UnitCost(plan, unit, units);
      if cost.Ok? then Some(cost.value) else None
    case _ => None
  }

  function PriceOf(plan: Plan, usage: Usage): Option<int> {
    if Cost(plan, usage).Priced? then Some(Cost(plan, usage).cost) else None
  }

  /** The provider bills nothing for a call it refused, and no more than it reported. */
  predicate Honest(c: Call) {
    && c.bill >= 0
    && (ProvenUnbilled(c.seen) ==> c.bill == 0)
    && (Reported(c.plan, c.seen).Some? ==> c.bill <= Reported(c.plan, c.seen).value)
  }

  /** Honest, and within the quote. */
  predicate Truthful(c: Call) { Honest(c) && c.bill <= c.plan.reservedPUSD }

  predicate Covers(plan: Plan, how: Closing, bill: int) {
    match how
    case Charged(actual) => bill <= actual
    case GivenBack => bill == 0
    case Abandoned => bill <= plan.reservedPUSD
  }

  /** A call whose provider may have been reached is refunded only on proof, a panic apart. */
  lemma RefundOnlyOnProof(plan: Plan, seen: Evidence)
    ensures CloseOut(plan, seen) == GivenBack <==> ProvenUnbilled(seen) || seen == Chat(Panicked)
    ensures CloseOut(plan, seen).Charged? && CloseOut(plan, seen).actual != plan.reservedPUSD
            ==> Reported(plan, seen) == Some(CloseOut(plan, seen).actual)
  {
  }

  /**
   The close-out of a truthful call covers its bill in every case but one: a panic inside the call,
   which the deferred rollback refunds without proof.
   */
  lemma CloseOutCoversUnlessPanic(c: Call)
    requires Truthful(c)
    ensures Covers(c.plan, CloseOut(c.plan, c.seen), c.bill) <==> !(c.seen == Chat(Panicked) && c.bill > 0)
  {
    RefundOnlyOnProof(c.plan, c.seen);
  }

  /**
   A failed upstream call is truthful as soon as the provider bills nothing for what it refuses and no
   single attempt above the quote: failover cannot hide a second charge behind one reservation.
   */
  lemma FailedCallIsTruthful(plan: Plan, tries: seq<Upstream.Try>, gone: seq<bool>, made: nat,
                             r: Upstream.CallResult, recorded: Upstream.Recorded, bills: seq<int>)
    requires Upstream.Concludes(tries, gone, made, r, recorded) && |bills| == made && r.CallFailure?
    requires forall k :: 0 <= k < made && k < |tries| ==>
      0 <= bills[k] <= plan.reservedPUSD && (Upstream.Refused(tries[k].reply) ==> bills[k] == 0)
    ensures Truthful(Call(plan, Chat(Failure(r.exposure)), Upstream.Sum(bills)))
  {
    Upstream.AttemptsCostAtMostOne(tries, gone, made, r, recorded, bills, plan.reservedPUSD);
  }

  // ---------------------------------------------------------------- runs of the gateway

  /** The step reserves a real call's quote, or closes a row the way its handler does or as an orphan. */
  ghost predicate Handled(s: State, op: Op, world: string -> Call) {
    match op
    case ReserveOp(row, _) => row.reserved == world(row.id).plan.reservedPUSD
    case CloseOp(at, how) =>
      at < |s.ledger| ==>
        how == Abandoned || how == CloseOut(world(s.ledger[at].id).plan, world(s.ledger[at].id).seen)
    case ResetOp(_) => true
  }

  ghost predicate HandledAt(ops: seq<Op>, states: seq<State>, k: nat, world: string -> Call)
    requires |states| == |ops| + 1 && k < |ops|
  {
    Handled(states[k], ops[k], world)
  }

  /** Any interleaving of handlers' transactions, orphan scans and resets; a crashed handler just never closes. */
  ghost predicate GatewayRun(ops: seq<Op>, states: seq<State>, world: string -> Call) {
    IsRun(ops, states) && forall k :: 0 <= k < |ops| ==> HandledAt(ops, states, k, world)
  }

  /** The row carries its call's quote, and ended as its handler ends it or as an orphan. */
  predicate FollowsCall(row: Row, c: Call) {
    && row.reserved == c.plan.reservedPUSD
    && match row.state
       case Open => row.charged == None
       case Settled => row.charged.Some? && CloseOut(c.plan, c.seen) == Charged(row.charged.value)
       case RolledBack => row.charged == Some(0) && CloseOut(c.plan, c.seen) == GivenBack
       case Orphaned => row.charged == Some(row.reserved)
  }

  ghost predicate RowsFollow(rows: seq<Row>, world: string -> Call) {
    forall i :: 0 <= i < |rows| ==> FollowsCall(rows[i], world(rows[i].id))
  }

  lemma StepFollows(s: State, op: Op, s': State, world: string -> Call)
    requires Step(s, op, s') && Handled(s, op, world) && RowsFollow(s.ledger, world)
    ensures RowsFollow(s'.ledger, world)
  {
    if op.CloseOp? {
      assert FollowsCall(s.ledger[op.at], world(s.ledger[op.at].id));
    }
  }

  lemma {:induction false} RunFollows(ops: seq<Op>, states: seq<State>, n: nat, world: string -> Call)
    requires GatewayRun(ops, states, world) && n <= |ops|
    ensures RowsFollow(states[n].ledger, world)
  {
    if n > 0 {
      RunFollows(ops, states, n - 1, world);
      assert StepAt(ops, states, n - 1) && HandledAt(ops, states, n - 1, world);
      StepFollows(states[n - 1], ops[n - 1], states[n], world);
    }
  }

  // ---------------------------------------------------------------- what a row falls short by

  /**
   What the row misses of its bill, from its state and the call: a refunded panic misses the whole
   bill; a row settled at the reported price misses nothing; any other row holds just its quote.
   */
  function Loss(row: Row, c: Call): int {
    match row.state
    case RolledBack => if c.seen == Chat(Panicked) then c.bill else 0
    case Settled => if Reported(c.plan, c.seen) == row.charged then 0 else Max0(c.bill - row.reserved)
    case _ => Max0(c.bill - row.reserved)
  }

  /** For an honest call that is exactly the part of the bill the row does not hold. */
  lemma LossIsExact(row: Row, c: Call)
    requires FollowsCall(row, c) && Honest(c)
    ensures Loss(row, c) == Max0(c.bill - Spent(row))
  {
    RefundOnlyOnProof(c.plan, c.seen);
  }

  /** A truthful call's row falls short exactly when it was rolled back after a billed panic. */
  lemma RowHoldsBillUnlessPanic(row: Row, c: Call)
    requires FollowsCall(row, c) && Truthful(c)
    ensures c.bill <= Spent(row) <==> !(row.state == RolledBack && c.seen == Chat(Panicked) && c.bill > 0)
    ensures Loss(row, c) == PanicLoss(row, c)
  {
    LossIsExact(row, c);
  }

  function PanicLoss(row: Row, c: Call): int {
    if row.state == RolledBack && c.seen == Chat(Panicked) then c.bill else 0
  }

  // ---------------------------------------------------------------- sums under one aggregate key

  /** What the provider really billed for the rows a balance covers. */
  function Bills(rows: seq<Row>, world: string -> Call, key: RowKey): int {
    if |rows| == 0 then 0
    else
      var last := rows[|rows| - 1];
      Bills(rows[..|rows| - 1], world, key) + if Touches(last, key) then world(last.id).bill else 0
  }

  function Losses(rows: seq<Row>, world: string -> Call, key: RowKey): int {
    if |rows| == 0 then 0
    else
      var last := rows[|rows| - 1];
      Losses(rows[..|rows| - 1], world, key) + if Touches(last, key) then Loss(last, world(last.id)) else 0
  }

  function PanicLosses(rows: seq<Row>, world: string -> Call, key: RowKey): int {
    if |rows| == 0 then 0
    else
      var last := rows[|rows| - 1];
      PanicLosses(rows[..|rows| - 1], world, key) + if Touches(last, key) then PanicLoss(last, world(last.id)) else 0
  }

  /** What the rows hold beyond their bills. */
  function Overcharges(rows: seq<Row>, world: string -> Call, key: RowKey): int {
    if |rows| == 0 then 0
    else
      var last := rows[|rows| - 1];
      Overcharges(rows[..|rows| - 1], world, key) +
      if Touches(last, key) then Max0(Spent(last) - world(last.id).bill) else 0
  }

  ghost predicate AllHonest(rows: seq<Row>, world: string -> Call) {
    forall i :: 0 <= i < |rows| ==> Honest(world(rows[i].id))
  }

  ghost predicate AllTruthful(rows: seq<Row>, world: string -> Call) {
    forall i :: 0 <= i < |rows| ==> Truthful(world(rows[i].id))
  }

  lemma {:induction false} RowsBalance(rows: seq<Row>, world: string -> Call, key: RowKey)
    requires IsSpendKey(key) && RowsFollow(rows, world) && AllHonest(rows, world)
    ensures Tally(rows, 0, key, Amount) + Losses(rows, world, key)
         == Bills(rows, world, key) + Overcharges(rows, world, key)
    ensures Overcharges(rows, world, key) >= 0
  {
    if |rows| != 0 {
      var last := rows[|rows| - 1];
      RowsBalance(rows[..|rows| - 1], world, key);
      assert FollowsCall(last, world(last.id)) && Honest(world(last.id));
      LossIsExact(last, world(last.id));
    }
  }

  lemma {:induction false} OnlyPanicsLose(rows: seq<Row>, world: string -> Call, key: RowKey)
    requires RowsFollow(rows, world) && AllTruthful(rows, world)
    ensures Losses(rows, world, key) == PanicLosses(rows, world, key)
  {
    if |rows| != 0 {
      var last := rows[|rows| - 1];
      OnlyPanicsLose(rows[..|rows| - 1], world, key);
      assert FollowsCall(last, world(last.id)) && Truthful(world(last.id));
      RowHoldsBillUnlessPanic(last, world(last.id));
    }
  }

  lemma {:induction false} NoPanicNoLoss(rows: seq<Row>, world: string -> Call, key: RowKey)
    requires forall i :: 0 <= i < |rows| ==> PanicLoss(rows[i], world(rows[i].id)) == 0
    ensures PanicLosses(rows, world, key) == 0
  {
    if |rows| != 0 { NoPanicNoLoss(rows[..|rows| - 1], world, key); }
  }

  // ---------------------------------------------------------------- the account of every run

  /**
   The books of every run with honest providers balance exactly: what a spend balance holds plus what
   its rows fall short by is what was billed plus what was over-charged. So a balance under-accounts
   exactly when its losses exceed its over-charges.
   */
  lemma EveryRunAccounts(ops: seq<Op>, states: seq<State>, n: nat, world: string -> Call, key: RowKey)
    requires GatewayRun(ops, states, world) && n <= |ops| && IsSpendKey(key) && AllHonest(states[n].ledger, world)
    ensures var rows, held := states[n].ledger, Balance(states[n], key, Amount);
            && held + Losses(rows, world, key) == Bills(rows, world, key) + Overcharges(rows, world, key)
            && (held < Bills(rows, world, key) <==> Overcharges(rows, world, key) < Losses(rows, world, key))
  {
    RunFollows(ops, states, n, world);
    RowsBalance(states[n].ledger, world, key);
    EveryRunConserves(ops, states, n);
    assert Balance(states[n], key, Amount) == Tally(states[n].ledger, Start(states[n], key), key, Amount);
  }

  /** In every run each row of a truthful call holds its bill, unless it was rolled back after a billed panic. */
  lemma EveryRowHoldsItsBillUnlessPanic(ops: seq<Op>, states: seq<State>, n: nat, world: string -> Call, i: nat)
    requires GatewayRun(ops, states, world) && n <= |ops| && i < |states[n].ledger|
    requires Truthful(world(states[n].ledger[i].id))
    ensures var row := states[n].ledger[i];
            var c := world(row.id);
            c.bill <= Spent(row) <==> !(row.state == RolledBack && c.seen == Chat(Panicked) && c.bill > 0)
  {
    RunFollows(ops, states, n, world);
    var row := states[n].ledger[i];
    assert FollowsCall(row, world(row.id));
    RowHoldsBillUnlessPanic(row, world(row.id));
  }

  /** With truthful calls the only losses are refunded panics, so a balance is short of its bills by at most those. */
  lemma OnlyPanicsUnderAccount(ops: seq<Op>, states: seq<State>, n: nat, world: string -> Call, key: RowKey)
    requires GatewayRun(ops, states, world) && n <= |ops| && IsSpendKey(key) && AllTruthful(states[n].ledger, world)
    ensures Balance(states[n], key, Amount) + PanicLosses(states[n].ledger, world, key)
         == Bills(states[n].ledger, world, key) + Overcharges(states[n].ledger, world, key)
    ensures Bills(states[n].ledger, world, key)
         <= Balance(states[n], key, Amount) + PanicLosses(states[n].ledger, world, key)
  {
    RunFollows(ops, states, n, world);
    EveryRunAccounts(ops, states, n, world, key);
    RowsBalance(states[n].ledger, world, key);
    OnlyPanicsLose(states[n].ledger, world, key);
  }

  /**
   The failure mode is over-charging, never under-accounting: over every interleaving, with handlers
   crashing anywhere and orphans closed late, each spend balance (the month's wallet and the three
   daily ones) is at least what the provider really billed for the calls it covers, when no billed
   call panicked.
   */
  lemma NeverUnderAccounts(ops: seq<Op>, states: seq<State>, n: nat, world: string -> Call, key: RowKey)
    requires GatewayRun(ops, states, world) && n <= |ops| && IsSpendKey(key) && AllTruthful(states[n].ledger, world)
    requires forall i :: 0 <= i < |states[n].ledger| ==>
      PanicLoss(states[n].ledger[i], world(states[n].ledger[i].id)) == 0
    ensures Bills(states[n].ledger, world, key) <= Balance(states[n], key, Amount)
  {
    OnlyPanicsUnderAccount(ops, states, n, world, key);
    NoPanicNoLoss(states[n].ledger, world, key);
  }

  // ---------------------------------------------------------------- a panic does under-account

  /** A truthful call that its close-out does not cover: the chat quote, billed one pico-dollar, in a panic. */
  lemma BilledPanicIsNotCovered()
    ensures var plan := NewPlan(ProviderQwen, Qwen37Plus, InputStandard, QWEN37_INPUT_LIMIT, QWEN37_OUTPUT_LIMIT);
            && plan.Ok? && Built(plan.value)
            && var c := Call(plan.value, Chat(Panicked), 1);
               Truthful(c) && !Covers(c.plan, CloseOut(c.plan, c.seen), c.bill)
  {
    ChatExample();
  }

  /** One reservation of this quote, as the ledger records it. */
  function OneRow(plan: Plan): Row {
    Row("r", "i", plan.provider, plan.model, plan.rateCardId, Period("m", "d"), plan.reservedPUSD, None, Open, false,
        NoCategory, 0, 0)
  }

  function TablesOf(row: Row): map<RowKey, Cols> {
    map[QuotaMonthly(row.install, row.period.month) := Cols(0, 1),
        InstallDaily(row.install, row.period.day) := Cols(row.reserved, 0),
        ProviderDaily(row.provider, row.period.day) := Cols(row.reserved, 1),
        GlobalDaily(row.period.day) := Cols(row.reserved, 1),
        GlobalMonthly(row.period.month) := Cols(row.reserved, 1)]
  }

  lemma TablesHoldTheRow(row: Row, key: RowKey, col: Column)
    requires row.charged == None && row.state == Open && !row.sublimitApplied
    requires row.category == NoCategory && row.units == 0
    ensures Read(TablesOf(row), key, col) == Contribution(row, key, col)
  {
  }

  lemma OneReservation(row: Row, s: State, s': State)
    requires Initial(s) && RowChecks(row) && row.state == Open && !row.sublimitApplied && row.category == NoCategory
    requires s' == State(TablesOf(row), [row], s.windows)
    ensures Step(s, ReserveOp(row, Limits(1, MAX_INT64, 0, 0, 0, 0, 0)), s')
  {
    forall key, col ensures Balance(s', key, col) == Balance(s, key, col) + Contribution(row, key, col) {
      TablesHoldTheRow(row, key, col);
    }
    assert s'.ledger == s.ledger + [row];
    assert Appended(s, s', row);
  }

  lemma OneRefund(row: Row, s: State, s': State)
    requires s == State(TablesOf(row), [row], map[]) && RowChecks(row) && row.state == Open
    requires !row.sublimitApplied && row.category == NoCategory
    requires s' == State(map[], [Close(row, GivenBack)], map[])
    ensures Step(s, CloseOp(0, GivenBack), s')
  {
    var closed := Close(row, GivenBack);
    forall key, col
      ensures Balance(s', key, col)
           == Balance(s, key, col) - Contribution(row, key, col) + Contribution(closed, key, col)
    {
      TablesHoldTheRow(row, key, col);
    }
    assert s'.ledger == s.ledger[0 := closed];
  }

  lemma PanicReserves(plan: Plan, world: string -> Call)
    requires plan.reservedPUSD > 0 && world("r") == Call(plan, Chat(Panicked), 1)
    ensures StepAt(PanicOps(plan), PanicStates(plan), 0) && HandledAt(PanicOps(plan), PanicStates(plan), 0, world)
  {
    OneReservation(OneRow(plan), PanicStates(plan)[0], PanicStates(plan)[1]);
  }

  lemma PanicRefunds(plan: Plan, world: string -> Call)
    requires plan.reservedPUSD > 0 && world("r") == Call(plan, Chat(Panicked), 1)
    ensures StepAt(PanicOps(plan), PanicStates(plan), 1) && HandledAt(PanicOps(plan), PanicStates(plan), 1, world)
  {
    OneRefund(OneRow(plan), PanicStates(plan)[1], PanicStates(plan)[2]);
  }

  lemma PanicRun(plan: Plan, world: string -> Call)
    requires plan.reservedPUSD > 0 && world("r") == Call(plan, Chat(Panicked), 1)
    ensures GatewayRun(PanicOps(plan), PanicStates(plan), world)
  {
    PanicReserves(plan, world);
    PanicRefunds(plan, world);
  }

  function PanicOps(plan: Plan): seq<Op> {
    [ReserveOp(OneRow(plan), Limits(1, MAX_INT64, 0, 0, 0, 0, 0)), CloseOp(0, GivenBack)]
  }

  function PanicStates(plan: Plan): seq<State> {
    var row := OneRow(plan);
    [State(map[], [], map[]), State(TablesOf(row), [row], map[]), State(map[], [Close(row, GivenBack)], map[])]
  }

  /** And a run on which it happens, for any quote: two transactions leave the month's wallet below the real bill. */
  lemma BilledPanicUnderAccounts(plan: Plan)
    returns (ops: seq<Op>, states: seq<State>, world: string -> Call)
    requires Built(plan) && plan.reservedPUSD > 0
    ensures GatewayRun(ops, states, world) && |ops| == 2 && AllTruthful(states[2].ledger, world)
    ensures Balance(states[2], GlobalMonthly("m"), Amount) < Bills(states[2].ledger, world, GlobalMonthly("m"))
  {
    world := (id: string) => Call(plan, Chat(Panicked), 1);
    ops, states := PanicOps(plan), PanicStates(plan);
    PanicRun(plan, world);
    PanicBill(Close(OneRow(plan), GivenBack), world);
  }

  lemma PanicBill(row: Row, world: string -> Call)
    requires row.period.month == "m" && row.state == RolledBack && world(row.id).bill == 1
    ensures Bills([row], world, GlobalMonthly("m")) == 1
  {
    assert [row][..0] == [];
  }
}
