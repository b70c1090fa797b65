/**
 The spend ledger as a state machine: six aggregate tables, a ledger of reservations, and the
 transactions that move both together. What every run of these transactions keeps is proved here;
 the store that carries them out statement by statement is in QuotaStore.
 */
module Ledger {
  import opened Billing

  datatype Period = Period(month: string, day: string)

  datatype RowState = Open | Settled | RolledBack | Orphaned

  datatype Category = NoCategory | CategoryImage | CategorySpeech | CategoryVideo | CategoryVoice

  /** One row of spend_ledger; charged is NULL while the row is open. */
  datatype Row = Row(id: string, install: string, provider: Provider, model: Model, rateCardId: CardId,
                     period: Period, reserved: int, charged: Option<int>, state: RowState,
                     sublimitApplied: bool, category: Category, units: int, createdAt: int)

  /** The table and primary key of an aggregate row. */
  datatype RowKey =
    | QuotaMonthly(install: string, month: string)
    | InstallDaily(install: string, day: string)
    | CategoryDaily(install: string, category: Category, day: string)
    | ProviderDaily(provider: Provider, day: string)
    | GlobalDaily(day: string)
    | GlobalMonthly(month: string)

  /** The counted columns of an aggregate row: spend_pusd (or units, for a category), and requests. */
  datatype Cols = Cols(amount: int, requests: int)

  datatype Column = Amount | Requests

  /** windows[m] is the number of ledger rows there were when month m's request counts were last reset. */
  datatype State = State(tables: map<RowKey, Cols>, ledger: seq<Row>, windows: map<string, nat>)

  predicate Initial(s: State) { |s.tables| == 0 && |s.ledger| == 0 && |s.windows| == 0 }

  /** A missing lazy row reads as zero. */
  function Read(tables: map<RowKey, Cols>, key: RowKey, col: Column): int {
    if key !in tables then 0 else if col == Amount then tables[key].amount else tables[key].requests
  }

  function Balance(s: State, key: RowKey, col: Column): int { Read(s.tables, key, col) }

  // ---------------------------------------------------------------- what a row accounts for

  /** What the row holds against the wallet: the reservation while open, the charge once closed. */
  function Spent(row: Row): int { if row.charged.Some? then row.charged.value else row.reserved }

  /** 1 for a row whose request entitlement was not given back. */
  function Live(row: Row): int { if row.state == RolledBack then 0 else 1 }

  /** The aggregate rows a reservation is counted in. */
  predicate Touches(row: Row, key: RowKey) {
    match key
    case QuotaMonthly(install, month) => row.install == install && row.period.month == month
    case InstallDaily(install, day) => row.install == install && row.period.day == day
    case CategoryDaily(install, category, day) =>
      row.install == install && row.category == category && row.period.day == day
    case ProviderDaily(provider, day) => row.provider == provider && row.period.day == day
    case GlobalDaily(day) => row.period.day == day
    case GlobalMonthly(month) => row.period.month == month
  }

  function Contribution(row: Row, key: RowKey, col: Column): int {
    if !Touches(row, key) then 0
    else if col == Amount then
      if key.QuotaMonthly? then 0
      else if key.CategoryDaily? then (if row.state == RolledBack then 0 else row.units)
      else Spent(row)
    else
      if key.CategoryDaily? then 0
      else if key.InstallDaily? && !row.sublimitApplied then 0
      else Live(row)
  }

  /** What the rows from position `from` on account for under one aggregate column. */
  function Tally(rows: seq<Row>, from: nat, key: RowKey, col: Column): int {
    if |rows| <= from then 0
    else Tally(rows[..|rows| - 1], from, key, col) + Contribution(rows[|rows| - 1], key, col)
  }

  /** Request counts restart at the month's last reset; every other balance covers the whole ledger. */
  function Start(s: State, key: RowKey): nat {
    if key.QuotaMonthly? && key.month in s.windows then s.windows[key.month] else 0
  }

  // ---------------------------------------------------------------- invariant

  /** The schema's column and state checks on one ledger row. */
  predicate RowChecks(row: Row) {
    && |row.id| > 0 && 0 < row.reserved <= MAX_INT64 && 0 <= row.units <= MAX_INT64
    && (row.category == NoCategory ==> row.units == 0)
    && match row.state
       case Open => row.charged == None
       case Settled => row.charged.Some? && row.charged.value >= 0
       case RolledBack => row.charged == Some(0)
       case Orphaned => row.charged == Some(row.reserved)
  }

  ghost predicate WellFormed(s: State) {
    && (forall i :: 0 <= i < |s.ledger| ==> RowChecks(s.ledger[i]))
    && (forall i, j :: 0 <= i < j < |s.ledger| ==> s.ledger[i].id != s.ledger[j].id)
    && (forall m :: m in s.windows ==> s.windows[m] <= |s.ledger|)
    && (forall m, i :: m in s.windows && 0 <= i < s.windows[m] ==> s.ledger[i].state != Open)
  }

  /** Every aggregate balance is the sum of what the ledger rows it covers account for. */
  ghost predicate Conserved(s: State) {
    forall key, col :: Balance(s, key, col) == Tally(s.ledger, Start(s, key), key, col)
  }

  /**
   Balances fit in an int64. The global month's request count has no guard of its own; it is
   bounded by the number of ledger rows.
   */
  function Ceiling(s: State, key: RowKey, col: Column): int {
    if key.GlobalMonthly? && col == Requests then |s.ledger| else MAX_INT64
  }

  ghost predicate InRange(s: State) {
    forall key, col :: 0 <= Balance(s, key, col) <= Ceiling(s, key, col)
  }

  ghost predicate Inv(s: State) {
    WellFormed(s) && Conserved(s) && InRange(s)
  }

  // ---------------------------------------------------------------- transactions

  /** The month's wallet limit; configuration admits only positive ones, so limit minus quote never wraps. */
  type WalletLimit = x: int | 0 <= x <= MAX_INT64

  datatype Limits = Limits(monthlyQuota: Int64, globalMonthlySpend: WalletLimit, dailySublimit: Int64,
                           imageDaily: Int64, speechDaily: Int64, videoDaily: Int64, voiceDaily: Int64)

  datatype Refusal =
    | InvalidPlan
    | MonthlyExhausted
    | SublimitExceeded
    | CategoryDailyExceeded(category: Category)
    | BudgetExceeded
    | CounterFull(key: RowKey)
    | DuplicateRequest

  function CategoryCap(category: Category, lim: Limits): Int64 {
    match category
    case CategoryImage => lim.imageDaily
    case CategorySpeech => lim.speechDaily
    case CategoryVideo => lim.videoDaily
    case CategoryVoice => lim.voiceDaily
    case NoCategory => 0
  }

  predicate CategoryRoom(s: State, row: Row, lim: Limits) {
    var cap := CategoryCap(row.category, lim);
    Balance(s, CategoryDaily(row.install, row.category, row.period.day), Amount) + row.units
    <= if cap > 0 then cap else MAX_INT64
  }

  predicate SpendRoom(s: State, key: RowKey, amount: int) { Balance(s, key, Amount) + amount <= MAX_INT64 }

  predicate FreshId(s: State, id: string) {
    forall i :: 0 <= i < |s.ledger| ==> s.ledger[i].id != id
  }

  /** The row fits the monthly request quota, the category cap and the month's wallet, and no counter overflows. */
  predicate Admits(s: State, row: Row, lim: Limits) {
    var m, d, amount := row.period.month, row.period.day, row.reserved;
    && Balance(s, QuotaMonthly(row.install, m), Requests) < lim.monthlyQuota
    && (row.sublimitApplied ==> Balance(s, InstallDaily(row.install, d), Requests) < lim.dailySublimit)
    && (row.category != NoCategory ==> CategoryRoom(s, row, lim))
    && Balance(s, GlobalMonthly(m), Amount) + amount <= lim.globalMonthlySpend
    && SpendRoom(s, InstallDaily(row.install, d), amount)
    && SpendRoom(s, ProviderDaily(row.provider, d), amount)
    && SpendRoom(s, GlobalDaily(d), amount)
    && Balance(s, ProviderDaily(row.provider, d), Requests) < MAX_INT64
    && Balance(s, GlobalDaily(d), Requests) < MAX_INT64
    && FreshId(s, row.id)
  }

  /** The first gate, in the store's order, that refuses the new row. */
  function Denial(s: State, row: Row, lim: Limits): Option<Refusal> {
    var m, d, amount := row.period.month, row.period.day, row.reserved;
    if Balance(s, QuotaMonthly(row.install, m), Requests) >= lim.monthlyQuota then Some(MonthlyExhausted)
    else if !SpendRoom(s, InstallDaily(row.install, d), amount) then Some(CounterFull(InstallDaily(row.install, d)))
    else if row.sublimitApplied && Balance(s, InstallDaily(row.install, d), Requests) >= lim.dailySublimit
    then Some(SublimitExceeded)
    else if row.category != NoCategory && !CategoryRoom(s, row, lim)
    then Some(if CategoryCap(row.category, lim) > 0 then CategoryDailyExceeded(row.category)
              else CounterFull(CategoryDaily(row.install, row.category, d)))
    else if !SpendRoom(s, ProviderDaily(row.provider, d), amount)
            || Balance(s, ProviderDaily(row.provider, d), Requests) >= MAX_INT64
    then Some(CounterFull(ProviderDaily(row.provider, d)))
    else if !SpendRoom(s, GlobalDaily(d), amount) || Balance(s, GlobalDaily(d), Requests) >= MAX_INT64
    then Some(CounterFull(GlobalDaily(d)))
    else if Balance(s, GlobalMonthly(m), Amount) + amount > lim.globalMonthlySpend then Some(BudgetExceeded)
    else if !FreshId(s, row.id) then Some(DuplicateRequest)
    else None
  }

  /** A reservation is refused exactly when some gate has no room for it. */
  lemma DeniedIffNoRoom(s: State, row: Row, lim: Limits)
    ensures Denial(s, row, lim).None? <==> Admits(s, row, lim)
  {
  }

  /** A transaction that inserts a row and moves every balance by what the row accounts for. */
  ghost predicate Appended(s: State, s': State, row: Row) {
    && s'.ledger == s.ledger + [row]
    && s'.windows == s.windows
    && forall key, col :: Balance(s', key, col) == Balance(s, key, col) + Contribution(row, key, col)
  }

  /** A transaction that rewrites one row and moves every balance by the difference it makes. */
  ghost predicate Rewritten(s: State, s': State, at: nat, row: Row)
    requires at < |s.ledger|
  {
    && s'.ledger == s.ledger[at := row]
    && s'.windows == s.windows
    && forall key, col :: Balance(s', key, col)
         == Balance(s, key, col) - Contribution(s.ledger[at], key, col) + Contribution(row, key, col)
  }

  /** The four balances a charge moves. */
  predicate IsSpendKey(key: RowKey) { !key.QuotaMonthly? && !key.CategoryDaily? }

  /** A charge above the reservation fits in all four balances. */
  predicate TopUpFits(s: State, row: Row, actual: int) {
    var extra := actual - row.reserved;
    extra > 0 ==>
      && SpendRoom(s, InstallDaily(row.install, row.period.day), extra)
      && SpendRoom(s, ProviderDaily(row.provider, row.period.day), extra)
      && SpendRoom(s, GlobalDaily(row.period.day), extra)
      && SpendRoom(s, GlobalMonthly(row.period.month), extra)
  }

  predicate OpenAt(s: State, at: nat) { at < |s.ledger| && s.ledger[at].state == Open }

  /** How an open row ends. */
  datatype Closing = Charged(actual: int) | GivenBack | Abandoned

  function Close(row: Row, how: Closing): Row {
    match how
    case Charged(actual) => row.(state := Settled, charged := Some(actual))
    case GivenBack => row.(state := RolledBack, charged := Some(0))
    case Abandoned => row.(state := Orphaned, charged := Some(row.reserved))
  }

  datatype Op =
    | ReserveOp(row: Row, lim: Limits)
    | CloseOp(at: nat, how: Closing)
    | ResetOp(month: string)

  predicate CanClose(s: State, row: Row, how: Closing) {
    how.Charged? ==> how.actual >= 0 && TopUpFits(s, row, how.actual)
  }

  /** One committed transaction. A refused or lost one leaves the state as it was. */
  ghost predicate Step(s: State, op: Op, s': State) {
    match op
    case ReserveOp(row, lim) =>
      && RowChecks(row) && row.state == Open && row.sublimitApplied == (lim.dailySublimit > 0)
      && Admits(s, row, lim)
      && Appended(s, s', row)
    case CloseOp(at, how) =>
      && OpenAt(s, at) && CanClose(s, s.ledger[at], how)
      && Rewritten(s, s', at, Close(s.ledger[at], how))
    case ResetOp(month) =>
      && (forall i :: 0 <= i < |s.ledger| ==> s.ledger[i].state != Open)
      && s'.ledger == s.ledger
      && s'.windows == s.windows[month := |s.ledger|]
      && forall key, col :: Balance(s', key, col) == if ResetKey(key, month) then 0 else Balance(s, key, col)
  }

  predicate ResetKey(key: RowKey, month: string) { key.QuotaMonthly? && key.month == month }

  // ---------------------------------------------------------------- sums over the ledger

  lemma {:induction false} TallyUpdate(rows: seq<Row>, from: nat, at: nat, row: Row, key: RowKey, col: Column)
    requires from <= at < |rows|
    ensures Tally(rows[at := row], from, key, col)
         == Tally(rows, from, key, col) - Contribution(rows[at], key, col) + Contribution(row, key, col)
  {
    var n := |rows| - 1;
    if at == n {
      assert rows[at := row][..n] == rows[..n];
    } else {
      TallyUpdate(rows[..n], from, at, row, key, col);
      assert rows[at := row][..n] == rows[..n][at := row];
    }
  }

  lemma TallyAppend(rows: seq<Row>, from: nat, row: Row, key: RowKey, col: Column)
    requires from <= |rows|
    ensures Tally(rows + [row], from, key, col) == Tally(rows, from, key, col) + Contribution(row, key, col)
  {
    assert (rows + [row])[..|rows|] == rows;
  }

  lemma {:induction false} TallyUntouched(rows: seq<Row>, from: nat, key: RowKey, col: Column)
    requires forall i :: 0 <= i < |rows| ==> !Touches(rows[i], key)
    ensures Tally(rows, from, key, col) == 0
  {
    if |rows| > from { TallyUntouched(rows[..|rows| - 1], from, key, col); }
  }

  lemma ContributionBounds(row: Row, key: RowKey, col: Column)
    requires RowChecks(row)
    ensures Contribution(row, key, col) >= 0
    ensures col == Requests ==> Contribution(row, key, col) <= 1
  {
  }

  lemma {:induction false} TallyCovers(rows: seq<Row>, from: nat, key: RowKey, col: Column)
    requires forall i :: 0 <= i < |rows| ==> RowChecks(rows[i])
    ensures Tally(rows, from, key, col) >= 0
    ensures col == Requests ==> Tally(rows, from, key, col) <= |rows|
    ensures forall i :: from <= i < |rows| ==> Contribution(rows[i], key, col) <= Tally(rows, from, key, col)
  {
    if |rows| > from {
      var init := rows[..|rows| - 1];
      TallyCovers(init, from, key, col);
      ContributionBounds(rows[|rows| - 1], key, col);
      forall i | from <= i < |rows| ensures Contribution(rows[i], key, col) <= Tally(rows, from, key, col) {
        assert i < |init| ==> init[i] == rows[i];
      }
    }
  }

  /** A balance is never negative, counts at most one request a row, and covers each row it sums. */
  lemma BalanceCovers(s: State, key: RowKey, col: Column)
    requires WellFormed(s) && Conserved(s)
    ensures 0 <= Balance(s, key, col) && (col == Requests ==> Balance(s, key, col) <= |s.ledger|)
    ensures forall i :: Start(s, key) <= i < |s.ledger|
                        ==> Contribution(s.ledger[i], key, col) <= Balance(s, key, col)
  {
    TallyCovers(s.ledger, Start(s, key), key, col);
  }

  // ---------------------------------------------------------------- guards never miss

  lemma OpenRowsAreCounted(s: State, at: nat, key: RowKey)
    requires WellFormed(s) && OpenAt(s, at)
    ensures Start(s, key) <= at
  {
  }

  /**
   For an open row of a conserved state, every balance its reservation moved still holds at least
   what the row accounts for, and the table row is there: no guarded UPDATE that takes back some or
   all of it can miss or underflow.
   */
  lemma GuardsNeverMiss(s: State, at: nat, key: RowKey)
    requires WellFormed(s) && Conserved(s) && OpenAt(s, at)
    ensures forall col :: 0 <= Contribution(s.ledger[at], key, col) <= Balance(s, key, col)
    ensures (exists col :: Contribution(s.ledger[at], key, col) != 0) ==> key in s.tables
  {
    OpenRowsAreCounted(s, at, key);
    forall col ensures 0 <= Contribution(s.ledger[at], key, col) <= Balance(s, key, col) {
      BalanceCovers(s, key, col);
      ContributionBounds(s.ledger[at], key, col);
    }
  }

  // ---------------------------------------------------------------- every step keeps the invariant

  lemma RewriteConserves(s: State, s': State, at: nat, how: Closing)
    requires WellFormed(s) && Conserved(s) && OpenAt(s, at) && CanClose(s, s.ledger[at], how)
    requires Rewritten(s, s', at, Close(s.ledger[at], how))
    ensures WellFormed(s') && Conserved(s')
  {
    var row := Close(s.ledger[at], how);
    forall key, col ensures Balance(s', key, col) == Tally(s'.ledger, Start(s', key), key, col) {
      OpenRowsAreCounted(s, at, key);
      TallyUpdate(s.ledger, Start(s, key), at, row, key, col);
    }
  }

  lemma AppendConserves(s: State, s': State, row: Row)
    requires WellFormed(s) && Conserved(s) && RowChecks(row) && FreshId(s, row.id)
    requires Appended(s, s', row)
    ensures WellFormed(s') && Conserved(s')
  {
    forall key, col ensures Balance(s', key, col) == Tally(s'.ledger, Start(s', key), key, col) {
      TallyAppend(s.ledger, Start(s, key), row, key, col);
    }
  }

  lemma ResetConserves(s: State, s': State, month: string)
    requires WellFormed(s) && Conserved(s) && Step(s, ResetOp(month), s')
    ensures WellFormed(s') && Conserved(s')
  {
    forall key, col ensures Balance(s', key, col) == Tally(s'.ledger, Start(s', key), key, col) {
      assert Balance(s, key, col) == Tally(s.ledger, Start(s, key), key, col);
    }
  }

  function SpendMove(row: Row, how: Closing): int {
    match how
    case Charged(actual) => actual - row.reserved
    case GivenBack => -row.reserved
    case Abandoned => 0
  }

  /** Closing gives back requests and units, or leaves them; it moves only spend, by the charge minus the quote. */
  lemma ClosingMoves(row: Row, how: Closing, key: RowKey, col: Column)
    requires row.state == Open && RowChecks(row)
    ensures col == Requests || !IsSpendKey(key)
            ==> Contribution(Close(row, how), key, col) <= Contribution(row, key, col)
    ensures col == Amount && IsSpendKey(key) && Touches(row, key)
            ==> Contribution(Close(row, how), key, col) == Contribution(row, key, col) + SpendMove(row, how)
    ensures !Touches(row, key) ==> Contribution(Close(row, how), key, col) == Contribution(row, key, col) == 0
  {
  }

  lemma CloseKeepsInv(s: State, s': State, at: nat, how: Closing)
    requires Inv(s) && Step(s, CloseOp(at, how), s')
    ensures Inv(s')
  {
    var row := s.ledger[at];
    RewriteConserves(s, s', at, how);
    forall key, col ensures 0 <= Balance(s', key, col) <= Ceiling(s', key, col) {
      BalanceCovers(s', key, col);
      ClosingMoves(row, how, key, col);
    }
  }

  lemma AdmittedFits(s: State, row: Row, lim: Limits, key: RowKey, col: Column)
    requires Admits(s, row, lim) && RowChecks(row) && row.state == Open
    requires Balance(s, key, col) <= MAX_INT64 && !(key.GlobalMonthly? && col == Requests)
    ensures Balance(s, key, col) + Contribution(row, key, col) <= MAX_INT64
  {
  }

  lemma AppendKeepsInv(s: State, s': State, row: Row, lim: Limits)
    requires Inv(s) && Step(s, ReserveOp(row, lim), s')
    ensures Inv(s')
  {
    AppendConserves(s, s', row);
    forall key, col ensures 0 <= Balance(s', key, col) <= Ceiling(s', key, col) {
      BalanceCovers(s', key, col);
      if !(key.GlobalMonthly? && col == Requests) {
        AdmittedFits(s, row, lim, key, col);
      }
    }
  }

  /** Every transaction keeps the ledger conserved, well formed and in range. */
  lemma StepKeepsInv(s: State, op: Op, s': State)
    requires Inv(s) && Step(s, op, s')
    ensures Inv(s')
  {
    match op
    case ReserveOp(row, lim) => AppendKeepsInv(s, s', row, lim);
    case CloseOp(at, how) => CloseKeepsInv(s, s', at, how);
    case ResetOp(month) =>
      ResetConserves(s, s', month);
      forall key, col ensures 0 <= Balance(s', key, col) <= Ceiling(s', key, col) {
        assert 0 <= Balance(s, key, col) <= Ceiling(s, key, col);
      }
  }

  // ---------------------------------------------------------------- whole runs

  ghost predicate StepAt(ops: seq<Op>, states: seq<State>, k: nat)
    requires |states| == |ops| + 1 && k < |ops|
  {
    Step(states[k], ops[k], states[k + 1])
  }

  /** Any interleaving of committed transactions from the empty store. */
  ghost predicate IsRun(ops: seq<Op>, states: seq<State>) {
    && |states| == |ops| + 1
    && Initial(states[0])
    && forall k :: 0 <= k < |ops| ==> StepAt(ops, states, k)
  }

  lemma InitialInv(s: State)
    requires Initial(s)
    ensures Inv(s)
  {
  }

  /** In every reachable state each balance is the sum over its ledger rows and within its ceiling. */
  lemma {:induction false} EveryRunConserves(ops: seq<Op>, states: seq<State>, n: nat)
    requires IsRun(ops, states) && n <= |ops|
    ensures Inv(states[n])
  {
    if n > 0 {
      EveryRunConserves(ops, states, n - 1);
      assert StepAt(ops, states, n - 1);
      StepKeepsInv(states[n - 1], ops[n - 1], states[n]);
    }
  }

  /** Up to as many rows as an int64 counts, every balance fits its column, the global month's requests too. */
  lemma EveryRunFits(ops: seq<Op>, states: seq<State>, n: nat, key: RowKey, col: Column)
    requires IsRun(ops, states) && n <= |ops| && |states[n].ledger| <= MAX_INT64
    ensures 0 <= Balance(states[n], key, col) <= MAX_INT64
  {
    EveryRunConserves(ops, states, n);
  }

  /** A row's identity, period and reservation never change once written, and a terminal row never changes. */
  ghost predicate Extends(rows: seq<Row>, later: seq<Row>) {
    && |rows| <= |later|
    && forall i :: 0 <= i < |rows| ==>
         && later[i] == rows[i].(state := later[i].state, charged := later[i].charged)
         && (rows[i].state != Open ==> later[i] == rows[i])
  }

  lemma StepExtendsLedger(s: State, op: Op, s': State)
    requires Step(s, op, s')
    ensures Extends(s.ledger, s'.ledger)
  {
  }

  lemma {:induction false} RunExtendsLedger(ops: seq<Op>, states: seq<State>, m: nat, n: nat)
    requires IsRun(ops, states) && m <= n <= |ops|
    ensures Extends(states[m].ledger, states[n].ledger)
  {
    if m < n {
      RunExtendsLedger(ops, states, m, n - 1);
      assert StepAt(ops, states, n - 1);
      StepExtendsLedger(states[n - 1], ops[n - 1], states[n]);
    }
  }

  function Max0(x: int): int { if x < 0 then 0 else x }

  /** The largest monthly wallet limit under which one of these operations reserved in the month (0 if none). */
  function HighestLimit(ops: seq<Op>, month: string): int {
    if |ops| == 0 then 0
    else
      var rest, op := HighestLimit(ops[..|ops| - 1], month), ops[|ops| - 1];
      if op.ReserveOp? && op.row.period.month == month && op.lim.globalMonthlySpend > rest
      then op.lim.globalMonthlySpend else rest
  }

  /** What a settlement charged one of the month's rows beyond its reservation. */
  function TopUp(op: Op, rows: seq<Row>, month: string): int {
    if op.CloseOp? && op.how.Charged? && op.at < |rows| && rows[op.at].period.month == month
    then Max0(op.how.actual - rows[op.at].reserved) else 0
  }

  function TopUps(ops: seq<Op>, rows: seq<Row>, month: string): int {
    if |ops| == 0 then 0
    else TopUps(ops[..|ops| - 1], rows, month) + TopUp(ops[|ops| - 1], rows, month)
  }

  lemma {:induction false} TopUpsNonNegative(ops: seq<Op>, rows: seq<Row>, month: string)
    ensures TopUps(ops, rows, month) >= 0
  {
    if |ops| != 0 { TopUpsNonNegative(ops[..|ops| - 1], rows, month); }
  }

  lemma MonthSpendStep(s: State, op: Op, s': State, month: string)
    requires WellFormed(s) && Step(s, op, s')
    ensures var before, after := Balance(s, GlobalMonthly(month), Amount), Balance(s', GlobalMonthly(month), Amount);
            if op.ReserveOp? && op.row.period.month == month then after <= op.lim.globalMonthlySpend
            else after <= before + TopUp(op, s.ledger, month)
  {
    if op.CloseOp? {
      ClosingMoves(s.ledger[op.at], op.how, GlobalMonthly(month), Amount);
    }
  }

  /**
   The wallet is never oversold: in every reachable state a month's spend is at most the largest
   limit any successful reservation of that month was taken under, plus what settlements truthfully
   charged beyond their quotes.
   */
  lemma {:induction false} WalletCeiling(ops: seq<Op>, states: seq<State>, n: nat, month: string)
    requires IsRun(ops, states) && n <= |ops|
    ensures Balance(states[n], GlobalMonthly(month), Amount)
         <= HighestLimit(ops[..n], month) + TopUps(ops[..n], states[|ops|].ledger, month)
  {
    var rows := states[|ops|].ledger;
    if n > 0 {
      WalletCeiling(ops, states, n - 1, month);
      var s, op := states[n - 1], ops[n - 1];
      assert ops[..n][..n - 1] == ops[..n - 1] && ops[..n][n - 1] == op;
      assert WellFormed(s) by { EveryRunConserves(ops, states, n - 1); }
      assert StepAt(ops, states, n - 1);
      MonthSpendStep(s, op, states[n], month);
      RunExtendsLedger(ops, states, n - 1, |ops|);
      assert TopUp(op, rows, month) == TopUp(op, s.ledger, month);
      TopUpsNonNegative(ops[..n - 1], rows, month);
    }
  }

  /** The two limits agree on the request quotas and the category caps. */
  predicate SameCaps(a: Limits, b: Limits) { a == b.(globalMonthlySpend := a.globalMonthlySpend) }

  /** A balance within its cap: monthly or sublimited daily requests, or the daily units of a capped category. */
  predicate UnderCap(s: State, key: RowKey, lim: Limits) {
    match key
    case QuotaMonthly(_, _) => Balance(s, key, Requests) <= Max0(lim.monthlyQuota)
    case InstallDaily(_, _) => Balance(s, key, Requests) <= Max0(lim.dailySublimit)
    case CategoryDaily(_, category, _) =>
      CategoryCap(category, lim) > 0 ==> Balance(s, key, Amount) <= CategoryCap(category, lim)
    case _ => true
  }

  lemma CapsStep(s: State, op: Op, s': State, lim: Limits, key: RowKey)
    requires WellFormed(s) && Step(s, op, s') && (op.ReserveOp? ==> SameCaps(op.lim, lim))
    requires UnderCap(s, key, lim)
    ensures UnderCap(s', key, lim)
  {
    if op.CloseOp? {
      ClosingMoves(s.ledger[op.at], op.how, key, Requests);
      ClosingMoves(s.ledger[op.at], op.how, key, Amount);
    }
  }

  /**
   When every reservation of a run was taken under the same quotas and category caps, no install ever
   exceeds its monthly requests since the last reset, its sublimited requests in a day (none are
   counted without a sublimit), nor a capped category's units in a day.
   */
  lemma {:induction false} CapsHold(ops: seq<Op>, states: seq<State>, n: nat, lim: Limits, key: RowKey)
    requires IsRun(ops, states) && n <= |ops|
    requires forall k :: 0 <= k < |ops| && ops[k].ReserveOp? ==> SameCaps(ops[k].lim, lim)
    ensures UnderCap(states[n], key, lim)
  {
    if n > 0 {
      CapsHold(ops, states, n - 1, lim, key);
      var s, op := states[n - 1], ops[n - 1];
      assert WellFormed(s) by { EveryRunConserves(ops, states, n - 1); }
      assert StepAt(ops, states, n - 1);
      CapsStep(s, op, states[n], lim, key);
    }
  }
}
