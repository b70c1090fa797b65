/**
 The quota store: every method is one serialized transaction, carried out statement by statement on
 the aggregate tables and the ledger and undone in full when a guarded update misses. Each is proved
 to be exactly one step of the Ledger state machine, or to change nothing.
 */
module QuotaStore {
  import opened Billing
  import opened Ledger

  /** What Reserve hands to Settle and Rollback; it is never recomputed. */
  datatype Reservation = Reservation(id: string, install: string, period: Period, plan: Plan, reserved: int,
                                     sublimitApplied: bool, category: Category, units: int)

  datatype ReserveResult = Refused(why: Refusal) | Reserved(r: Reservation)

  /** InvalidReservation and Overflow are errors; Lost means another terminal operation won. */
  datatype CloseResult = InvalidReservation | Lost | Overflow | Won(at: nat)

  datatype ResetResult = ResetBlocked | Cleared(n: nat)

  function PlanCategory(plan: Plan): (Category, int) {
    match plan.inputClass
    case InputImages => (CategoryImage, plan.promptQuote)
    case InputCharacters => (CategorySpeech, plan.promptQuote)
    case InputVideoSeconds => (CategoryVideo, 1)
    case InputVoices => (CategoryVoice, plan.promptQuote)
    case _ => (NoCategory, 0)
  }

  /** A plan is rationed by its model: pictures, characters and voices count singly, a video as one. */
  lemma PlansAreRationedByModel(plan: Plan)
    requires Built(plan)
    ensures PlanCategory(plan) ==
            match plan.model
            case QwenImage20 => (CategoryImage, plan.promptQuote)
            case QwenAudio30TTSFlash => (CategorySpeech, plan.promptQuote)
            case Wan27T2V => (CategoryVideo, 1)
            case Wan27I2V => (CategoryVideo, 1)
            case QwenTTSClone => (CategoryVoice, plan.promptQuote)
            case _ => (NoCategory, 0)
  {
    BuiltMeaning(plan);
  }

  predicate ValidPlan(plan: Plan) { Validate(plan) && plan.reservedPUSD > 0 }

  predicate ValidReservation(r: Reservation) {
    |r.id| > 0 && |r.install| > 0 && r.reserved > 0 && r.reserved == r.plan.reservedPUSD && ValidPlan(r.plan)
  }

  function NewRow(id: string, install: string, plan: Plan, p: Period, lim: Limits, now: int): Row {
    Row(id, install, plan.provider, plan.model, plan.rateCardId, p, plan.reservedPUSD, None, Open,
        lim.dailySublimit > 0, PlanCategory(plan).0, PlanCategory(plan).1, now)
  }

  function ReservationFor(row: Row, plan: Plan): Reservation {
    Reservation(row.id, row.install, row.period, plan, row.reserved, row.sublimitApplied, row.category, row.units)
  }

  /** The WHERE clause of the terminal compare-and-swap. */
  predicate Matches(row: Row, r: Reservation) {
    && row.id == r.id && row.state == Open
    && row.install == r.install && row.provider == r.plan.provider && row.model == r.plan.model
    && row.rateCardId == r.plan.rateCardId && row.period == r.period && row.reserved == r.reserved
    && row.sublimitApplied == r.sublimitApplied && row.category == r.category && row.units == r.units
  }

  /** A reservation the store made is valid and finds its own row, for as long as that row is open. */
  lemma ReservationFindsItsRow(row: Row, plan: Plan, id: string, install: string, p: Period, lim: Limits, now: int)
    requires ValidPlan(plan) && |id| > 0 && |install| > 0
    requires row == NewRow(id, install, plan, p, lim, now)
    ensures ValidReservation(ReservationFor(row, plan)) && Matches(row, ReservationFor(row, plan))
    ensures RowChecks(row)
  {
  }

  /** Which row, if any, a terminal operation on this reservation wins, and whether it can be applied. */
  ghost predicate Outcome(s: State, r: Reservation, how: Closing, e: CloseResult) {
    if !ValidReservation(r) || (how.Charged? && how.actual < 0) then e == InvalidReservation
    else if forall i :: 0 <= i < |s.ledger| ==> !Matches(s.ledger[i], r) then e == Lost
    else if e.Won? then e.at < |s.ledger| && Matches(s.ledger[e.at], r) && CanClose(s, s.ledger[e.at], how)
    else e == Overflow && exists i :: 0 <= i < |s.ledger| && Matches(s.ledger[i], r) && !CanClose(s, s.ledger[i], how)
  }

  /** The transaction either commits exactly the closing step on the row it won, or leaves no trace. */
  ghost predicate Closes(s: State, s': State, e: CloseResult, how: Closing) {
    if e.Won? then Step(s, CloseOp(e.at, how), s') else s' == s
  }

  predicate Aged(row: Row, cutoff: int) { row.state == Open && row.createdAt < cutoff }

  function CountAged(rows: seq<Row>, cutoff: int): nat {
    if |rows| == 0 then 0
    else CountAged(rows[..|rows| - 1], cutoff) + if Aged(rows[|rows| - 1], cutoff) then 1 else 0
  }

  class Store {
    var tables: map<RowKey, Cols>
    var ledger: seq<Row>
    /** Bookkeeping of the resets, which no operation reads. */
    var windows: map<string, nat>

    ghost function S(): State
      reads this
    {
      State(tables, ledger, windows)
    }

    ghost predicate Valid()
      reads this
    {
      Inv(S())
    }

    constructor ()
      ensures Initial(S()) && Valid()
    {
      tables, ledger, windows := map[], [], map[];
      new;
      InitialInv(S());
    }

    // -------------------------------------------------------------- statements

    method InsertOrIgnore(key: RowKey)
      modifies `tables
      ensures tables == if key in old(tables) then old(tables) else old(tables)[key := Cols(0, 0)]
    {
      if key !in tables { tables := tables[key := Cols(0, 0)]; }
    }

    /** One guarded UPDATE; it hits its row or changes nothing. */
    method Update(key: RowKey, amount: int, requests: int, guard: Cols -> bool) returns (hit: bool)
      modifies `tables
      ensures hit <==>
        key in old(tables) && guard(Cols(Read(old(tables), key, Amount), Read(old(tables), key, Requests)))
      ensures !hit ==> tables == old(tables)
      ensures hit ==> tables.Keys == old(tables).Keys
      ensures hit ==> Moved(old(tables), tables, key, amount, requests)
    {
      hit := key in tables && guard(tables[key]);
      if hit {
        tables := tables[key := Cols(tables[key].amount + amount, tables[key].requests + requests)];
      }
    }

    /** The lazy upsert of a row, then its guarded UPDATE. */
    method Take(key: RowKey, amount: int, requests: int, guard: Cols -> bool) returns (hit: bool)
      modifies `tables
      ensures hit <==> guard(Cols(Read(old(tables), key, Amount), Read(old(tables), key, Requests)))
      ensures hit ==> key in tables && Moved(old(tables), tables, key, amount, requests)
    {
      InsertOrIgnore(key);
      hit := Update(key, amount, requests, guard);
    }

    // -------------------------------------------------------------- reserve

    /**
     Takes the monthly entitlement, the category units and the month's wallet together with every
     statistics row, or nothing: the first gate without room is the refusal.
     */
    method Reserve(id: string, install: string, plan: Plan, p: Period, lim: Limits, now: int)
      returns (res: ReserveResult)
      requires Valid() && |id| > 0
      modifies this
      ensures Valid()
      ensures var row := NewRow(id, install, plan, p, lim, now);
              if !ValidPlan(plan) then res == Refused(InvalidPlan) && S() == old(S())
              else match Denial(old(S()), row, lim)
                case Some(why) => res == Refused(why) && S() == old(S())
                case None => res == Reserved(ReservationFor(row, plan)) && Step(old(S()), ReserveOp(row, lim), S())
    {
      if !ValidPlan(plan) { return Refused(InvalidPlan); }
      var saved := tables;
      ghost var s := S();
      var row := NewRow(id, install, plan, p, lim, now);
      PlannedRow(id, install, plan, p, lim, now);
      var denied := TakeGates(row, lim);
      if denied.Some? {
        tables := saved;
        assert S() == s;
        return Refused(denied.value);
      }
      ledger := ledger + [row];
      ReserveCommits(s, S(), row, lim);
      res := Reserved(ReservationFor(row, plan));
    }

    /** Every gate in order, up to the ledger's primary key; the first one without room is the refusal. */
    method TakeGates(row: Row, lim: Limits) returns (denied: Option<Refusal>)
      requires RowChecks(row) && row.state == Open && row.sublimitApplied == (lim.dailySublimit > 0)
      modifies `tables
      ensures denied == Denial(old(S()), row, lim)
      ensures denied == None ==> forall k, col ::
        Read(tables, k, col) == Read(old(tables), k, col) + Contribution(row, k, col)
    {
      ghost var s := S();
      denied := TakeInstallGates(row, lim);
      ghost var mid := tables;
      if denied.Some? {
        DenialAtInstall(s, row, lim);
        return;
      }
      denied := TakeSharedGates(row, lim);
      DenialInStages(s, mid, row, lim);
      if denied.Some? { return; }
      var duplicate := exists i :: 0 <= i < |ledger| && ledger[i].id == row.id;
      if duplicate { return Some(DuplicateRequest); }
      GatesAddUp(s.tables, mid, tables, row);
    }

    /** The install's own gates, in order: monthly requests, daily statistics and sublimit, category units. */
    method TakeInstallGates(row: Row, lim: Limits) returns (denied: Option<Refusal>)
      requires RowChecks(row) && row.state == Open && row.sublimitApplied == (lim.dailySublimit > 0)
      modifies `tables
      ensures denied == InstallDenial(old(tables), row, lim)
      ensures denied == None ==> forall k, col ::
        Read(tables, k, col) == Read(old(tables), k, col) + if InstallKey(k) then Contribution(row, k, col) else 0
    {
      var m, d := row.period.month, row.period.day;
      var hit := Take(QuotaMonthly(row.install, m), 0, 1, (c: Cols) => c.requests < lim.monthlyQuota);
      if !hit { return Some(MonthlyExhausted); }
      denied := TakeInstallDaily(row, lim);
      if denied.Some? { return; }
      denied := TakeCategory(row, lim);
    }

    method TakeInstallDaily(row: Row, lim: Limits) returns (denied: Option<Refusal>)
      requires RowChecks(row) && row.state == Open && row.sublimitApplied == (lim.dailySublimit > 0)
      modifies `tables
      ensures denied == InstallDailyDenial(old(tables), row, lim)
      ensures denied == None ==> Moved(old(tables), tables, InstallDaily(row.install, row.period.day),
                                       row.reserved, if row.sublimitApplied then 1 else 0)
    {
      var key := InstallDaily(row.install, row.period.day);
      var hit := Take(key, row.reserved, 0, (c: Cols) => c.amount <= MAX_INT64 - row.reserved);
      if !hit { return Some(CounterFull(key)); }
      if lim.dailySublimit > 0 {
        hit := Update(key, 0, 1, (c: Cols) => c.requests < lim.dailySublimit);
        if !hit { return Some(SublimitExceeded); }
      }
      denied := None;
    }

    method TakeCategory(row: Row, lim: Limits) returns (denied: Option<Refusal>)
      requires RowChecks(row) && row.state == Open
      modifies `tables
      ensures denied == CategoryDenial(old(tables), row, lim)
      ensures denied == None ==>
        Moved(old(tables), tables, CategoryDaily(row.install, row.category, row.period.day), row.units, 0)
    {
      if row.category == NoCategory { return None; }
      var key, cap := CategoryDaily(row.install, row.category, row.period.day), CategoryCap(row.category, lim);
      var hit;
      if cap > 0 {
        hit := Take(key, row.units, 0, (c: Cols) => c.amount + row.units <= cap);
        denied := if hit then None else Some(CategoryDailyExceeded(row.category));
      } else {
        hit := Take(key, row.units, 0, (c: Cols) => c.amount <= MAX_INT64 - row.units);
        denied := if hit then None else Some(CounterFull(key));
      }
    }

    /** The shared rows, in order: provider and global statistics, then the month's wallet. */
    method TakeSharedGates(row: Row, lim: Limits) returns (denied: Option<Refusal>)
      requires row.state == Open && RowChecks(row)
      modifies `tables
      ensures denied == SharedDenial(old(tables), row, lim)
      ensures denied == None ==> forall k, col ::
        Read(tables, k, col) == Read(old(tables), k, col) + if InstallKey(k) then 0 else Contribution(row, k, col)
    {
      var m, d := row.period.month, row.period.day;
      var room := (c: Cols) => c.amount <= MAX_INT64 - row.reserved && c.requests < MAX_INT64;
      var hit := Take(ProviderDaily(row.provider, d), row.reserved, 1, room);
      if !hit { return Some(CounterFull(ProviderDaily(row.provider, d))); }
      hit := Take(GlobalDaily(d), row.reserved, 1, room);
      if !hit { return Some(CounterFull(GlobalDaily(d))); }
      hit := Take(GlobalMonthly(m), row.reserved, 1, (c: Cols) => c.amount <= lim.globalMonthlySpend - row.reserved);
      if !hit { return Some(BudgetExceeded); }
      return None;
    }

    // -------------------------------------------------------------- settle and rollback

    /** The open row a terminal compare-and-swap on this reservation would change, or -1. */
    method FindOpen(r: Reservation) returns (at: int)
      ensures -1 <= at < |ledger|
      ensures at >= 0 ==> Matches(ledger[at], r)
      ensures at == -1 ==> forall i :: 0 <= i < |ledger| ==> !Matches(ledger[i], r)
    {
      at := 0;
      while at < |ledger|
        invariant 0 <= at <= |ledger|
        invariant forall i :: 0 <= i < at ==> !Matches(ledger[i], r)
      {
        if Matches(ledger[at], r) { return; }
        at := at + 1;
      }
      at := -1;
    }

    /** Commits the authoritative charge: a refund or an uncapped top-up of all four spend balances. */
    method Settle(r: Reservation, actual: int) returns (e: CloseResult)
      requires Valid()
      modifies this
      ensures Valid() && Outcome(old(S()), r, Charged(actual), e) && Closes(old(S()), S(), e, Charged(actual))
    {
      if !ValidReservation(r) || actual < 0 { return InvalidReservation; }
      var at := FindOpen(r);
      if at < 0 { return Lost; }
      var ok := SettleRow(at, actual);
      e := if ok then Won(at) else Overflow;
    }

    /** The transaction behind a won compare-and-swap: the row and all four balances, or nothing. */
    method SettleRow(at: nat, actual: int) returns (ok: bool)
      requires Valid() && OpenAt(S(), at) && actual >= 0
      modifies this
      ensures Valid() && (ok <==> CanClose(old(S()), old(S()).ledger[at], Charged(actual)))
      ensures if ok then Step(old(S()), CloseOp(at, Charged(actual)), S()) else S() == old(S())
    {
      var savedTables, savedLedger := tables, ledger;
      ghost var s := S();
      var row := ledger[at];
      AdjustableIffFits(s, at, actual);
      ledger := ledger[at := Close(row, Charged(actual))];
      ok := AdjustSpend(row, row.reserved - actual);
      if ok {
        SettleCommits(s, S(), at, actual);
      } else {
        tables, ledger := savedTables, savedLedger;
        assert S() == s;
      }
    }

    /** One guarded refund (positive delta) or top-up of a spend balance. */
    method AdjustOne(key: RowKey, delta: int) returns (ok: bool)
      modifies `tables
      ensures ok <==> CanAdjust(old(tables), key, delta)
      ensures ok ==> tables.Keys == old(tables).Keys && Moved(old(tables), tables, key, -delta, 0)
    {
      if delta > 0 {
        ok := Update(key, -delta, 0, (c: Cols) => c.amount >= delta);
      } else {
        ok := Update(key, -delta, 0, (c: Cols) => c.amount <= MAX_INT64 + delta);
      }
    }

    /** The refund or top-up of the four spend balances: all of them, or a miss that aborts the transaction. */
    method AdjustSpend(row: Row, delta: int) returns (ok: bool)
      modifies `tables
      ensures ok <==> delta == 0 || Adjustable(old(tables), row, delta)
      ensures ok ==> forall k, col ::
        Read(tables, k, col) == Read(old(tables), k, col) - SpendShare(row, k, col, delta)
    {
      if delta == 0 { return true; }
      ghost var t0 := tables;
      ok := AdjustOne(InstallDaily(row.install, row.period.day), delta);
      if !ok { return; }
      ghost var t1 := tables;
      ok := AdjustOne(ProviderDaily(row.provider, row.period.day), delta);
      if !ok { return; }
      ghost var t2 := tables;
      ok := AdjustOne(GlobalDaily(row.period.day), delta);
      if !ok { return; }
      ghost var t3 := tables;
      ok := AdjustOne(GlobalMonthly(row.period.month), delta);
      if !ok { return; }
      forall k, col ensures Read(tables, k, col) == Read(t0, k, col) - SpendShare(row, k, col, delta) {
        FourAdjustments(t0, t1, t2, t3, tables, row, delta, k, col);
      }
    }

    /** Reverses everything the reservation took, for an outcome that is definitely unbilled. It never misses. */
    method Rollback(r: Reservation) returns (e: CloseResult)
      requires Valid()
      modifies this
      ensures Valid() && Outcome(old(S()), r, GivenBack, e) && Closes(old(S()), S(), e, GivenBack)
      ensures e != Overflow
    {
      if !ValidReservation(r) { return InvalidReservation; }
      var at := FindOpen(r);
      if at < 0 { return Lost; }
      ghost var s := S();
      var row := ledger[at];
      ledger := ledger[at := Close(row, GivenBack)];
      var hit := GiveBack(s, at, row);
      assert hit;
      CloseKeepsInv(s, S(), at, GivenBack);
      e := Won(at);
    }

    /** The guarded updates of a rollback; on a row the ledger conserves, every one of them hits. */
    method GiveBack(ghost s: State, ghost at: nat, row: Row) returns (hit: bool)
      requires Inv(s) && OpenAt(s, at) && row == s.ledger[at] && tables == s.tables
      modifies `tables
      ensures hit
      ensures forall k, col :: Read(tables, k, col) == Read(s.tables, k, col) - Contribution(row, k, col)
    {
      hit := GiveBackInstall(s, at, row);
      ghost var mid := tables;
      var rest := GiveBackShared(s, at, row);
      hit := hit && rest;
      forall k, col ensures Read(tables, k, col) == Read(s.tables, k, col) - Contribution(row, k, col) {
        assert Read(mid, k, col) == Read(s.tables, k, col) - if Daily(k) then Contribution(row, k, col) else 0;
      }
    }

    method GiveBackInstall(ghost s: State, ghost at: nat, row: Row) returns (hit: bool)
      requires Inv(s) && OpenAt(s, at) && row == s.ledger[at] && tables == s.tables
      modifies `tables
      ensures hit && tables.Keys == s.tables.Keys
      ensures forall k, col ::
        Read(tables, k, col) == Read(s.tables, k, col) - if Daily(k) then Contribution(row, k, col) else 0
    {
      var install, category := InstallDaily(row.install, row.period.day),
                               CategoryDaily(row.install, row.category, row.period.day);
      RollbackHits(s, at, install);
      RollbackHits(s, at, category);
      hit := Return(install, row.reserved, if row.sublimitApplied then 1 else 0);
      if row.category != NoCategory && row.units > 0 {
        hit := Return(category, row.units, 0);
      }
    }

    /** One guarded update of a rollback, on a balance known to hold what it takes back. */
    method Return(key: RowKey, amount: int, requests: int) returns (hit: bool)
      requires key in tables
      requires amount == 0 || Read(tables, key, Amount) >= amount
      requires requests == 0 || Read(tables, key, Requests) >= requests
      modifies `tables
      ensures hit && tables.Keys == old(tables).Keys && Moved(old(tables), tables, key, -amount, -requests)
    {
      hit := Update(key, -amount, -requests,
                    (c: Cols) => (amount == 0 || c.amount >= amount) && (requests == 0 || c.requests >= requests));
    }

    method GiveBackShared(ghost s: State, ghost at: nat, row: Row) returns (hit: bool)
      requires Inv(s) && OpenAt(s, at) && row == s.ledger[at]
      requires tables.Keys == s.tables.Keys
      requires forall k, col :: !Daily(k) ==> Read(tables, k, col) == Read(s.tables, k, col)
      modifies `tables
      ensures hit
      ensures forall k, col ::
        Read(tables, k, col) == Read(old(tables), k, col) - if Daily(k) then 0 else Contribution(row, k, col)
    {
      var provider, day := ProviderDaily(row.provider, row.period.day), GlobalDaily(row.period.day);
      var month, quota := GlobalMonthly(row.period.month), QuotaMonthly(row.install, row.period.month);
      RollbackHits(s, at, provider);
      RollbackHits(s, at, day);
      RollbackHits(s, at, month);
      RollbackHits(s, at, quota);
      ghost var t0 := tables;
      hit := Return(provider, row.reserved, 1);
      ghost var t1 := tables;
      hit := Return(day, row.reserved, 1);
      ghost var t2 := tables;
      hit := Return(month, row.reserved, 1);
      ghost var t3 := tables;
      hit := Return(quota, 0, 1);
      forall k, col
        ensures Read(tables, k, col) == Read(t0, k, col) - if Daily(k) then 0 else Contribution(row, k, col)
      {
        FourReturns(t0, t1, t2, t3, tables, row, k, col);
      }
    }

    // -------------------------------------------------------------- maintenance

    /** Terminalizes one row at its full reservation, moving no balance, unless another operation won. */
    method ReconcileOne(id: string) returns (won: bool, ghost at: nat)
      requires Valid()
      modifies this
      ensures Valid() && tables == old(tables) && windows == old(windows)
      ensures won ==> OpenAt(old(S()), at) && old(ledger)[at].id == id && Step(old(S()), CloseOp(at, Abandoned), S())
      ensures !won ==>
        ledger == old(ledger) && forall i :: 0 <= i < |ledger| && ledger[i].id == id ==> ledger[i].state != Open
    {
      var i := 0;
      while i < |ledger|
        invariant 0 <= i <= |ledger|
        invariant forall j :: 0 <= j < i && ledger[j].id == id ==> ledger[j].state != Open
      {
        if ledger[i].id == id && ledger[i].state == Open {
          ghost var s := S();
          at := i;
          ledger := ledger[i := Close(ledger[i], Abandoned)];
          AbandonCommits(s, S(), i);
          return true, at;
        }
        i := i + 1;
      }
      won, at := false, 0;
    }

    /** The scan: the aged open rows, in ledger order. */
    method AgedIds(cutoff: int) returns (ids: seq<string>, ghost ats: seq<nat>)
      ensures |ids| == CountAged(ledger, cutoff) && Scanned(ledger, cutoff, ids, ats)
    {
      var i := 0;
      ids, ats := [], [];
      while i < |ledger|
        invariant 0 <= i <= |ledger| && |ids| == CountAged(ledger[..i], cutoff)
        invariant Scanned(ledger[..i], cutoff, ids, ats)
      {
        ScanOne(ledger, i, cutoff, ids, ats);
        if Aged(ledger[i], cutoff) { ids, ats := ids + [ledger[i].id], ats + [i]; }
        i := i + 1;
      }
      assert ledger[..i] == ledger;
    }

    /** Whatever other transactions commit meanwhile. */
    method Meanwhile(i: nat, others: (nat, State) -> State)
      requires Valid() && Commits(others)
      modifies this
      ensures Valid() && S() == others(i, old(S())) && Extends(old(ledger), ledger)
    {
      assert CommitsAt(others, i, S());
      var t := others(i, State(tables, ledger, windows));
      tables, ledger, windows := t.tables, t.ledger, t.windows;
    }

    /** Row `at`, by its id: it is closed here if it is still open, and is left alone otherwise. */
    method CloseRow(id: string, ghost at: nat) returns (won: bool)
      requires Valid() && at < |ledger| && ledger[at].id == id
      modifies this
      ensures Valid() && tables == old(tables) && windows == old(windows)
      ensures won <==> old(ledger)[at].state == Open
      ensures ledger == if won then old(ledger)[at := Close(old(ledger)[at], Abandoned)] else old(ledger)
    {
      ghost var mid := ledger;
      ghost var where;
      won, where := ReconcileOne(id);
      assert won ==> where == at && mid[where].id == mid[at].id;
    }

    /** One visit of a pass that scanned in state s0, after whatever others commit first. */
    method Visit(i: nat, others: (nat, State) -> State, ghost s0: State, ghost cutoff: int, ids: seq<string>,
                 ghost ats: seq<nat>, ghost wins: set<nat>)
      returns (won: bool, ghost after: set<nat>)
      requires Valid() && Commits(others) && Inv(s0) && i < |ids| && Scanned(s0.ledger, cutoff, ids, ats)
      requires Swept(s0.ledger, ledger, ats, i, wins) && (Idle(others) ==> Alone(s0, S(), ats, i))
      modifies this
      ensures Valid() && Swept(s0.ledger, ledger, ats, i + 1, after) && |after| == |wins| + if won then 1 else 0
      ensures Idle(others) ==> won && Alone(s0, S(), ats, i + 1)
    {
      ghost var s := S();
      Meanwhile(i, others);
      ghost var t := S();
      assert Idle(others) ==> t == s;
      StillSwept(s0.ledger, s.ledger, t.ledger, ats, i, wins);
      StillThere(s0, t, ats[i]);
      won := CloseRow(ids[i], ats[i]);
      after := if won then wins + {ats[i]} else wins;
      RowSwept(s0.ledger, t.ledger, ledger, cutoff, ids, ats, i, wins, won, after);
      if Idle(others) { AloneWins(s0.ledger, t.ledger, ledger, cutoff, ids, ats, i, won); }
    }

    /**
     Scans for open rows created before the cutoff, then closes each in its own transaction, with
     whatever others commit in between. Each row the scan found ends closed for good: at its full
     reservation if the pass won it, which n counts, and by another operation if not. Alone on the
     store the pass wins all of them, and moves no balance.
     */
    method ReconcileOrphans(cutoff: int, others: (nat, State) -> State) returns (n: nat, ghost wins: set<nat>)
      requires Valid() && Commits(others)
      modifies this
      ensures Valid() && Extends(old(ledger), ledger) && n == |wins|
      ensures forall j: nat :: j < |old(ledger)| && Aged(old(ledger)[j], cutoff) ==> ledger[j].state != Open
      ensures forall j :: j in wins ==> WonFrom(old(ledger), ledger, cutoff, j)
      ensures Idle(others) ==>
        && n == CountAged(old(ledger), cutoff) && AllAgedOrphaned(old(ledger), ledger, cutoff)
        && tables == old(tables) && windows == old(windows)
    {
      ghost var s0 := S();
      var ids, ats := AgedIds(cutoff);
      n, wins := SweepIds(others, s0, cutoff, ids, ats);
      AllSwept(s0.ledger, ledger, cutoff, ids, ats, wins);
      if Idle(others) { AllOrphaned(s0, S(), cutoff, ids, ats); }
    }

    /** The closings of a pass that scanned these ids in state s0. */
    method SweepIds(others: (nat, State) -> State, ghost s0: State, ghost cutoff: int, ids: seq<string>,
                    ghost ats: seq<nat>)
      returns (n: nat, ghost wins: set<nat>)
      requires Valid() && Commits(others) && s0 == S() && Scanned(ledger, cutoff, ids, ats)
      modifies this
      ensures Valid() && n == |wins| && Swept(s0.ledger, ledger, ats, |ats|, wins)
      ensures Idle(others) ==> n == |ids| && Alone(s0, S(), ats, |ats|)
    {
      var i := 0;
      n, wins := 0, {};
      while i < |ids|
        invariant 0 <= i <= |ids| && Valid() && n == |wins| && Swept(s0.ledger, ledger, ats, i, wins)
        invariant Idle(others) ==> n == i && Alone(s0, S(), ats, i)
      {
        var won;
        won, wins := Visit(i, others, s0, cutoff, ids, ats, wins);
        if won { n := n + 1; }
        i := i + 1;
      }
    }

    /** Restarts the month's request counts, and refuses while any reservation could still be rolled back into them. */
    method ResetMonthlyRequests(month: string) returns (res: ResetResult)
      requires Valid()
      modifies this
      ensures Valid()
      ensures if exists i: nat :: OpenAt(old(S()), i) then res == ResetBlocked && S() == old(S())
              else res == Cleared(|CountedRows(old(tables), month)|) && Step(old(S()), ResetOp(month), S())
    {
      var blocked := exists i :: 0 <= i < |ledger| && ledger[i].state == Open;
      if blocked {
        ghost var i: nat :| i < |ledger| && ledger[i].state == Open;
        assert OpenAt(S(), i);
        return ResetBlocked;
      }
      assert forall i: nat :: !OpenAt(S(), i);
      ghost var s := S();
      res := Cleared(|CountedRows(tables, month)|);
      tables := map key | key in tables ::
        if key in CountedRows(tables, month) then tables[key].(requests := 0) else tables[key];
      windows := windows[month := |ledger|];
      ResetCommits(s, S(), month);
      StepKeepsInv(s, ResetOp(month), S());
    }

    /** What a client is shown is exactly what the ledger accounts for. */
    method View(install: string, p: Period) returns (used: int, installSpend: int, globalSpend: int)
      requires Valid()
      ensures var quota := QuotaMonthly(install, p.month); used == Tally(ledger, Start(S(), quota), quota, Requests)
      ensures installSpend == Tally(ledger, 0, InstallDaily(install, p.day), Amount)
      ensures globalSpend == Tally(ledger, 0, GlobalMonthly(p.month), Amount)
    {
      used := Read(tables, QuotaMonthly(install, p.month), Requests);
      installSpend := Read(tables, InstallDaily(install, p.day), Amount);
      globalSpend := Read(tables, GlobalMonthly(p.month), Amount);
      assert used == Balance(S(), QuotaMonthly(install, p.month), Requests);
      assert installSpend == Balance(S(), InstallDaily(install, p.day), Amount);
      assert globalSpend == Balance(S(), GlobalMonthly(p.month), Amount);
    }
  }

  /** An orphan pass, other transactions around it, reaches row i at time t: it closes the row, or finds it closed. */
  ghost predicate VisitedAt(ops: seq<Op>, states: seq<State>, i: nat, t: nat)
    requires |states| == |ops| + 1
  {
    && t < |ops| && i < |states[t].ledger|
    && (states[t].ledger[i].state == Open ==> ops[t] == CloseOp(i, Abandoned))
  }

  /**
   Whatever else commits between its scan at a and its visits, an orphan pass leaves each row it found
   aged closed for good: at the full quote, without moving a balance, when no other operation won, and
   otherwise exactly as the winner left it.
   */
  lemma OrphanPassAmongOthers(ops: seq<Op>, states: seq<State>, cutoff: int, a: nat, i: nat, t: nat, n: nat)
    requires IsRun(ops, states) && a <= t < n <= |ops|
    requires i < |states[a].ledger| && Aged(states[a].ledger[i], cutoff) && VisitedAt(ops, states, i, t)
    ensures i < |states[n].ledger| && states[n].ledger[i].state != Open
    ensures states[t].ledger[i].state == Open ==>
      states[n].ledger[i] == Close(states[a].ledger[i], Abandoned) &&
      forall key, col :: Balance(states[t + 1], key, col) == Balance(states[t], key, col)
    ensures states[t].ledger[i].state != Open ==> states[n].ledger[i] == states[t].ledger[i]
  {
    RunExtendsLedger(ops, states, a, t);
    RunExtendsLedger(ops, states, t, n);
    RunExtendsLedger(ops, states, t + 1, n);
    if states[t].ledger[i].state == Open {
      assert StepAt(ops, states, t);
      EveryRunConserves(ops, states, a);
      EveryRunConserves(ops, states, t);
      assert RowChecks(states[a].ledger[i]) && RowChecks(states[t].ledger[i]);
    }
  }

  /** What other operations commit keeps the ledger's invariant and every row's identity and final state. */
  ghost predicate Commits(others: (nat, State) -> State) { forall i, s :: CommitsAt(others, i, s) }

  ghost predicate CommitsAt(others: (nat, State) -> State, i: nat, s: State) {
    Inv(s) ==> Inv(others(i, s)) && Extends(s.ledger, others(i, s).ledger)
  }

  ghost predicate Idle(others: (nat, State) -> State) { forall i, s :: others(i, s) == s }

  /** Nobody else was at work: the first i rows of the scan are orphaned, and nothing else has changed since. */
  ghost predicate Alone(s0: State, s: State, ats: seq<nat>, i: nat) {
    i <= |ats| && OrphanedAt(s0.ledger, s.ledger, ats[..i]) && s.tables == s0.tables && s.windows == s0.windows
  }

  /** A row the pass found aged and closed itself, at its full reservation. */
  predicate WonFrom(before: seq<Row>, rows: seq<Row>, cutoff: int, j: nat) {
    j < |before| && j < |rows| && Aged(before[j], cutoff) && rows[j] == Close(before[j], Abandoned)
  }

  /** The first i rows of the scan are closed, those in wins by the pass. */
  ghost predicate Swept(before: seq<Row>, rows: seq<Row>, ats: seq<nat>, i: nat, wins: set<nat>) {
    && i <= |ats| && Extends(before, rows)
    && (forall k :: 0 <= k < i ==> ats[k] < |rows| && rows[ats[k]].state != Open)
    && (forall j :: j in wins ==> j in ats[..i] && j < |before| && j < |rows| && rows[j] == Close(before[j], Abandoned))
  }

  lemma StillSwept(before: seq<Row>, rows: seq<Row>, later: seq<Row>, ats: seq<nat>, i: nat, wins: set<nat>)
    requires Swept(before, rows, ats, i, wins) && Extends(rows, later)
    ensures Swept(before, later, ats, i, wins)
  {
  }

  /** A row keeps its id, and is unchanged while it is open. */
  lemma StillThere(s: State, t: State, at: nat)
    requires Inv(s) && Inv(t) && Extends(s.ledger, t.ledger) && at < |s.ledger|
    ensures t.ledger[at].id == s.ledger[at].id && (t.ledger[at].state == Open ==> t.ledger[at] == s.ledger[at])
  {
    assert RowChecks(s.ledger[at]) && RowChecks(t.ledger[at]);
  }

  /** One row closed by the pass, or found closed. */
  lemma RowSwept(before: seq<Row>, mid: seq<Row>, now: seq<Row>, cutoff: int, ids: seq<string>, ats: seq<nat>, i: nat,
                 wins: set<nat>, won: bool, after: set<nat>)
    requires Scanned(before, cutoff, ids, ats) && i < |ats| && Swept(before, mid, ats, i, wins)
    requires (won <==> mid[ats[i]].state == Open) && (won ==> mid[ats[i]] == before[ats[i]])
    requires now == if won then mid[ats[i] := Close(mid[ats[i]], Abandoned)] else mid
    requires after == if won then wins + {ats[i]} else wins
    ensures Swept(before, now, ats, i + 1, after) && |after| == |wins| + if won then 1 else 0
  {
    assert ats[i] !in ats[..i];
    SweptOneMore(before, mid, ats, i, wins, won);
  }

  lemma AllSwept(before: seq<Row>, rows: seq<Row>, cutoff: int, ids: seq<string>, ats: seq<nat>, wins: set<nat>)
    requires Scanned(before, cutoff, ids, ats) && Swept(before, rows, ats, |ats|, wins)
    ensures forall j: nat :: j < |before| && Aged(before[j], cutoff) ==> j < |rows| && rows[j].state != Open
    ensures forall j :: j in wins ==> WonFrom(before, rows, cutoff, j)
  {
    assert ats[..|ats|] == ats;
  }

  lemma AllOrphaned(s0: State, s: State, cutoff: int, ids: seq<string>, ats: seq<nat>)
    requires Scanned(s0.ledger, cutoff, ids, ats) && Alone(s0, s, ats, |ats|)
    ensures AllAgedOrphaned(s0.ledger, s.ledger, cutoff)
  {
    assert ats[..|ats|] == ats;
  }

  /** Alone, nobody else closed the row: the pass wins it. */
  lemma AloneWins(before: seq<Row>, mid: seq<Row>, now: seq<Row>, cutoff: int, ids: seq<string>, ats: seq<nat>, i: nat,
                  won: bool)
    requires Scanned(before, cutoff, ids, ats) && i < |ats| && OrphanedAt(before, mid, ats[..i])
    requires won <==> mid[ats[i]].state == Open
    requires now == if won then mid[ats[i] := Close(before[ats[i]], Abandoned)] else mid
    ensures won && OrphanedAt(before, now, ats[..i + 1])
  {
    assert ats[i] !in ats[..i];
    assert mid[ats[i]] == before[ats[i]];
    OrphanOneMore(before, mid, ats, i);
  }

  lemma SweptOneMore(before: seq<Row>, rows: seq<Row>, ats: seq<nat>, i: nat, wins: set<nat>, won: bool)
    requires Swept(before, rows, ats, i, wins) && i < |ats| && ats[i] < |before|
    requires won <==> rows[ats[i]].state == Open
    requires won ==> rows[ats[i]] == before[ats[i]]
    ensures var later := if won then rows[ats[i] := Close(before[ats[i]], Abandoned)] else rows;
            Swept(before, later, ats, i + 1, if won then wins + {ats[i]} else wins)
  {
    assert ats[..i + 1] == ats[..i] + [ats[i]];
  }

  /** ids and ats name the aged rows, each once. */
  ghost predicate Scanned(rows: seq<Row>, cutoff: int, ids: seq<string>, ats: seq<nat>) {
    && |ids| == |ats|
    && (forall k :: 0 <= k < |ats| ==> ats[k] < |rows| && Aged(rows[ats[k]], cutoff) && ids[k] == rows[ats[k]].id)
    && (forall k, m :: 0 <= k < m < |ats| ==> ats[k] != ats[m])
    && (forall j: nat :: j < |rows| && Aged(rows[j], cutoff) ==> j in ats)
  }

  ghost predicate OrphanedAt(before: seq<Row>, now: seq<Row>, ats: seq<nat>) {
    && |now| == |before|
    && forall j: nat :: j < |now| ==> now[j] == if j in ats then Close(before[j], Abandoned) else before[j]
  }

  ghost predicate AllAgedOrphaned(before: seq<Row>, now: seq<Row>, cutoff: int) {
    && |now| == |before|
    && forall j: nat :: j < |now| ==>
         now[j] == if Aged(before[j], cutoff) then Close(before[j], Abandoned) else before[j]
  }

  lemma ScanOne(rows: seq<Row>, i: nat, cutoff: int, ids: seq<string>, ats: seq<nat>)
    requires i < |rows| && Scanned(rows[..i], cutoff, ids, ats)
    ensures rows[..i + 1][..i] == rows[..i]
    ensures if Aged(rows[i], cutoff) then Scanned(rows[..i + 1], cutoff, ids + [rows[i].id], ats + [i])
            else Scanned(rows[..i + 1], cutoff, ids, ats)
  {
    var next := rows[..i + 1];
    assert forall k :: 0 <= k < |ats| ==> next[ats[k]] == rows[..i][ats[k]];
    forall j: nat | j < |next| && Aged(next[j], cutoff) ensures j in ats + [i] && (j < i ==> j in ats) {
      assert j < i ==> rows[..i][j] == next[j];
      assert (ats + [i])[|ats|] == i;
    }
  }

  lemma OrphanOneMore(before: seq<Row>, mid: seq<Row>, ats: seq<nat>, i: nat)
    requires i < |ats| && ats[i] < |before| && OrphanedAt(before, mid, ats[..i])
    requires forall k, m :: 0 <= k < m < |ats| ==> ats[k] != ats[m]
    ensures OrphanedAt(before, mid[ats[i] := Close(mid[ats[i]], Abandoned)], ats[..i + 1])
  {
    assert ats[..i + 1] == ats[..i] + [ats[i]];
    assert ats[i] !in ats[..i];
  }

  /** The counters a reset of the month clears: its rows with requests in them. */
  function CountedRows(t: map<RowKey, Cols>, month: string): set<RowKey> {
    set key | key in t && ResetKey(key, month) && t[key].requests > 0
  }

  lemma AbandonCommits(s: State, s': State, at: nat)
    requires Inv(s) && OpenAt(s, at)
    requires s' == s.(ledger := s.ledger[at := Close(s.ledger[at], Abandoned)])
    ensures Step(s, CloseOp(at, Abandoned), s') && Inv(s')
  {
    var row := s.ledger[at];
    forall key, col
      ensures Balance(s', key, col) == Balance(s, key, col) - Contribution(row, key, col)
                                       + Contribution(Close(row, Abandoned), key, col)
    {
      assert Contribution(row, key, col) == Contribution(Close(row, Abandoned), key, col);
    }
    CloseKeepsInv(s, s', at, Abandoned);
  }

  /** No money is ever booked on a request counter. */
  lemma {:induction false} QuotaRowsHoldNoMoney(rows: seq<Row>, from: nat, key: RowKey)
    requires key.QuotaMonthly?
    ensures Tally(rows, from, key, Amount) == 0
  {
    if |rows| > from { QuotaRowsHoldNoMoney(rows[..|rows| - 1], from, key); }
  }

  lemma ResetCommits(s: State, s': State, month: string)
    requires Inv(s) && forall i: nat :: !OpenAt(s, i)
    requires s'.ledger == s.ledger && s'.windows == s.windows[month := |s.ledger|]
    requires s'.tables == map key | key in s.tables ::
      if key in CountedRows(s.tables, month) then s.tables[key].(requests := 0) else s.tables[key]
    ensures Step(s, ResetOp(month), s')
  {
    forall i | 0 <= i < |s.ledger| ensures s.ledger[i].state != Open {
      assert !OpenAt(s, i);
    }
    forall key, col ensures Balance(s', key, col) == if ResetKey(key, month) then 0 else Balance(s, key, col) {
      assert Balance(s, key, col) == Tally(s.ledger, Start(s, key), key, col);
      assert 0 <= Balance(s, key, col);
      if ResetKey(key, month) && col == Amount {
        QuotaRowsHoldNoMoney(s.ledger, Start(s, key), key);
      }
    }
  }

  /** One aggregate row moved by the given amounts; every other balance is as it was. */
  ghost predicate Moved(t: map<RowKey, Cols>, t': map<RowKey, Cols>, key: RowKey, amount: int, requests: int) {
    forall k, col ::
      Read(t', k, col) == Read(t, k, col) + if k != key then 0 else if col == Amount then amount else requests
  }

  predicate Daily(key: RowKey) { key.InstallDaily? || key.CategoryDaily? }

  predicate CanAdjust(t: map<RowKey, Cols>, key: RowKey, delta: int) {
    key in t && if delta > 0 then Read(t, key, Amount) >= delta else Read(t, key, Amount) <= MAX_INT64 + delta
  }

  /** All four spend balances of the row can take the change. */
  predicate Adjustable(t: map<RowKey, Cols>, row: Row, delta: int) {
    && CanAdjust(t, InstallDaily(row.install, row.period.day), delta)
    && CanAdjust(t, ProviderDaily(row.provider, row.period.day), delta)
    && CanAdjust(t, GlobalDaily(row.period.day), delta)
    && CanAdjust(t, GlobalMonthly(row.period.month), delta)
  }

  /** The change falls on exactly the row's four spend balances. */
  function SpendShare(row: Row, key: RowKey, col: Column, delta: int): int {
    if col == Amount && IsSpendKey(key) && Touches(row, key) then delta else 0
  }

  lemma FourAdjustments(t0: map<RowKey, Cols>, t1: map<RowKey, Cols>, t2: map<RowKey, Cols>, t3: map<RowKey, Cols>,
                        t4: map<RowKey, Cols>, row: Row, delta: int, k: RowKey, col: Column)
    requires Moved(t0, t1, InstallDaily(row.install, row.period.day), -delta, 0)
    requires Moved(t1, t2, ProviderDaily(row.provider, row.period.day), -delta, 0)
    requires Moved(t2, t3, GlobalDaily(row.period.day), -delta, 0)
    requires Moved(t3, t4, GlobalMonthly(row.period.month), -delta, 0)
    ensures Read(t4, k, col) == Read(t0, k, col) - SpendShare(row, k, col, delta)
  {
    var _ := (Read(t1, k, col), Read(t2, k, col), Read(t3, k, col));
  }

  lemma FourReturns(t0: map<RowKey, Cols>, t1: map<RowKey, Cols>, t2: map<RowKey, Cols>, t3: map<RowKey, Cols>,
                    t4: map<RowKey, Cols>, row: Row, k: RowKey, col: Column)
    requires row.state == Open && RowChecks(row)
    requires Moved(t0, t1, ProviderDaily(row.provider, row.period.day), -row.reserved, -1)
    requires Moved(t1, t2, GlobalDaily(row.period.day), -row.reserved, -1)
    requires Moved(t2, t3, GlobalMonthly(row.period.month), -row.reserved, -1)
    requires Moved(t3, t4, QuotaMonthly(row.install, row.period.month), 0, -1)
    ensures Read(t4, k, col) == Read(t0, k, col) - if Daily(k) then 0 else Contribution(row, k, col)
  {
    var _ := (Read(t1, k, col), Read(t2, k, col), Read(t3, k, col));
  }

  predicate InstallKey(key: RowKey) { key.QuotaMonthly? || key.InstallDaily? || key.CategoryDaily? }

  function InstallDailyDenial(t: map<RowKey, Cols>, row: Row, lim: Limits): Option<Refusal> {
    var key := InstallDaily(row.install, row.period.day);
    if Read(t, key, Amount) + row.reserved > MAX_INT64 then Some(CounterFull(key))
    else if row.sublimitApplied && Read(t, key, Requests) >= lim.dailySublimit then Some(SublimitExceeded)
    else None
  }

  function CategoryDenial(t: map<RowKey, Cols>, row: Row, lim: Limits): Option<Refusal> {
    var key, cap := CategoryDaily(row.install, row.category, row.period.day), CategoryCap(row.category, lim);
    if row.category == NoCategory || Read(t, key, Amount) + row.units <= (if cap > 0 then cap else MAX_INT64) then None
    else Some(if cap > 0 then CategoryDailyExceeded(row.category) else CounterFull(key))
  }

  /** The refusals that come from the install's own rows. */
  function InstallDenial(t: map<RowKey, Cols>, row: Row, lim: Limits): Option<Refusal> {
    if Read(t, QuotaMonthly(row.install, row.period.month), Requests) >= lim.monthlyQuota then Some(MonthlyExhausted)
    else if InstallDailyDenial(t, row, lim).Some? then InstallDailyDenial(t, row, lim)
    else CategoryDenial(t, row, lim)
  }

  /** The refusals that come from the shared rows. */
  function SharedDenial(t: map<RowKey, Cols>, row: Row, lim: Limits): Option<Refusal> {
    var provider, day := ProviderDaily(row.provider, row.period.day), GlobalDaily(row.period.day);
    if Read(t, provider, Amount) + row.reserved > MAX_INT64 || Read(t, provider, Requests) >= MAX_INT64
    then Some(CounterFull(provider))
    else if Read(t, day, Amount) + row.reserved > MAX_INT64 || Read(t, day, Requests) >= MAX_INT64
    then Some(CounterFull(day))
    else if Read(t, GlobalMonthly(row.period.month), Amount) + row.reserved > lim.globalMonthlySpend
    then Some(BudgetExceeded)
    else None
  }

  /** An open row's balances cover what a rollback takes from them, in rows that exist. */
  lemma RollbackHits(s: State, at: nat, key: RowKey)
    requires Inv(s) && OpenAt(s, at) && Touches(s.ledger[at], key)
    ensures var row := s.ledger[at];
            && (IsSpendKey(key) ==> key in s.tables && Read(s.tables, key, Amount) >= row.reserved)
            && (key.CategoryDaily? && row.units > 0 ==> key in s.tables && Read(s.tables, key, Amount) >= row.units)
            && (!key.CategoryDaily? && (key.InstallDaily? ==> row.sublimitApplied)
                ==> key in s.tables && Read(s.tables, key, Requests) >= 1)
  {
    var row := s.ledger[at];
    GuardsNeverMiss(s, at, key);
    assert IsSpendKey(key) ==> Contribution(row, key, Amount) == row.reserved;
    assert key.CategoryDaily? ==> Contribution(row, key, Amount) == row.units;
    assert !key.CategoryDaily? && (key.InstallDaily? ==> row.sublimitApplied) ==> Contribution(row, key, Requests) == 1;
  }

  lemma SettlingKeepsCounts(row: Row, actual: int, key: RowKey)
    requires row.state == Open
    ensures Contribution(Close(row, Charged(actual)), key, Requests) == Contribution(row, key, Requests)
    ensures !IsSpendKey(key)
            ==> Contribution(Close(row, Charged(actual)), key, Amount) == Contribution(row, key, Amount)
  {
  }

  lemma PlannedRow(id: string, install: string, plan: Plan, p: Period, lim: Limits, now: int)
    requires ValidPlan(plan) && |id| > 0
    ensures RowChecks(NewRow(id, install, plan, p, lim, now))
  {
  }

  /** The install's gates, the shared gates and the primary key together refuse exactly as the spec does. */
  lemma DenialInStages(s: State, mid: map<RowKey, Cols>, row: Row, lim: Limits)
    requires InstallDenial(s.tables, row, lim) == None
    requires forall k, col ::
      Read(mid, k, col) == Read(s.tables, k, col) + if InstallKey(k) then Contribution(row, k, col) else 0
    ensures Denial(s, row, lim) ==
            if SharedDenial(mid, row, lim).Some? then SharedDenial(mid, row, lim)
            else if !FreshId(s, row.id) then Some(DuplicateRequest) else None
  {
  }

  lemma DenialAtInstall(s: State, row: Row, lim: Limits)
    requires row.sublimitApplied == (lim.dailySublimit > 0) && InstallDenial(s.tables, row, lim).Some?
    ensures Denial(s, row, lim) == InstallDenial(s.tables, row, lim)
  {
  }

  lemma GatesAddUp(t: map<RowKey, Cols>, mid: map<RowKey, Cols>, t': map<RowKey, Cols>, row: Row)
    requires forall k, col ::
      Read(mid, k, col) == Read(t, k, col) + if InstallKey(k) then Contribution(row, k, col) else 0
    requires forall k, col ::
      Read(t', k, col) == Read(mid, k, col) + if InstallKey(k) then 0 else Contribution(row, k, col)
    ensures forall k, col ::
      Read(t', k, col) == Read(t, k, col) + Contribution(row, k, col)
  {
    forall k, col ensures Read(t', k, col) == Read(t, k, col) + Contribution(row, k, col) {
      assert Read(t', k, col) == Read(mid, k, col) + if InstallKey(k) then 0 else Contribution(row, k, col);
    }
  }

  lemma ReserveCommits(s: State, s': State, row: Row, lim: Limits)
    requires Inv(s) && RowChecks(row) && row.state == Open && row.sublimitApplied == (lim.dailySublimit > 0)
    requires Denial(s, row, lim).None?
    requires s'.ledger == s.ledger + [row] && s'.windows == s.windows
    requires forall k, col ::
      Read(s'.tables, k, col) == Read(s.tables, k, col) + Contribution(row, k, col)
    ensures Step(s, ReserveOp(row, lim), s') && Inv(s')
  {
    DeniedIffNoRoom(s, row, lim);
    forall key, col ensures Balance(s', key, col) == Balance(s, key, col) + Contribution(row, key, col) {
      assert Read(s'.tables, key, col) == Read(s.tables, key, col) + Contribution(row, key, col);
    }
    AppendKeepsInv(s, s', row, lim);
  }

  lemma SettleCommits(s: State, s': State, at: nat, actual: int)
    requires Inv(s) && OpenAt(s, at) && CanClose(s, s.ledger[at], Charged(actual))
    requires s'.ledger == s.ledger[at := Close(s.ledger[at], Charged(actual))] && s'.windows == s.windows
    requires var row := s.ledger[at]; forall k, col ::
      Read(s'.tables, k, col) == Read(s.tables, k, col) - SpendShare(row, k, col, row.reserved - actual)
    ensures Step(s, CloseOp(at, Charged(actual)), s') && Inv(s')
  {
    var row := s.ledger[at];
    var closed := Close(row, Charged(actual));
    forall key, col
      ensures Balance(s', key, col)
           == Balance(s, key, col) - Contribution(row, key, col) + Contribution(closed, key, col)
    {
      ClosingMoves(row, Charged(actual), key, col);
      SettlingKeepsCounts(row, actual, key);
    }
    CloseKeepsInv(s, s', at, Charged(actual));
  }

  /** A refund always finds its money; a top-up applies exactly when it fits. */
  lemma AdjustableIffFits(s: State, at: nat, actual: int)
    requires Inv(s) && OpenAt(s, at) && actual >= 0
    ensures var row := s.ledger[at];
            (actual == row.reserved || Adjustable(s.tables, row, row.reserved - actual)) <==> TopUpFits(s, row, actual)
  {
    var row := s.ledger[at];
    forall key | IsSpendKey(key) && Touches(row, key)
      ensures key in s.tables && Read(s.tables, key, Amount) >= row.reserved
    {
      GuardsNeverMiss(s, at, key);
      assert Contribution(row, key, Amount) == row.reserved;
    }
  }
}
