/**
 Voice enrolment and deletion. Each request is a sequence of separate effects on the wallet, the
 provider's account and the table, so requests are modelled as processes whose steps interleave freely.
 */
module Voice {
  import opened Billing
  import opened Ledger
  import opened Recency

  const PER_INSTALL_INVENTORY: nat := 2

  datatype VoiceRow = VoiceRow(install: string, name: string, upstream: string)

  type Table = map<string, VoiceRow>

  function RowsOf(rows: Table, install: string): set<string> { set id | id in rows && rows[id].install == install }

  predicate NameTaken(rows: Table, install: string, name: string) {
    exists id :: id in rows && rows[id].install == install && rows[id].name == name
  }

  datatype CreateResult = Created | InventoryFull | NameConflict | StoreFault

  /** The insert's own checks: the inventory count, then the unique (install, name) index and the key. */
  function CreateOutcome(rows: Table, id: string, v: VoiceRow, fault: bool): CreateResult {
    if fault then StoreFault
    else if |RowsOf(rows, v.install)| >= PER_INSTALL_INVENTORY then InventoryFull
    else if NameTaken(rows, v.install, v.name) || id in rows then NameConflict
    else Created
  }

  predicate Owns(rows: Table, install: string, id: string) { id in rows && rows[id].install == install }

  class VoiceStore {
    var rows: Table

    constructor ()
      ensures rows == map[]
    {
      rows := map[];
    }

    method CreateVoice(id: string, v: VoiceRow, fault: bool) returns (r: CreateResult)
      modifies this
      ensures r == CreateOutcome(old(rows), id, v, fault)
      ensures rows == if r == Created then old(rows)[id := v] else old(rows)
      ensures Sound(old(rows)) ==> Sound(rows)
    {
      ghost var was := rows;
      if fault { return StoreFault; }
      if |RowsOf(rows, v.install)| >= PER_INSTALL_INVENTORY { return InventoryFull; }
      var taken := exists k :: k in rows && rows[k].install == v.install && rows[k].name == v.name;
      if taken || id in rows { return NameConflict; }
      rows := rows[id := v];
      if Sound(was) { CreateKeepsSound(was, id, v); }
      r := Created;
    }

    /** Another install's id reads as absent. */
    method DeleteVoice(install: string, id: string) returns (found: bool)
      modifies this
      ensures found == Owns(old(rows), install, id)
      ensures rows == if found then old(rows) - {id} else old(rows)
      ensures Sound(old(rows)) ==> Sound(rows)
    {
      ghost var was := rows;
      found := id in rows && rows[id].install == install;
      if found { rows := rows - {id}; }
      if Sound(was) { DeleteKeepsSound(was, id); }
    }
  }

  /** At most the inventory of rows per install, and no install holds one name twice. */
  ghost predicate Sound(rows: Table) {
    && (forall install :: |RowsOf(rows, install)| <= PER_INSTALL_INVENTORY)
    && (forall a, b :: a in rows && b in rows && a != b && rows[a].install == rows[b].install
                       ==> rows[a].name != rows[b].name)
  }

  lemma RowsOfGrown(rows: Table, id: string, v: VoiceRow, install: string)
    requires id !in rows
    ensures |RowsOf(rows[id := v], install)| == |RowsOf(rows, install)| + if install == v.install then 1 else 0
  {
    assert RowsOf(rows[id := v], install)
        == if install == v.install then RowsOf(rows, install) + {id} else RowsOf(rows, install);
  }

  lemma CreateKeepsSound(rows: Table, id: string, v: VoiceRow)
    requires Sound(rows) && CreateOutcome(rows, id, v, false) == Created
    ensures Sound(rows[id := v])
  {
    var grown := rows[id := v];
    forall install ensures |RowsOf(grown, install)| <= PER_INSTALL_INVENTORY {
      RowsOfGrown(rows, id, v, install);
    }
  }

  lemma DeleteKeepsSound(rows: Table, id: string)
    requires Sound(rows)
    ensures Sound(rows - {id})
  {
    var less := rows - {id};
    forall install ensures |RowsOf(less, install)| <= PER_INSTALL_INVENTORY {
      SubsetIsSmaller(RowsOf(less, install), RowsOf(rows, install));
    }
  }

  // ---------------------------------------------------------------- processes

  /** Where a request stands; `books` holds the close-outs an enrolment has issued for its reservation. */
  datatype Process =
    | Checking(install: string, name: string)
    | Reserving(install: string, name: string)
    | Calling(install: string, name: string)
    | Settling(install: string, name: string, upstream: string)
    | Recording(install: string, name: string, upstream: string, books: seq<Closing>)
    | Undoing(upstream: string, books: seq<Closing>)
    | Enrolled(reserved: bool, called: bool, unbilled: bool, books: seq<Closing>)
    | Finding(install: string, id: string)
    | Unregistering(install: string, id: string, upstream: string)
    | Dropping(install: string, id: string, upstream: string)
    | Deleted

  /**
   The table, the registrations live in the provider's account, the ids enrolment calls have returned,
   those reported as orphaned, every row id ever made, and the requests in progress.
   */
  datatype System = System(rows: Table, live: set<string>, returned: set<string>, orphaned: set<string>,
                           usedIds: set<string>, procs: map<nat, Process>)

  datatype Action =
    | Begin(p: nat, start: Process)
    | Check(p: nat, ceilingReached: bool)
    | Reserve(p: nat, admitted: bool)
    | SampleUnusable(p: nat)
    | Register(p: nat, id: string)
    | RegisterFails(p: nat, unbilled: bool, stray: set<string>)
    | Settle(p: nat)
    | Record(p: nat, rowId: string, fault: bool)
    | Undo(p: nat, confirmed: bool, removed: bool)
    | Find(p: nat)
    | Unregister(p: nat, confirmed: bool, removed: bool)
    | Drop(p: nat, fault: bool)

  const QUOTE: int := 200_000_000_000

  /** What one enrolled voice is quoted, and charged, at the published rate. */
  lemma EnrolmentQuote()
    ensures var plan := NewPlan(ProviderQwen, QwenTTSClone, InputVoices, 1, 0);
            plan.Ok? && Built(plan.value) && plan.value.reservedPUSD == QUOTE
  {
  }

  predicate Starts(start: Process) { start.Checking? || start.Finding? }

  function At(s: System, p: nat): Process
    requires p in s.procs
  {
    s.procs[p]
  }

  function Move(s: System, p: nat, to: Process): System { s.(procs := s.procs[p := to]) }

  /** One step of one request; the provider and the store answer as they like. */
  ghost predicate Step(s: System, a: Action, t: System) {
    match a
    case Begin(p, start) => p !in s.procs && Starts(start) && t == Move(s, p, start)
    case Check(p, ceilingReached) =>
      && p in s.procs && At(s, p).Checking?
      && var e := At(s, p);
         var refused := |RowsOf(s.rows, e.install)| >= PER_INSTALL_INVENTORY || NameTaken(s.rows, e.install, e.name);
         t == Move(s, p, if refused || ceilingReached
                         then Enrolled(false, false, false, []) else Reserving(e.install, e.name))
    case Reserve(p, admitted) =>
      && p in s.procs && At(s, p).Reserving?
      && t == Move(s, p, if admitted
                         then Calling(At(s, p).install, At(s, p).name) else Enrolled(false, false, false, []))
    case SampleUnusable(p) =>
      && p in s.procs && At(s, p).Calling?
      && t == Move(s, p, Enrolled(true, false, false, [GivenBack]))
    case Register(p, id) =>
      && p in s.procs && At(s, p).Calling? && id !in s.returned && id !in s.live
      && t == Move(s, p, Settling(At(s, p).install, At(s, p).name, id))
              .(live := s.live + {id}, returned := s.returned + {id})
    case RegisterFails(p, unbilled, stray) =>
      && p in s.procs && At(s, p).Calling? && stray !! s.returned
      && t == Move(s, p, Enrolled(true, true, unbilled, [if unbilled then GivenBack else Charged(QUOTE)]))
              .(live := s.live + stray)
    case Settle(p) =>
      && p in s.procs && At(s, p).Settling?
      && t == Move(s, p, Recording(At(s, p).install, At(s, p).name, At(s, p).upstream, [Charged(QUOTE)]))
    case Record(p, rowId, fault) =>
      && p in s.procs && At(s, p).Recording? && rowId !in s.usedIds
      && var e := At(s, p);
         var v := VoiceRow(e.install, e.name, e.upstream);
         if CreateOutcome(s.rows, rowId, v, fault) == Created
         then t == Move(s, p, Enrolled(true, true, false, e.books))
                   .(rows := s.rows[rowId := v], usedIds := s.usedIds + {rowId})
         else t == Move(s, p, Undoing(e.upstream, e.books))
    case Undo(p, confirmed, removed) =>
      && p in s.procs && At(s, p).Undoing? && (confirmed ==> removed)
      && var e := At(s, p);
         t == Move(s, p, Enrolled(true, true, false, e.books))
              .(live := if removed then s.live - {e.upstream} else s.live,
                orphaned := if confirmed then s.orphaned else s.orphaned + {e.upstream})
    case Find(p) =>
      && p in s.procs && At(s, p).Finding?
      && var e := At(s, p);
         t == Move(s, p, if Owns(s.rows, e.install, e.id)
                         then Unregistering(e.install, e.id, s.rows[e.id].upstream) else Deleted)
    case Unregister(p, confirmed, removed) =>
      && p in s.procs && At(s, p).Unregistering? && (confirmed ==> removed)
      && var e := At(s, p);
         t == Move(s, p, if confirmed then Dropping(e.install, e.id, e.upstream) else Deleted)
              .(live := if removed then s.live - {e.upstream} else s.live)
    case Drop(p, fault) =>
      && p in s.procs && At(s, p).Dropping?
      && var e := At(s, p);
         t == Move(s, p, Deleted).(rows := if !fault && Owns(s.rows, e.install, e.id) then s.rows - {e.id} else s.rows)
  }

  // ---------------------------------------------------------------- what every step keeps

  predicate HeldByRow(s: System, up: string) { exists id :: id in s.rows && s.rows[id].upstream == up }

  /** An enrolment that is over paid the plan's price for a call that may have been billed, and nothing otherwise. */
  predicate PricedAs(x: Process, plan: Plan) {
    x.Enrolled? ==>
      x.books == if !x.reserved then []
                 else if x.called && !x.unbilled then [Charged(plan.reservedPUSD)] else [GivenBack]
  }

  predicate InFlight(x: Process, up: string) { (x.Settling? || x.Recording? || x.Undoing?) && x.upstream == up }

  predicate HeldByProcess(s: System, up: string) { exists p :: p in s.procs && InFlight(s.procs[p], up) }

  /** A live registration whose id came back is in a row, still in an enrolment's hands, or reported. */
  predicate Accounted(s: System, up: string) {
    up in s.live && up in s.returned ==> HeldByRow(s, up) || HeldByProcess(s, up) || up in s.orphaned
  }

  /** A deletion knows the registration of the row it found, and drops a row only once that is gone. */
  predicate ProcessHolds(s: System, x: Process) {
    match x
    case Unregistering(_, id, up) => id in s.usedIds && up in s.returned && (id in s.rows ==> s.rows[id].upstream == up)
    case Dropping(_, id, up) =>
      id in s.usedIds && up in s.returned && up !in s.live && (id in s.rows ==> s.rows[id].upstream == up)
    case Settling(_, _, up) => up in s.returned
    case Recording(_, _, up, books) => up in s.returned && books == [Charged(QUOTE)]
    case Undoing(up, books) => up in s.returned && books == [Charged(QUOTE)]
    case Enrolled(reserved, called, unbilled, books) =>
      books == if !reserved then [] else if called && !unbilled then [Charged(QUOTE)] else [GivenBack]
    case _ => true
  }

  ghost predicate Inv(s: System) {
    && Sound(s.rows)
    && s.rows.Keys <= s.usedIds
    && (forall id :: id in s.rows ==> s.rows[id].upstream in s.returned)
    && (forall up :: Accounted(s, up))
    && (forall p :: p in s.procs ==> ProcessHolds(s, s.procs[p]))
  }

  /** A process other than the mover stands where it stood. */
  lemma OthersStand(s: System, a: Action, t: System, p: nat)
    requires Step(s, a, t)
    ensures p in t.procs <==> p in s.procs || p == a.p
    ensures p != a.p && p in s.procs ==> t.procs[p] == s.procs[p]
    ensures s.returned <= t.returned && s.usedIds <= t.usedIds && s.orphaned <= t.orphaned
  {
  }

  lemma TableStaysSound(s: System, a: Action, t: System)
    requires Sound(s.rows) && Step(s, a, t)
    ensures Sound(t.rows)
  {
    match a
    case Record(p, rowId, fault) =>
      var e := At(s, p);
      var v := VoiceRow(e.install, e.name, e.upstream);
      if CreateOutcome(s.rows, rowId, v, fault) == Created { CreateKeepsSound(s.rows, rowId, v); }
    case Drop(p, fault) =>
      DeleteKeepsSound(s.rows, At(s, p).id);
    case _ =>
  }

  lemma ProcessKeepsHolding(s: System, a: Action, t: System, p: nat)
    requires Inv(s) && Step(s, a, t) && p in t.procs
    ensures ProcessHolds(t, t.procs[p])
  {
    OthersStand(s, a, t, p);
    if p in s.procs { assert ProcessHolds(s, s.procs[p]); }
  }

  /** What the mover holds, it keeps holding, has recorded, has reported or has seen removed. */
  lemma MoverAccounts(s: System, a: Action, t: System, up: string)
    requires Inv(s) && Step(s, a, t) && a.p in s.procs && InFlight(s.procs[a.p], up)
    ensures Accounted(t, up)
  {
    match a
    case Settle(p) => assert p in t.procs && InFlight(t.procs[p], up);
    case Record(p, rowId, fault) =>
      if t.procs[p].Undoing? {
        assert InFlight(t.procs[p], up);
      } else {
        assert rowId in t.rows && t.rows[rowId].upstream == up;
      }
    case Undo(p, confirmed, removed) =>
    case _ =>
  }

  lemma StaysAccounted(s: System, a: Action, t: System, up: string)
    requires Inv(s) && Step(s, a, t)
    ensures Accounted(t, up)
  {
    assert Accounted(s, up);
    if a.Register? && up == a.id {
      assert InFlight(t.procs[a.p], up);
    } else if up in t.live && up in t.returned && up !in t.orphaned {
      assert up in s.live && up in s.returned;
      if HeldByRow(s, up) {
        var id :| id in s.rows && s.rows[id].upstream == up;
        assert a.p in s.procs ==> ProcessHolds(s, s.procs[a.p]);
        assert id in t.rows && t.rows[id].upstream == up;
      } else {
        var p :| p in s.procs && InFlight(s.procs[p], up);
        OthersStand(s, a, t, p);
        if p == a.p { MoverAccounts(s, a, t, up); } else { assert InFlight(t.procs[p], up); }
      }
    }
  }

  lemma StepKeepsInv(s: System, a: Action, t: System)
    requires Inv(s) && Step(s, a, t)
    ensures Inv(t)
  {
    TableStaysSound(s, a, t);
    forall up ensures Accounted(t, up) {
      StaysAccounted(s, a, t, up);
    }
    forall p | p in t.procs ensures ProcessHolds(t, t.procs[p]) {
      ProcessKeepsHolding(s, a, t, p);
    }
    RowsAreReturned(s, a, t);
  }

  lemma RowsAreReturned(s: System, a: Action, t: System)
    requires Inv(s) && Step(s, a, t)
    ensures t.rows.Keys <= t.usedIds
    ensures forall id :: id in t.rows ==> t.rows[id].upstream in t.returned
  {
    if a.Record? { assert ProcessHolds(s, s.procs[a.p]); }
  }

  // ---------------------------------------------------------------- whole runs

  const Empty := System(map[], {}, {}, {}, {}, map[])

  ghost predicate StepAt(actions: seq<Action>, states: seq<System>, k: nat)
    requires |states| == |actions| + 1 && k < |actions|
  {
    Step(states[k], actions[k], states[k + 1])
  }

  ghost predicate IsRun(actions: seq<Action>, states: seq<System>) {
    && |states| == |actions| + 1 && states[0] == Empty
    && forall k :: 0 <= k < |actions| ==> StepAt(actions, states, k)
  }

  lemma {:induction false} RunKeepsInv(actions: seq<Action>, states: seq<System>, n: nat)
    requires IsRun(actions, states) && n <= |actions|
    ensures Inv(states[n])
  {
    if n > 0 {
      RunKeepsInv(actions, states, n - 1);
      assert StepAt(actions, states, n - 1);
      StepKeepsInv(states[n - 1], actions[n - 1], states[n]);
    } else {
      forall install ensures |RowsOf(Empty.rows, install)| == 0 {
        assert RowsOf(Empty.rows, install) == {};
      }
    }
  }

  /**
   Over every interleaving of enrolments and deletions: an install never holds more than its inventory
   or one name twice; a live registration whose enrolment is over is in a row or reported; and every
   finished enrolment closed its reservation once, refunding only what was never called or never billed.
   */
  lemma InventoryIsKept(actions: seq<Action>, states: seq<System>, n: nat)
    requires IsRun(actions, states) && n <= |actions|
    ensures var s := states[n];
            && Sound(s.rows)
            && (forall up :: up in s.live && up in s.returned && !HeldByProcess(s, up)
                             ==> HeldByRow(s, up) || up in s.orphaned)
            && (forall p :: p in s.procs && s.procs[p].Enrolled? && s.procs[p].reserved ==> |s.procs[p].books| == 1)
            && (forall p :: p in s.procs && s.procs[p].Enrolled? && GivenBack in s.procs[p].books
                  ==> !s.procs[p].called || s.procs[p].unbilled)
    ensures var plan := NewPlan(ProviderQwen, QwenTTSClone, InputVoices, 1, 0);
            plan.Ok? && forall p :: p in states[n].procs ==> PricedAs(states[n].procs[p], plan.value)
  {
    EnrolmentQuote();
    RunKeepsInv(actions, states, n);
    var s := states[n];
    forall up | up in s.live && up in s.returned && !HeldByProcess(s, up) ensures HeldByRow(s, up) || up in s.orphaned {
      assert Accounted(s, up);
    }
    forall p | p in s.procs && s.procs[p].Enrolled?
      ensures s.procs[p].reserved ==> |s.procs[p].books| == 1
      ensures GivenBack in s.procs[p].books ==> !s.procs[p].called || s.procs[p].unbilled
    {
      assert ProcessHolds(s, s.procs[p]);
    }
    var plan := NewPlan(ProviderQwen, QwenTTSClone, InputVoices, 1, 0).value;
    forall p | p in s.procs ensures PricedAs(s.procs[p], plan) {
      assert ProcessHolds(s, s.procs[p]);
    }
  }
}
