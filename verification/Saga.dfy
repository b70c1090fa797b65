/**
 The money half of a request: reserve, call the provider, close the books. The chat handler and the
 synchronous paid capabilities are modelled step by step against what the provider and the client
 did, panics included; Accounting composes them with the ledger.
 */
module Saga {
  import opened Billing
  import opened Ledger

  // ---------------------------------------------------------------- what a call can show

  /** One SSE line: its public rewrite (None when it is not relayable), its usage frame, and whether it is [DONE]. */
  datatype Line = Line(client: Option<string>, usage: Usage, done: bool)

  /**
   A provider 2xx body. `budget` is the number of sink writes that succeed before the client is gone;
   `scanErr` is what the scanner reports when the loop is left.
   */
  datatype Response =
    | Streaming(lines: seq<Line>, budget: nat, scanErr: bool)
    | Whole(readable: bool, client: Option<string>, usage: Usage)

  datatype OpenResult = Failure(exposure: Exposure) | NoStream | Panicked | Answered(body: Response)

  /**
   Where a handler panics, outside the call itself: before it, or after it and before any settlement is
   deferred or made. A later panic in a stream meets the deferred settlement, as a failed write does.
   */
  datatype Panic = NoPanic | BeforeCall | AfterCall

  datatype UnitResult = Done | Error(unbilled: bool)

  /** Everything a handler can have seen of one reserved call by the time it closes the books, or is lost to a panic. */
  datatype Evidence =
    | NeverCalled
    | Lost
    | Chat(outcome: OpenResult)
    | Synchronous(unit: InputClass, units: Int64, result: UnitResult)

  // ---------------------------------------------------------------- amounts

  /** The charge for a usage report: its cost when it has one, otherwise the whole quote. */
  function UsageAmount(plan: Plan, usage: Usage): Int64 {
    var cost := Cost(plan, usage);
    if cost.Priced? then cost.cost else plan.reservedPUSD
  }

  /** How many lines a client may see: relayable ones, up to and including the first [DONE]. */
  function Shown(lines: seq<Line>, from: nat): (n: nat)
    requires from <= |lines|
    ensures from <= n <= |lines|
    decreases |lines| - from
  {
    if from == |lines| || lines[from].client.None? then from
    else if lines[from].done then from + 1
    else Shown(lines, from + 1)
  }

  /** The usage frames of the first n lines. */
  function Usages(lines: seq<Line>, n: nat): (frames: seq<Usage>)
    requires n <= |lines|
    ensures |frames| == n
  {
    if n == 0 then [] else Usages(lines, n - 1) + [lines[n - 1].usage]
  }

  /** The sink writes that relay the first n lines: each rewrite, then its newline. */
  function Chunks(lines: seq<Line>, n: nat): (chunks: seq<string>)
    requires n <= |lines|
    ensures |chunks| == 2 * n
  {
    if n == 0 then []
    else Chunks(lines, n - 1) + [if lines[n - 1].client.Some? then lines[n - 1].client.value else "", "\n"]
  }

  /** [DONE] was read: every line before it was relayable and reached the client. */
  predicate Terminal(lines: seq<Line>, budget: nat) {
    var n := Shown(lines, 0);
    n > 0 && lines[n - 1].done && 2 * (n - 1) <= budget
  }

  /** The terminal read counts as clean unless the sentinel was relayed and the scanner then reported an error. */
  predicate CleanEnd(lines: seq<Line>, budget: nat, scanErr: bool) {
    Terminal(lines, budget) && (scanErr ==> budget < 2 * Shown(lines, 0))
  }

  function StreamAmount(plan: Plan, lines: seq<Line>, budget: nat, scanErr: bool): Int64 {
    if CleanEnd(lines, budget, scanErr) then UsageAmount(plan, Accumulate(Usages(lines, Shown(lines, 0))))
    else plan.reservedPUSD
  }

  /** What reached the client. */
  function Written(lines: seq<Line>, budget: nat): seq<string> {
    var all := Chunks(lines, Shown(lines, 0));
    if budget < |all| then all[..budget] else all
  }

  function ResponseAmount(plan: Plan, body: Response): Int64 {
    match body
    case Streaming(lines, budget, scanErr) => StreamAmount(plan, lines, budget, scanErr)
    case Whole(readable, client, usage) =>
      if readable && client.Some? then UsageAmount(plan, usage) else plan.reservedPUSD
  }

  /** The one close-out a reserved call gets; a lost handler leaves it to the orphan scan. */
  function CloseOut(plan: Plan, seen: Evidence): Closing {
    match seen
    case NeverCalled => GivenBack
    case Lost => Abandoned
    case Chat(Failure(exposure)) => if MayHaveCharged(exposure) then Charged(plan.reservedPUSD) else GivenBack
    case Chat(NoStream) => Charged(plan.reservedPUSD)
    case Chat(Panicked) => GivenBack
    case Chat(Answered(body)) => Charged(ResponseAmount(plan, body))
    case Synchronous(unit, units, result) => UnitCloseOut(plan, unit, units, result)
  }

  function UnitCloseOut(plan: Plan, unit: InputClass, units: Int64, result: UnitResult): Closing {
    match result
    case Error(unbilled) => if unbilled then GivenBack else Charged(plan.reservedPUSD)
    case Done =>
      var cost := UnitCost(plan, unit, units);
      Charged(if cost.Ok? then cost.value else plan.reservedPUSD)
  }

  // ---------------------------------------------------------------- the relay loop

  /** The first i lines were relayed and none of them was [DONE]. */
  predicate Passed(lines: seq<Line>, i: nat) {
    i <= |lines| && forall k :: 0 <= k < i ==> lines[k].client.Some? && !lines[k].done
  }

  lemma {:induction false} PassedShown(lines: seq<Line>, i: nat)
    requires Passed(lines, i)
    ensures Shown(lines, 0) == Shown(lines, i)
  {
    if i > 0 { PassedShown(lines, i - 1); }
  }

  lemma {:induction false} ChunksGrow(lines: seq<Line>, m: nat, n: nat)
    requires m <= n <= |lines|
    ensures Chunks(lines, n)[..2 * m] == Chunks(lines, m)
  {
    if m < n { ChunksGrow(lines, m, n - 1); }
  }

  lemma AccumulateNext(lines: seq<Line>, i: nat)
    requires i < |lines|
    ensures Accumulate(Usages(lines, i + 1)) == MergeSnapshot(Accumulate(Usages(lines, i)), lines[i].usage)
  {
    assert Usages(lines, i + 1)[..i] == Usages(lines, i);
  }

  /** The deferred settlement: from the accumulated usage, or the whole quote when the stream never reached its end. */
  function SettleOnExit(plan: Plan, usage: Usage, terminal: bool): (amount: Int64)
    ensures !terminal || usage.malformed ==> amount == plan.reservedPUSD
  {
    UsageAmount(plan, if terminal then usage else MergeSnapshot(usage, MalformedUsage))
  }

  /** What the deferred settlement starts from: the joined usage of a clean end, or something that keeps the quote. */
  predicate Leaves(lines: seq<Line>, budget: nat, scanErr: bool, usage: Usage, terminal: bool) {
    if CleanEnd(lines, budget, scanErr) then terminal && usage == Accumulate(Usages(lines, Shown(lines, 0)))
    else !terminal || usage.malformed
  }

  /** The two sink writes of one line; the first that fails ends the relay. */
  method WriteLine(client: string, written: seq<string>, budget: nat) returns (ok: bool, after: seq<string>)
    requires |written| <= budget
    ensures ok <==> |written| + 2 <= budget
    ensures after == if ok then written + [client, "\n"] else (written + [client])[..budget]
  {
    if |written| >= budget { return false, written; }
    after := written + [client];
    if |after| >= budget { return false, after; }
    after := after + ["\n"];
    ok := true;
  }

  /** Relays the lines of a stream to the client until [DONE], a line that may not pass, or a failed write. */
  method RelayLines(lines: seq<Line>, budget: nat, scanErr: bool)
    returns (usage: Usage, terminal: bool, written: seq<string>)
    ensures Leaves(lines, budget, scanErr, usage, terminal)
    ensures written == Written(lines, budget)
  {
    var i := 0;
    usage, terminal, written := NoUsage, false, [];
    while i < |lines| && !terminal
      invariant i <= |lines| && 2 * i <= budget && written == Chunks(lines, i)
      invariant if terminal then i > 0 && Passed(lines, i - 1) && lines[i - 1].client.Some? && lines[i - 1].done
                else Passed(lines, i)
      invariant usage == Accumulate(Usages(lines, i))
    {
      if lines[i].client.None? {
        Stopped(lines, i, budget, scanErr);
        return MergeSnapshot(usage, MalformedUsage), terminal, written;
      }
      AccumulateNext(lines, i);
      usage := MergeSnapshot(usage, lines[i].usage);
      terminal := lines[i].done;
      var ok;
      ok, written := WriteLine(lines[i].client.value, written, budget);
      if !ok {
        CutShort(lines, i, budget, scanErr);
        return;
      }
      i := i + 1;
    }
    if terminal { Finished(lines, i - 1, budget, scanErr); } else { Stopped(lines, i, budget, scanErr); }
    if scanErr { usage := MergeSnapshot(usage, MalformedUsage); }
  }

  /** Relays a stream and returns the one amount its deferred settlement issues. */
  method StreamThrough(plan: Plan, lines: seq<Line>, budget: nat, scanErr: bool)
    returns (amount: Int64, written: seq<string>)
    ensures amount == StreamAmount(plan, lines, budget, scanErr)
    ensures written == Written(lines, budget)
  {
    var usage, terminal;
    usage, terminal, written := RelayLines(lines, budget, scanErr);
    amount := SettleOnExit(plan, usage, terminal);
  }

  /** The stream ends, or turns unrelayable, with nothing but relayed lines behind it: the end was never read. */
  lemma Stopped(lines: seq<Line>, i: nat, budget: nat, scanErr: bool)
    requires Passed(lines, i) && 2 * i <= budget && (i < |lines| ==> lines[i].client.None?)
    ensures Written(lines, budget) == Chunks(lines, i) && !CleanEnd(lines, budget, scanErr)
  {
    PassedShown(lines, i);
  }

  /** [DONE] was read on line i and relayed: the end is clean unless the scanner then reports an error. */
  lemma Finished(lines: seq<Line>, i: nat, budget: nat, scanErr: bool)
    requires i < |lines| && Passed(lines, i) && lines[i].client.Some? && lines[i].done && 2 * (i + 1) <= budget
    ensures Shown(lines, 0) == i + 1 && Written(lines, budget) == Chunks(lines, i + 1)
    ensures CleanEnd(lines, budget, scanErr) <==> !scanErr
  {
    PassedShown(lines, i);
  }

  lemma TakeOfTake(all: seq<string>, part: seq<string>, k: nat)
    requires k <= |part| <= |all| && all[..|part|] == part
    ensures all[..k] == part[..k]
  {
  }

  /** Cutting the writes of n lines inside line i. */
  lemma CutInside(lines: seq<Line>, i: nat, n: nat, budget: nat)
    requires i < n <= |lines| && lines[i].client.Some? && 2 * i <= budget < 2 * i + 2
    ensures Chunks(lines, n)[..budget] == (Chunks(lines, i) + [lines[i].client.value])[..budget]
  {
    ChunksGrow(lines, i + 1, n);
    TakeOfTake(Chunks(lines, n), Chunks(lines, i + 1), budget);
    var upTo := Chunks(lines, i) + [lines[i].client.value];
    assert Chunks(lines, i + 1) == upTo + ["\n"];
    TakeOfTake(Chunks(lines, i + 1), upTo, budget);
  }

  /** A failed write on line i: the client has the writes before it, and the end was read only if line i was [DONE]. */
  lemma CutShort(lines: seq<Line>, i: nat, budget: nat, scanErr: bool)
    requires i < |lines| && Passed(lines, i) && lines[i].client.Some? && 2 * i <= budget < 2 * i + 2
    ensures Written(lines, budget) == (Chunks(lines, i) + [lines[i].client.value])[..budget]
    ensures CleanEnd(lines, budget, scanErr) <==> lines[i].done
    ensures lines[i].done ==> Shown(lines, 0) == i + 1
  {
    PassedShown(lines, i);
    CutInside(lines, i, Shown(lines, 0), budget);
  }

  /**
   A streaming settlement differs from the quote only when [DONE] was read after relayable lines only,
   no frame up to it was malformed or negative, and then it is the cost of the joined snapshots.
   */
  lemma RefundOnlyAtCleanEnd(plan: Plan, lines: seq<Line>, budget: nat, scanErr: bool)
    ensures var n, amount := Shown(lines, 0), StreamAmount(plan, lines, budget, scanErr);
            amount != plan.reservedPUSD ==>
              && 0 < n <= |lines| && lines[n - 1].done && Passed(lines, n - 1) && lines[n - 1].client.Some?
              && (forall k :: 0 <= k < n ==> !lines[k].usage.malformed && !HasNegative(lines[k].usage))
              && Cost(plan, Accumulate(Usages(lines, n))) == Priced(amount)
  {
    var n := Shown(lines, 0);
    ShownPasses(lines, 0);
    if StreamAmount(plan, lines, budget, scanErr) != plan.reservedPUSD {
      PricedIsUntainted(plan, Accumulate(Usages(lines, n)));
      UntaintedFrames(lines, n);
    }
  }

  lemma PricedIsUntainted(plan: Plan, u: Usage)
    ensures Cost(plan, u).Priced? ==> !u.malformed
  {
  }

  lemma UntaintedFrames(lines: seq<Line>, n: nat)
    requires n <= |lines| && !Accumulate(Usages(lines, n)).malformed
    ensures forall k :: 0 <= k < n ==> !lines[k].usage.malformed && !HasNegative(lines[k].usage)
  {
    AccumulateJoins(Usages(lines, n));
    forall k | 0 <= k < n ensures !lines[k].usage.malformed && !HasNegative(lines[k].usage) {
      UsageAt(lines, n, k);
      assert Usages(lines, n)[k] in Usages(lines, n);
    }
  }

  lemma {:induction false} ShownPasses(lines: seq<Line>, from: nat)
    requires from <= |lines|
    ensures var n := Shown(lines, from);
            && (forall k :: from <= k < n ==> lines[k].client.Some?)
            && (forall k :: from <= k < n - 1 ==> !lines[k].done)
    decreases |lines| - from
  {
    if from < |lines| && lines[from].client.Some? && !lines[from].done { ShownPasses(lines, from + 1); }
  }

  lemma {:induction false} UsageAt(lines: seq<Line>, n: nat, k: nat)
    requires k < n <= |lines|
    ensures Usages(lines, n)[k] == lines[k].usage
  {
    if k < n - 1 { UsageAt(lines, n - 1, k); }
  }

  /** Whatever provider and client do, the client has seen a prefix of the relayable lines and nothing after [DONE]. */
  lemma ClientSeesPrefix(lines: seq<Line>, budget: nat)
    ensures Written(lines, budget) <= Chunks(lines, Shown(lines, 0)) <= Chunks(lines, |lines|)
    ensures forall k :: 0 <= k < Shown(lines, 0) - 1 ==> !lines[k].done
  {
    ChunksGrow(lines, Shown(lines, 0), |lines|);
    ShownPasses(lines, 0);
  }

  // ---------------------------------------------------------------- handlers

  /** What a handler did, in order; Left is a panic that unwinds with the reservation still open. */
  datatype Event =
    | Took(plan: Plan) | Called | Closed(how: Closing) | Left | Relayed(chunks: seq<string>) | Replied(status: int)

  datatype Phase = Idle | Holding(plan: Plan, called: bool) | Broken

  /** Call the provider only under a reservation, once; close every reservation once, or leave it open. */
  function Next(p: Phase, e: Event): Phase {
    match e
    case Took(plan) => if p.Idle? then Holding(plan, false) else Broken
    case Called => if p.Holding? && !p.called then Holding(p.plan, true) else Broken
    case Closed(_) => if p.Holding? then Idle else Broken
    case Left => if p.Holding? then Idle else Broken
    case _ => p
  }

  function PhaseOf(trace: seq<Event>): Phase {
    if |trace| == 0 then Idle else Next(PhaseOf(trace[..|trace| - 1]), trace[|trace| - 1])
  }

  function CloseOuts(trace: seq<Event>): seq<Closing> {
    if |trace| == 0 then []
    else
      var rest, last := CloseOuts(trace[..|trace| - 1]), trace[|trace| - 1];
      if last.Closed? then rest + [last.how] else rest
  }

  function Reservations(trace: seq<Event>): nat {
    if |trace| == 0 then 0
    else Reservations(trace[..|trace| - 1]) + if trace[|trace| - 1].Took? then 1 else 0
  }

  function LeftOpen(trace: seq<Event>): nat {
    if |trace| == 0 then 0 else LeftOpen(trace[..|trace| - 1]) + if trace[|trace| - 1].Left? then 1 else 0
  }

  /** In an orderly trace each reservation is closed once or left open by a panic; at most one is still owed. */
  lemma {:induction false} OneCloseOutEach(trace: seq<Event>)
    requires PhaseOf(trace) != Broken
    ensures Reservations(trace)
         == |CloseOuts(trace)| + LeftOpen(trace) + if PhaseOf(trace).Holding? then 1 else 0
  {
    if |trace| != 0 { OneCloseOutEach(trace[..|trace| - 1]); }
  }

  /** What the handler of an admitted request comes to see. */
  function SeenBy(breakerOpen: bool, slotFree: bool, answer: OpenResult, panic: Panic): Evidence {
    if panic.BeforeCall? then Lost
    else if breakerOpen || !slotFree then NeverCalled
    else if panic.AfterCall? && answer.Answered? then Lost
    else Chat(answer)
  }

  class Gateway {
    const slots: nat
    var inUse: nat
    var trace: seq<Event>

    constructor (slots: nat)
      ensures this.slots == slots && inUse == 0 && trace == []
    {
      this.slots := slots;
      inUse, trace := 0, [];
    }

    method Emit(e: Event)
      modifies `trace
      ensures trace == old(trace) + [e]
      ensures PhaseOf(trace) == Next(PhaseOf(old(trace)), e)
      ensures CloseOuts(trace) == CloseOuts(old(trace)) + if e.Closed? then [e.how] else []
      ensures LeftOpen(trace) == LeftOpen(old(trace)) + if e.Left? then 1 else 0
    {
      trace := trace + [e];
      assert trace[..|trace| - 1] == old(trace);
    }

    /**
     A free slot at once, or one another request frees within the queue wait; `freed` says whether one
     was before the wait ended or the client went away.
     */
    method AcquireSlot(queueWait: int, freed: bool) returns (ok: bool)
      modifies `inUse
      ensures ok <==> old(inUse) < slots || (queueWait > 0 && freed)
      ensures inUse == if old(inUse) < slots then old(inUse) + 1 else old(inUse)
    {
      if inUse < slots {
        inUse := inUse + 1;
        return true;
      }
      return queueWait > 0 && freed;
    }

    /**
     The tail of a chat request. A reserved one gets exactly one close-out, decided by what the call
     showed, unless a panic outside the call leaves it open for the orphan scan; the provider is called
     at most once, under the reservation; the slot is always returned.
     */
    method Handle(plan: Plan, admitted: bool, breakerOpen: bool, queueWait: int, freed: bool, clientGone: bool,
                  answer: OpenResult, panic: Panic)
      returns (seen: Evidence)
      requires PhaseOf(trace) == Idle && inUse <= slots && (freed ==> inUse > 0)
      modifies `inUse, `trace
      ensures PhaseOf(trace) == Idle && old(trace) <= trace
      ensures CloseOuts(trace) == CloseOuts(old(trace)) +
                if admitted && !seen.Lost? then [CloseOut(plan, seen)] else []
      ensures LeftOpen(trace) == LeftOpen(old(trace)) + if admitted && seen.Lost? then 1 else 0
      ensures seen == SeenBy(breakerOpen, old(inUse) < slots || (queueWait > 0 && freed), answer, panic)
      ensures inUse == if admitted && !panic.BeforeCall? && !seen.NeverCalled? && old(inUse) == slots
                       then old(inUse) - 1 else old(inUse)
    {
      seen := SeenBy(breakerOpen, inUse < slots || (queueWait > 0 && freed), answer, panic);
      if !admitted {
        Emit(Replied(429));
        return;
      }
      Emit(Took(plan));
      if panic.BeforeCall? {
        Emit(Left);
        return;
      }
      Serve(plan, breakerOpen, queueWait, freed, clientGone, answer, panic.AfterCall?);
    }

    /** A reserved request: shed before the call, or carried through it under a slot. */
    method Serve(plan: Plan, breakerOpen: bool, queueWait: int, freed: bool, clientGone: bool, answer: OpenResult,
                 panics: bool)
      requires PhaseOf(trace) == Holding(plan, false) && inUse <= slots && (freed ==> inUse > 0)
      modifies `inUse, `trace
      ensures PhaseOf(trace) == Idle && old(trace) <= trace
      ensures var shed := breakerOpen || !(old(inUse) < slots || (queueWait > 0 && freed));
              var lost := !shed && panics && answer.Answered?;
              && CloseOuts(trace) == CloseOuts(old(trace)) +
                   (if lost then [] else if shed then [GivenBack] else [CloseOut(plan, Chat(answer))])
              && LeftOpen(trace) == LeftOpen(old(trace)) + (if lost then 1 else 0)
              && inUse == if !shed && old(inUse) == slots then old(inUse) - 1 else old(inUse)
    {
      if breakerOpen {
        Shed(true);
        return;
      }
      var ok := AcquireSlot(queueWait, freed);
      if !ok {
        Shed(!clientGone);
        return;
      }
      Forward(plan, answer, panics);
      inUse := inUse - 1;
    }

    /** Gives the reservation back before any provider call; a client that went away gets no reply. */
    method Shed(reply: bool)
      requires PhaseOf(trace).Holding?
      modifies `trace
      ensures PhaseOf(trace) == Idle && LeftOpen(trace) == LeftOpen(old(trace))
      ensures trace == old(trace) + if reply then [Closed(GivenBack), Replied(503)] else [Closed(GivenBack)]
      ensures CloseOuts(trace) == CloseOuts(old(trace)) + [GivenBack]
    {
      Emit(Closed(GivenBack));
      if reply { Emit(Replied(503)); }
    }

    /** Opens the stream and closes the books; an answer whose handling panics first leaves them open. */
    method Forward(plan: Plan, answer: OpenResult, panics: bool)
      requires PhaseOf(trace) == Holding(plan, false)
      modifies `trace
      ensures PhaseOf(trace) == Idle && old(trace) <= trace
      ensures CloseOuts(trace) == CloseOuts(old(trace)) +
                if panics && answer.Answered? then [] else [CloseOut(plan, Chat(answer))]
      ensures LeftOpen(trace) == LeftOpen(old(trace)) + if panics && answer.Answered? then 1 else 0
    {
      var exposed, armed := false, true;
      Emit(Called);
      match answer {
        case Panicked =>
        case Failure(exposure) =>
          exposed := MayHaveCharged(exposure);
          if exposed {
            armed := false;
            KeepQuote(plan);
          } else {
            Emit(Replied(502));
          }
        case NoStream =>
          exposed, armed := true, false;
          KeepQuote(plan);
        case Answered(body) =>
          exposed, armed := true, false;
          if panics { Emit(Left); } else { Relay(plan, body); }
      }
      // deferred: runs on every way out, a panic included
      if armed && !exposed { Emit(Closed(GivenBack)); }
    }

    /** Settles an outcome that may have been billed at its whole quote, and answers with the failure. */
    method KeepQuote(plan: Plan)
      requires PhaseOf(trace).Holding?
      modifies `trace
      ensures PhaseOf(trace) == Idle && LeftOpen(trace) == LeftOpen(old(trace))
      ensures trace == old(trace) + [Closed(Charged(plan.reservedPUSD)), Replied(502)]
      ensures CloseOuts(trace) == CloseOuts(old(trace)) + [Charged(plan.reservedPUSD)]
    {
      Emit(Closed(Charged(plan.reservedPUSD)));
      Emit(Replied(502));
    }

    method Relay(plan: Plan, body: Response)
      requires PhaseOf(trace) == Holding(plan, true)
      modifies `trace
      ensures PhaseOf(trace) == Idle && old(trace) <= trace
      ensures CloseOuts(trace) == CloseOuts(old(trace)) + [Charged(ResponseAmount(plan, body))]
      ensures LeftOpen(trace) == LeftOpen(old(trace))
      ensures body.Streaming? ==> Relayed(Written(body.lines, body.budget)) in trace[|old(trace)|..]
    {
      match body
      case Streaming(lines, budget, scanErr) =>
        Emit(Replied(200));
        var amount, written := StreamThrough(plan, lines, budget, scanErr);
        Emit(Relayed(written));
        Emit(Closed(Charged(amount)));
        assert trace[|old(trace)|..][1] == Relayed(written);
      case Whole(readable, client, usage) =>
        if !readable || client.None? {
          KeepQuote(plan);
          return;
        }
        Emit(Closed(Charged(UsageAmount(plan, usage))));
        Emit(Replied(200));
        Emit(Relayed([client.value]));
    }

    /** A synchronous paid capability: reserve, call, and close the books by what the call proved, if it returns. */
    method Do(plan: Plan, admitted: bool, unit: InputClass, units: Int64, result: UnitResult, panics: bool)
      requires PhaseOf(trace) == Idle
      modifies `trace
      ensures PhaseOf(trace) == Idle && old(trace) <= trace
      ensures CloseOuts(trace) == CloseOuts(old(trace)) +
                if admitted && !panics then [CloseOut(plan, Synchronous(unit, units, result))] else []
      ensures LeftOpen(trace) == LeftOpen(old(trace)) + if admitted && panics then 1 else 0
    {
      if !admitted { return; }
      Emit(Took(plan));
      Emit(Called);
      if panics {
        Emit(Left);
        return;
      }
      CloseBooks(plan, unit, units, result);
    }

    method CloseBooks(plan: Plan, unit: InputClass, units: Int64, result: UnitResult)
      requires PhaseOf(trace) == Holding(plan, true)
      modifies `trace
      ensures PhaseOf(trace) == Idle && old(trace) <= trace
      ensures CloseOuts(trace) == CloseOuts(old(trace)) + [UnitCloseOut(plan, unit, units, result)]
      ensures LeftOpen(trace) == LeftOpen(old(trace))
    {
      if result.Error? {
        if result.unbilled {
          Emit(Closed(GivenBack));
        } else {
          Emit(Closed(Charged(plan.reservedPUSD)));
        }
        return;
      }
      var cost := UnitCost(plan, unit, units);
      var charge := if cost.Ok? then cost.value else plan.reservedPUSD;
      Emit(Closed(Charged(charge)));
    }
  }

  // ---------------------------------------------------------------- the chat quote

  function Min(a: Int64, b: Int64): Int64 { if a < b then a else b }

  function BillingPlan(provider: Provider, model: Model, promptEst: Int64, maxTok: Int64): Result<Plan> {
    var card := Lookup(provider, model);
    if card.Err? then Err(card.error)
    else if provider == ProviderQwen then
      NewPlan(provider, model, InputStandard, card.value.inputLimit, card.value.outputLimit)
    else NewPlan(provider, model, InputStandard, Min(promptEst, card.value.inputLimit), maxTok)
  }

  /**
   The chat quote exists for the token model alone, whatever the caller estimates or asks for, and no
   usage within the model's hard limits is ever priced above it.
   */
  lemma ChatQuoteCoversTheModel(provider: Provider, model: Model, promptEst: Int64, maxTok: Int64, u: Usage)
    ensures var plan := BillingPlan(provider, model, promptEst, maxTok);
            && (plan.Ok? <==> provider == ProviderQwen && model == Qwen37Plus)
            && (plan.Ok? && u.prompt <= QWEN37_INPUT_LIMIT && u.total - u.prompt <= QWEN37_OUTPUT_LIMIT
                ==> UsageAmount(plan.value, u) <= plan.value.reservedPUSD)
  {
    if provider == ProviderQwen && model == Qwen37Plus {
      CardsAreMonotone(provider, model);
      var card := Lookup(provider, model).value;
      assert ScanTiers(card, card.tiers[1..], card.inputLimit) == Some(card.tiers[1]);
      var plan := BillingPlan(provider, model, promptEst, maxTok).value;
      if u.prompt <= QWEN37_INPUT_LIMIT && u.total - u.prompt <= QWEN37_OUTPUT_LIMIT {
        QuoteBoundsCost(plan, u);
      }
    }
  }
}
