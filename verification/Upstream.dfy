/**
 One provider call: the single classification of every outcome, the bounded failover loop and its
 breaker, and the race between the first-byte timer and the request.
 */
module Upstream {
  import opened Arithmetic
  import opened Billing

  datatype FaultClass =
    | OK | ClientCancel | Busy | KeyAuth | KeyOpen | Timeout | UpstreamFault | UpstreamFinal
    | UpstreamRefused | UpstreamRejected

  /** The decisions a class carries: what the client is told, whether to retry, whether the breaker counts it. */
  datatype Outcome = Outcome(class_: FaultClass, status: int, retryable: bool, breakerFault: bool, exposure: Exposure)

  function Resolve(c: FaultClass): Outcome {
    match c
    case ClientCancel => Outcome(c, 499, false, false, ChargePossible)
    case Busy => Outcome(c, 503, false, false, DefinitelyUnbilled)
    case KeyAuth => Outcome(c, 502, true, false, DefinitelyUnbilled)
    case KeyOpen => Outcome(c, 503, true, false, DefinitelyUnbilled)
    case Timeout => Outcome(c, 504, false, true, ChargePossible)
    case UpstreamFault => Outcome(c, 502, false, true, ChargePossible)
    case UpstreamFinal => Outcome(c, 502, false, true, ChargePossible)
    case UpstreamRefused => Outcome(c, 502, false, true, DefinitelyUnbilled)
    case UpstreamRejected => Outcome(c, 400, false, false, DefinitelyUnbilled)
    case OK => Outcome(OK, 0, false, false, ChargePossible)
  }

  /** An HTTP status that is not a success. */
  type Failing = code: int | code < 200 || 300 <= code witness 500

  /** What came back, if anything; the two error forms say whether the error is a cancellation or a deadline. */
  datatype Reply =
    | Unbuildable
    | AllKeysGated
    | KeyBreakerOpen
    | SendError(canceled: bool, deadline: bool)
    | Status(code: Failing)
    | PeekError(canceled: bool, deadline: bool)
    | FirstByte

  /** One attempt: the reply, and the flags as they stood when it was classified. */
  datatype Try = Try(reply: Reply, parentDone: bool, timedOut: bool, disarmed: bool)

  function ClassifyStatus(code: Failing): FaultClass {
    if code == 429 then Busy
    else if code == 401 || code == 403 then KeyAuth
    else if code == 400 || code == 413 || code == 422 then UpstreamRejected
    else if code == 504 then Timeout
    else if code == 502 || code == 503 then UpstreamFault
    else if 300 <= code < 500 then UpstreamRefused
    else UpstreamFinal
  }

  /** A parent cancellation is looked for before a timeout, so it is never misread as one. */
  function ClassifyError(canceled: bool, deadline: bool, parentDone: bool, timedOut: bool): FaultClass {
    if !timedOut && parentDone && canceled then ClientCancel
    else if timedOut || deadline then Timeout
    else UpstreamFault
  }

  function Classify(t: Try): FaultClass {
    match t.reply
    case Unbuildable => UpstreamFault
    case AllKeysGated => Busy
    case KeyBreakerOpen => KeyOpen
    case SendError(canceled, deadline) => ClassifyError(canceled, deadline, t.parentDone, t.timedOut)
    case Status(code) => ClassifyStatus(code)
    case PeekError(canceled, deadline) => ClassifyError(canceled, deadline, t.parentDone, t.timedOut)
    case FirstByte => if t.disarmed then OK else Timeout
  }

  /**
   No key was free to send with, or the provider refused explicitly before generating anything. A
   request that cannot be built is not among them, although it is never sent either: the source
   classes it as possibly charged.
   */
  predicate Refused(r: Reply) {
    r.AllKeysGated? || r.KeyBreakerOpen? || (r.Status? && 300 <= r.code < 500)
  }

  function OutcomeOf(t: Try): Outcome { Resolve(Classify(t)) }

  /**
   One attempt is classed as definitely unbilled exactly when it was refused; only refused attempts
   are retried; a cancellation, a 429 and a rejected request are never a breaker fault; and success
   means a first byte whose timer was disarmed in time.
   */
  lemma ClassesAreSound(t: Try)
    ensures OutcomeOf(t).exposure == DefinitelyUnbilled <==> Refused(t.reply)
    ensures OutcomeOf(t).retryable ==> Refused(t.reply) && !OutcomeOf(t).breakerFault
    ensures OutcomeOf(t).class_ in {ClientCancel, Busy, UpstreamRejected} ==> !OutcomeOf(t).breakerFault
    ensures OutcomeOf(t).class_ == OK <==> t.reply == FirstByte && t.disarmed
    ensures OutcomeOf(t).class_ == Classify(t)
  {
  }

  // ---------------------------------------------------------------- failover

  const MAX_ATTEMPTS: nat := 3

  /** A parent gone while the loop waits to retry: nothing was billable, and it is no fault. */
  const CanceledWaiting: Outcome := Resolve(ClientCancel).(exposure := DefinitelyUnbilled)

  /**
   How a failover loop over these attempts ends after `made` of them: every one before the last was
   retryable and waited out, and the last one decides unless the parent left during the wait after it.
   */
  predicate Ends(tries: seq<Try>, gone: seq<bool>, made: nat, o: Outcome) {
    && |tries| == |gone| == MAX_ATTEMPTS && 1 <= made <= MAX_ATTEMPTS
    && (forall k :: 0 <= k < made - 1 ==> OutcomeOf(tries[k]).retryable && !gone[k])
    && if OutcomeOf(tries[made - 1]).retryable && made < MAX_ATTEMPTS
       then gone[made - 1] && o == CanceledWaiting
       else o == OutcomeOf(tries[made - 1])
  }

  /** The bounded loop; `gone[k]` says whether the parent context ended during the backoff after attempt k. */
  method Attempt(tries: seq<Try>, gone: seq<bool>) returns (o: Outcome, made: nat)
    requires |tries| == |gone| == MAX_ATTEMPTS
    ensures Ends(tries, gone, made, o)
  {
    o, made := Resolve(OK), 0;
    while made < MAX_ATTEMPTS
      invariant 0 <= made <= MAX_ATTEMPTS
      invariant forall k :: 0 <= k < made ==> OutcomeOf(tries[k]).retryable && !gone[k] && k < MAX_ATTEMPTS - 1
    {
      o := OutcomeOf(tries[made]);
      made := made + 1;
      if o.class_ == OK || !o.retryable || made == MAX_ATTEMPTS { return; }
      if gone[made - 1] { return CanceledWaiting, made; }
    }
  }

  /**
   One possible charge per call: all attempts but the last were refused, and the outcome is classed as
   definitely unbilled exactly when every attempt was.
   */
  lemma OnePossibleCharge(tries: seq<Try>, gone: seq<bool>, made: nat, o: Outcome)
    requires Ends(tries, gone, made, o)
    ensures forall k :: 0 <= k < made - 1 ==> Refused(tries[k].reply)
    ensures o.exposure == DefinitelyUnbilled <==> forall k :: 0 <= k < made ==> Refused(tries[k].reply)
    ensures o.class_ == OK <==> tries[made - 1].reply == FirstByte && tries[made - 1].disarmed
    ensures o.class_ in {ClientCancel, Busy, UpstreamRejected} ==> !o.breakerFault
  {
    forall k | 0 <= k < made ensures OutcomeOf(tries[k]).exposure == DefinitelyUnbilled <==> Refused(tries[k].reply) {
      ClassesAreSound(tries[k]);
    }
    forall k | 0 <= k < made - 1 ensures Refused(tries[k].reply) {
      ClassesAreSound(tries[k]);
    }
    ClassesAreSound(tries[made - 1]);
  }

  datatype CallResult = Stream | CallFailure(status: int, exposure: Exposure)

  /** What the breaker recorded: nothing when it refused to execute, else whether the call was a fault. */
  datatype Recorded = NotExecuted | Success | Fault

  /** What an executed call reports and records once its failover loop has ended. */
  ghost predicate Concludes(tries: seq<Try>, gone: seq<bool>, made: nat, r: CallResult, recorded: Recorded) {
    exists o ::
      && Ends(tries, gone, made, o)
      && recorded == (if o.class_ != OK && o.breakerFault then Fault else Success)
      && r == (if o.class_ == OK then Stream else CallFailure(o.status, o.exposure))
  }

  /**
   One provider call through the breaker. `openBefore` and `openNow` say whether it is open at the
   fast path and when the call is executed.
   */
  method Do(configured: bool, openBefore: bool, openNow: bool, tries: seq<Try>, gone: seq<bool>)
    returns (r: CallResult, recorded: Recorded, made: nat)
    requires |tries| == |gone| == MAX_ATTEMPTS
    ensures if !configured || openBefore || openNow
            then
              && made == 0 && recorded == NotExecuted
              && r == CallFailure(if configured then 503 else 502, DefinitelyUnbilled)
            else Concludes(tries, gone, made, r, recorded)
  {
    made := 0;
    if !configured { return CallFailure(502, DefinitelyUnbilled), NotExecuted, made; }
    if openBefore { return CallFailure(503, DefinitelyUnbilled), NotExecuted, made; }
    if openNow { return CallFailure(503, DefinitelyUnbilled), NotExecuted, made; }
    var o;
    o, made := Attempt(tries, gone);
    if o.class_ == OK { return Stream, Success, made; }
    recorded := if o.breakerFault then Fault else Success;
    r := CallFailure(o.status, o.exposure);
  }

  /**
   An executed call reports definitely unbilled exactly when every attempt it made was refused, a
   stream comes from the one attempt that was not, and the breaker counts a failure exactly when the
   last attempt's own class is a fault and the caller did not leave before the next one.
   */
  lemma CallIsSound(tries: seq<Try>, gone: seq<bool>, made: nat, r: CallResult, recorded: Recorded)
    requires Concludes(tries, gone, made, r, recorded)
    ensures 1 <= made <= MAX_ATTEMPTS && |tries| == MAX_ATTEMPTS
    ensures forall k :: 0 <= k < made - 1 ==> Refused(tries[k].reply)
    ensures r.CallFailure? && r.exposure == DefinitelyUnbilled
            <==> forall k :: 0 <= k < made ==> Refused(tries[k].reply)
    ensures r == Stream <==> tries[made - 1].reply == FirstByte && tries[made - 1].disarmed
    ensures recorded == Fault <==> OutcomeOf(tries[made - 1]).breakerFault
  {
    var o :|
      && Ends(tries, gone, made, o)
      && recorded == (if o.class_ != OK && o.breakerFault then Fault else Success)
      && r == (if o.class_ == OK then Stream else CallFailure(o.status, o.exposure));
    OnePossibleCharge(tries, gone, made, o);
    ClassesAreSound(tries[made - 1]);
  }

  function Sum(bills: seq<int>): int {
    if |bills| == 0 then 0 else Sum(bills[..|bills| - 1]) + bills[|bills| - 1]
  }

  lemma {:induction false} SumOfZeros(bills: seq<int>)
    requires forall k :: 0 <= k < |bills| ==> bills[k] == 0
    ensures Sum(bills) == 0
  {
    if |bills| != 0 { SumOfZeros(bills[..|bills| - 1]); }
  }

  /**
   One reservation never hides several charges: when a refusal costs nothing and no single attempt
   costs more than the quote, all attempts of a call together cost at most the quote, and nothing when
   the call is reported definitely unbilled.
   */
  lemma AttemptsCostAtMostOne(tries: seq<Try>, gone: seq<bool>, made: nat, r: CallResult, recorded: Recorded,
                              bills: seq<int>, quote: int)
    requires Concludes(tries, gone, made, r, recorded) && |bills| == made
    requires forall k :: 0 <= k < made && k < |tries| ==>
      0 <= bills[k] <= quote && (Refused(tries[k].reply) ==> bills[k] == 0)
    ensures 0 <= Sum(bills) <= quote
    ensures r.CallFailure? && r.exposure == DefinitelyUnbilled ==> Sum(bills) == 0
  {
    CallIsSound(tries, gone, made, r, recorded);
    SumOfZeros(bills[..made - 1]);
  }

  // ---------------------------------------------------------------- key rotation

  const U64: int := 0x1_0000_0000_0000_0000

  /** The key the scan looks at in its i-th step; the cursor sum is a uint64. */
  function KeyAt(start: nat, i: nat, n: nat): (k: nat)
    requires n > 0
    ensures k < n
  {
    ((start + i) % U64) % n
  }

  /** The first key in rotation that is neither cooling down nor open; a gated key is never chosen. */
  method PickKey(gated: seq<bool>, start: nat) returns (picked: Option<nat>)
    ensures |gated| == 0 ==> picked == None
    ensures picked.Some? ==> picked.value < |gated| && !gated[picked.value]
    ensures picked.Some? ==>
      exists i :: 0 <= i < |gated| && picked.value == KeyAt(start, i, |gated|) && GatedBefore(gated, start, i)
    ensures picked.None? ==> |gated| == 0 || GatedBefore(gated, start, |gated|)
  {
    var i := 0;
    while i < |gated|
      invariant 0 <= i <= |gated| && (|gated| > 0 ==> GatedBefore(gated, start, i))
    {
      var k := KeyAt(start, i, |gated|);
      if !gated[k] { return Some(k); }
      i := i + 1;
    }
    picked := None;
  }

  predicate GatedBefore(gated: seq<bool>, start: nat, i: nat)
    requires |gated| > 0
  {
    forall j :: 0 <= j < i ==> gated[KeyAt(start, j, |gated|)]
  }

  ghost predicate Visited(start: nat, n: nat, k: nat)
    requires n > 0
  {
    exists i :: 0 <= i < n && KeyAt(start, i, n) == k
  }

  lemma VisitsKey(start: nat, n: nat, k: nat)
    requires 0 < n && start < U64 && k < n && (start + n <= U64 || (n <= U64 && U64 % n == 0))
    ensures Visited(start, n, k)
  {
    var i := (k - start) % n;
    var q := (k - start) / n;
    assert start + i == -q * n + k by { assert k - start == q * n + i; }
    ModIs(start + i, -q, n, k);
    if start + i >= U64 {
      var m := U64 / n;
      assert (start + i) % U64 == start + i - U64;
      assert start + i - U64 == (-q - m) * n + k by { assert U64 == m * n; }
      ModIs(start + i - U64, -q - m, n, k);
    }
    assert KeyAt(start, i, n) == k;
  }

  /** Before the wrap the scan looks at U64 - 1, U64 - 2, ... modulo n, counting down from its end. */
  lemma BeforeWrap(n: nat, j: nat)
    requires 0 < n <= U64 && 1 <= j < n && U64 % n != 0
    ensures (U64 - j) % n == if j <= U64 % n then U64 % n - j else n + U64 % n - j
  {
    var r, q := U64 % n, U64 / n;
    assert U64 == q * n + r;
    if j <= r {
      ModIs(U64 - j, q, n, r - j);
    } else {
      assert (q - 1) * n == q * n - n;
      ModIs(U64 - j, q - 1, n, n + r - j);
    }
  }

  lemma NotReached(n: nat, r: nat, left: nat, j: nat)
    requires 0 < r < n && 1 <= j <= left < n
    ensures (if j <= r then r - j else n + r - j) != n - if left < n - r then left else n - r
  {
  }

  lemma SkipsKey(start: nat, n: nat, i: nat)
    requires 0 < n <= U64 && start < U64 < start + n && U64 % n != 0 && i < n
    ensures KeyAt(start, i, n) != Skipped(start, n)
  {
    var left, sum := U64 - start, start + i;
    if i < left {
      ModIs(sum, 0, U64, sum);
      BeforeWrap(n, left - i);
      NotReached(n, U64 % n, left, left - i);
    } else {
      ModIs(sum, 1, U64, i - left);
      ModIs(i - left, 0, n, i - left);
    }
  }

  /** The key a scan across the cursor's wrap-around passes over. */
  function Skipped(start: nat, n: nat): nat
    requires 0 < n && start < U64 < start + n
  {
    var left, room := U64 - start, n - U64 % n;
    n - if left < room then left else room
  }

  /**
   A scan looks at every key exactly when the cursor does not wrap inside it, or the number of keys
   divides 2^64; otherwise some healthy key can be passed over.
   */
  lemma ScanVisitsEveryKey(start: nat, n: nat)
    requires 0 < n <= U64 && start < U64
    ensures (forall k | 0 <= k < n :: Visited(start, n, k)) <==> start + n <= U64 || U64 % n == 0
  {
    if start + n <= U64 || U64 % n == 0 {
      forall k: nat | k < n ensures Visited(start, n, k) {
        VisitsKey(start, n, k);
      }
    } else {
      var k := Skipped(start, n);
      forall i: nat | i < n ensures KeyAt(start, i, n) != k {
        SkipsKey(start, n, i);
      }
      assert 0 <= k < n && !Visited(start, n, k);
    }
  }

  // ---------------------------------------------------------------- the first-byte race

  /** The timer goroutine: waiting, running, holding the flag, having marked the timeout, done. */
  datatype TimerAt = Waiting | Running | Holding | Marked | Gone

  /** The request goroutine, from sending the request to returning what it concluded. */
  datatype RequestAt =
    | Sending
    | Peeking
    | Disarming(reply: Reply)
    | Stopping(reply: Reply, won: bool)
    | Branching(reply: Reply, won: bool)
    | Releasing(reply: Reply, won: bool)
    | Classifying(reply: Reply, won: bool)
    | Returned(class_: FaultClass, handedOff: bool)

  /** Shared flags and both program counters; canceledByTimer and released say who canceled the context. */
  datatype Race = Race(armed: bool, timedOut: bool, parentDone: bool, canceledByTimer: bool, released: bool,
                       timer: TimerAt, request: RequestAt)

  const RaceStart := Race(true, false, false, false, false, Waiting, Sending)

  predicate TimerStep(s: Race, t: Race) {
    match s.timer
    case Waiting => t == s.(timer := Running)
    case Running => t == if s.armed then s.(armed := false, timer := Holding) else s.(timer := Gone)
    case Holding => t == s.(timedOut := true, timer := Marked)
    case Marked => t == s.(canceledByTimer := true, timer := Gone)
    case Gone => false
  }

  predicate RequestStep(s: Race, t: Race) {
    match s.request
    case Sending =>
      t == s.(request := Peeking) ||
      (t.request.Disarming? && !t.request.reply.PeekError? && !t.request.reply.FirstByte? &&
       t == s.(request := t.request))
    case Peeking =>
      t.request.Disarming? && (t.request.reply.PeekError? || t.request.reply.FirstByte?) &&
      t == s.(request := t.request)
    case Disarming(reply) => t == s.(armed := false, request := Stopping(reply, s.armed))
    case Stopping(reply, won) =>
      t == s.(timer := if s.timer == Waiting then Gone else s.timer, request := Branching(reply, won))
    case Branching(reply, won) =>
      t == s.(request := if reply == FirstByte && won then Returned(OK, true) else Releasing(reply, won))
    case Releasing(reply, won) => t == s.(released := true, request := Classifying(reply, won))
    case Classifying(reply, won) =>
      t == s.(request := Returned(Classify(Try(reply, s.parentDone, s.timedOut, won)), false))
    case Returned(_, _) => false
  }

  /** Either goroutine moves, or the caller's context ends. */
  predicate RaceStep(s: Race, t: Race) {
    TimerStep(s, t) || RequestStep(s, t) || t == s.(parentDone := true)
  }

  ghost predicate IsRace(states: seq<Race>) {
    && |states| > 0 && states[0] == RaceStart
    && forall k :: 0 < k < |states| ==> RaceStep(states[k - 1], states[k])
  }

  /** The timer took the flag, and has canceled or is going to. */
  predicate TimerWon(s: Race) { s.timer == Holding || s.timer == Marked || s.canceledByTimer }

  predicate RequestWon(r: RequestAt) {
    match r
    case Stopping(_, won) => won
    case Branching(_, won) => won
    case Releasing(_, won) => won
    case Classifying(_, won) => won
    case Returned(_, handedOff) => handedOff
    case _ => false
  }

  predicate RaceInv(s: Race) {
    && !(TimerWon(s) && RequestWon(s.request))
    && (s.armed ==> !TimerWon(s) && !RequestWon(s.request) && !s.timedOut)
    && (s.armed <==> !TimerWon(s) && (s.request.Sending? || s.request.Peeking? || s.request.Disarming?))
    && (s.timedOut ==> s.timer == Marked || s.canceledByTimer)
    && (s.released <==> s.request.Classifying? || (s.request.Returned? && !s.request.handedOff))
    && (s.request.Returned? ==> (s.request.handedOff <==> s.request.class_ == OK))
    && (s.request.Classifying? ==> !(s.request.reply == FirstByte && s.request.won))
    && (s.request.Releasing? ==> !(s.request.reply == FirstByte && s.request.won))
  }

  lemma RaceStepKeepsInv(s: Race, t: Race)
    requires RaceInv(s) && RaceStep(s, t)
    ensures RaceInv(t)
  {
    if RequestStep(s, t) && s.request.Classifying? {
      ClassesAreSound(Try(s.request.reply, s.parentDone, s.timedOut, s.request.won));
    }
  }

  /**
   In every interleaving: a stream handed to the caller has not been canceled by the timer and never
   will be, a timer that took the flag means no hand-off, success and hand-off are the same thing, and
   every return without a hand-off has released its context.
   */
  lemma {:induction false} HandOffIsNeverTimedOut(states: seq<Race>, n: nat)
    requires IsRace(states) && n < |states|
    ensures var s := states[n];
            && RaceInv(s)
            && (s.request.Returned? && s.request.handedOff ==> !s.canceledByTimer && !TimerWon(s) && !s.armed)
            && (TimerWon(s) && s.request.Returned? ==> !s.request.handedOff && s.request.class_ != OK)
            && (s.request.Returned? && !s.request.handedOff ==> s.released)
  {
    if n > 0 {
      HandOffIsNeverTimedOut(states, n - 1);
      RaceStepKeepsInv(states[n - 1], states[n]);
    }
  }
}
