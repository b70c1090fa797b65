/**
 The per-key rate limiter: bounded token buckets in recency order, refilled linearly (over exact
 reals), which an override may tighten but never relax.
 */
module RateLimit {
  import opened Recency

  const DEFAULT_MAX: nat := 16384

  datatype Bucket = Bucket(tokens: real, last: real, ovrLimit: int, ovrUntil: real)

  /** The override counts only while it is active and strictly tighter. */
  function EffLimit(b: Bucket, perMin: int, now: real): int {
    if b.ovrLimit > 0 && now < b.ovrUntil && b.ovrLimit < perMin then b.ovrLimit else perMin
  }

  function Least(a: real, b: real): real { if a < b then a else b }

  /** What refills in dt seconds at a per-minute limit. */
  function Gained(dt: real, limit: int): real { dt * (limit as real / 60.0) }

  function Refilled(b: Bucket, perMin: int, now: real): real {
    var limit := EffLimit(b, perMin, now);
    Least(b.tokens + Gained(now - b.last, limit), limit as real)
  }

  predicate Passes(b: Bucket, perMin: int, now: real) { Refilled(b, perMin, now) >= 1.0 }

  function Requested(b: Bucket, perMin: int, now: real): Bucket {
    var t := Refilled(b, perMin, now);
    b.(tokens := if t >= 1.0 then t - 1.0 else t, last := now)
  }

  function Throttled(b: Bucket, perMin: int, limit: int, until: real): Bucket {
    b.(ovrLimit := limit, ovrUntil := until,
       tokens := if 0 < limit < perMin && b.tokens > limit as real then limit as real else b.tokens)
  }

  // ---------------------------------------------------------------- what a resident key can get through

  /** What happens to one bucket: a request, or an override, under the global rate then in force. */
  datatype Event = Request(at: real, rate: int) | Throttle(limit: int, until: real, rate: int)

  function Step(b: Bucket, e: Event): Bucket {
    match e
    case Request(at, rate) => Requested(b, rate, at)
    case Throttle(limit, until, rate) => Throttled(b, rate, limit, until)
  }

  function After(b: Bucket, events: seq<Event>): Bucket {
    if |events| == 0 then b else Step(After(b, events[..|events| - 1]), events[|events| - 1])
  }

  predicate AdmittedBy(b: Bucket, e: Event) { e.Request? && Passes(b, e.rate, e.at) }

  function Admitted(b: Bucket, events: seq<Event>): nat {
    if |events| == 0 then 0
    else
      var init, e := events[..|events| - 1], events[|events| - 1];
      Admitted(b, init) + if AdmittedBy(After(b, init), e) then 1 else 0
  }

  /** Request times do not go back, from the bucket's own last refill on. */
  predicate Monotone(b: Bucket, events: seq<Event>) {
    && (forall i :: 0 <= i < |events| && events[i].Request? ==> b.last <= events[i].at)
    && (forall i, j :: 0 <= i < j < |events| && events[i].Request? && events[j].Request?
                       ==> events[i].at <= events[j].at)
  }

  /** Every request of the run met an effective limit of at most cap. */
  predicate CapInForce(b: Bucket, cap: int, events: seq<Event>) {
    |events| == 0 ||
    (var init, e := events[..|events| - 1], events[|events| - 1];
     CapInForce(b, cap, init) && (e.Request? ==> 0 < EffLimit(After(b, init), e.rate, e.at) <= cap))
  }

  predicate Within(events: seq<Event>, start: real, d: real) {
    forall i :: 0 <= i < |events| && events[i].Request? ==> start <= events[i].at <= start + d
  }

  /** The run holds a request at all. */
  predicate Asked(events: seq<Event>) {
    |events| > 0 && (events[|events| - 1].Request? || Asked(events[..|events| - 1]))
  }

  lemma {:induction false} LastRefill(b: Bucket, events: seq<Event>, t: real)
    requires forall i :: 0 <= i < |events| && events[i].Request? ==> events[i].at <= t
    ensures if Asked(events) then After(b, events).last <= t else After(b, events).last == b.last
  {
    if |events| != 0 { LastRefill(b, events[..|events| - 1], t); }
  }

  lemma GainedMono(dt: real, few: int, many: int)
    requires dt >= 0.0 && 0 <= few <= many
    ensures 0.0 <= Gained(dt, few) <= Gained(dt, many)
  {
    var x, y := few as real / 60.0, many as real / 60.0;
    assert dt * x <= dt * y;
  }

  lemma GainedAdds(first: real, second: real, limit: int)
    ensures Gained(first, limit) + Gained(second, limit) == Gained(first + second, limit)
  {
  }

  lemma GainedGrows(short: real, long: real, limit: int)
    requires short <= long && limit >= 0
    ensures Gained(short, limit) <= Gained(long, limit)
  {
    GainedMono(long - short, 0, limit);
    GainedAdds(short, long - short, limit);
  }

  /** Tokens held plus requests admitted since start never exceed one full bucket plus what refilled since. */
  predicate Accounted(b: Bucket, admitted: nat, cap: int, start: real) {
    && start <= b.last && (admitted > 0 ==> b.tokens >= 0.0)
    && b.tokens + admitted as real <= cap as real + Gained(b.last - start, cap)
  }

  lemma {:induction false} AdmissionsAreAccounted(b: Bucket, cap: int, events: seq<Event>, start: real)
    requires CapInForce(b, cap, events) && Monotone(b, events) && cap > 0
    requires forall i :: 0 <= i < |events| && events[i].Request? ==> start <= events[i].at
    ensures if Asked(events) then Accounted(After(b, events), Admitted(b, events), cap, start)
            else Admitted(b, events) == 0
  {
    if |events| != 0 {
      var init, e := events[..|events| - 1], events[|events| - 1];
      AdmissionsAreAccounted(b, cap, init, start);
      if e.Request? {
        LastRefill(b, init, e.at);
        RequestAccounts(After(b, init), e.rate, cap, e.at, start, Admitted(b, init), Asked(init));
      }
    }
  }

  lemma RequestAccounts(s: Bucket, rate: int, cap: int, at: real, start: real, admitted: nat, asked: bool)
    requires s.last <= at && start <= at && 0 < EffLimit(s, rate, at) <= cap
    requires if asked then Accounted(s, admitted, cap, start) else admitted == 0
    ensures Accounted(Requested(s, rate, at), admitted + if Passes(s, rate, at) then 1 else 0, cap, start)
  {
    GainedMono(at - s.last, EffLimit(s, rate, at), cap);
    GainedMono(at - start, 0, cap);
    if asked { GainedAdds(s.last - start, at - s.last, cap); }
  }

  /**
   In any interval of d seconds in which every request met a limit of at most cap, a key that stays
   resident gets at most cap + cap * d / 60 requests through, whatever overrides are installed and
   however the global rate changes meanwhile.
   */
  lemma AdmitsAreBounded(b: Bucket, cap: int, events: seq<Event>, start: real, d: real)
    requires cap > 0 && d >= 0.0
    requires CapInForce(b, cap, events) && Monotone(b, events) && Within(events, start, d)
    ensures Admitted(b, events) as real <= cap as real + Gained(d, cap)
  {
    AdmissionsAreAccounted(b, cap, events, start);
    GainedMono(d, 0, cap);
    if Admitted(b, events) > 0 {
      LastRefill(b, events, start + d);
      GainedGrows(After(b, events).last - start, d, cap);
    }
  }

  /** No request met a global rate that is not positive, or one above top. */
  predicate RatesUpTo(events: seq<Event>, top: int) {
    forall i :: 0 <= i < |events| && events[i].Request? ==> 0 < events[i].rate <= top
  }

  predicate RatesPositive(events: seq<Event>) {
    forall i :: 0 <= i < |events| && events[i].Request? ==> 0 < events[i].rate
  }

  /** The largest global rate is a cap on every run: an override only ever tightens. */
  lemma {:induction false} GlobalRateCaps(b: Bucket, top: int, events: seq<Event>)
    requires RatesUpTo(events, top)
    ensures CapInForce(b, top, events)
  {
    if |events| != 0 { GlobalRateCaps(b, top, events[..|events| - 1]); }
  }

  /** The run holds only requests, all before the bucket's override ends. */
  predicate InForce(b: Bucket, events: seq<Event>) {
    forall i :: 0 <= i < |events| ==> events[i].Request? && events[i].at < b.ovrUntil
  }

  /** An override is a cap for as long as it is in force, whatever the global rate. */
  lemma {:induction false} OverrideCaps(b: Bucket, events: seq<Event>)
    requires 0 < b.ovrLimit && InForce(b, events) && RatesPositive(events)
    ensures CapInForce(b, b.ovrLimit, events)
    ensures After(b, events).ovrLimit == b.ovrLimit && After(b, events).ovrUntil == b.ovrUntil
  {
    if |events| != 0 { OverrideCaps(b, events[..|events| - 1]); }
  }

  /** A resident key never gets more than a minute's burst plus the linear refill at the largest rate it met. */
  lemma GlobalRateBound(b: Bucket, top: int, events: seq<Event>, start: real, d: real)
    requires top > 0 && d >= 0.0 && Monotone(b, events) && Within(events, start, d) && RatesUpTo(events, top)
    ensures Admitted(b, events) as real <= top as real + Gained(d, top)
  {
    GlobalRateCaps(b, top, events);
    AdmitsAreBounded(b, top, events, start, d);
  }

  /** While one override is in force, the same bound holds with the override for the rate. */
  lemma OverrideBound(b: Bucket, events: seq<Event>, start: real, d: real)
    requires 0 < b.ovrLimit && d >= 0.0 && Monotone(b, events) && Within(events, start, d)
    requires InForce(b, events) && RatesPositive(events)
    ensures Admitted(b, events) as real <= b.ovrLimit as real + Gained(d, b.ovrLimit)
  {
    OverrideCaps(b, events);
    AdmitsAreBounded(b, b.ovrLimit, events, start, d);
  }

  /** The bound is not met by refusing everything: a key idle for one token's refill time always gets through. */
  lemma IdleKeyPasses(b: Bucket, perMin: int, now: real)
    requires perMin > 0 && b.tokens >= 0.0
    requires now - b.last >= 60.0 / EffLimit(b, perMin, now) as real
    ensures Passes(b, perMin, now) && Requested(b, perMin, now).tokens >= 0.0
  {
    var limit := EffLimit(b, perMin, now);
    var idle := 60.0 / limit as real;
    assert idle * (limit as real / 60.0) == 1.0;
    GainedGrows(idle, now - b.last, limit);
  }

  /** An override never adds tokens and never raises the limit a request meets. */
  lemma OverridesOnlyTighten(b: Bucket, perMin: int, limit: int, until: real, now: real)
    requires perMin > 0 && (b.ovrLimit <= 0 || now >= b.ovrUntil)
    ensures Throttled(b, perMin, limit, until).tokens <= b.tokens
    ensures 0 < EffLimit(Throttled(b, perMin, limit, until), perMin, now) <= EffLimit(b, perMin, now)
    ensures Passes(Throttled(b, perMin, limit, until), perMin, now) && b.last <= now ==> Passes(b, perMin, now)
  {
    if b.last <= now {
      GainedMono(now - b.last, EffLimit(Throttled(b, perMin, limit, until), perMin, now), perMin);
    }
  }

  // ---------------------------------------------------------------- runs of the limiter

  type Buckets = map<string, Bucket>

  datatype State = State(buckets: Buckets, perMin: int)

  /** A call of the limiter, and when it was made. */
  datatype Call =
    | Ask(key: string, at: real)
    | SetLimit(key: string, limit: int, until: real, at: real)
    | NewRate(perMin: int, at: real)

  predicate For(c: Call, key: string) { !c.NewRate? && c.key == key }

  /** The bucket a call works on: the key's own, or the one it creates. */
  function BucketOf(was: Buckets, perMin: int, c: Call): Bucket
    requires !c.NewRate?
  {
    if c.key in was then was[c.key]
    else if c.Ask? then Bucket(perMin as real, c.at, 0, 0.0)
    else Bucket(if c.limit > perMin then perMin as real else c.limit as real, c.at, c.limit, c.until)
  }

  /** What the call leaves in that bucket. */
  function Left(was: Buckets, perMin: int, c: Call): Bucket
    requires !c.NewRate?
  {
    var b := BucketOf(was, perMin, c);
    match c
    case Ask(_, at) => Requested(b, perMin, at)
    case SetLimit(key, limit, until, _) => if key in was then Throttled(b, perMin, limit, until) else b
  }

  /** One call under a positive rate: its key's bucket is served, and the others stay or are evicted. */
  ghost predicate Serves(was: Buckets, now: Buckets, c: Call, ok: bool, perMin: int)
    requires !c.NewRate?
  {
    && c.key in now && now[c.key] == Left(was, perMin, c)
    && (forall k :: k in now && k != c.key ==> k in was && now[k] == was[k])
    && (c.Ask? ==> ok == Passes(BucketOf(was, perMin, c), perMin, c.at))
  }

  /** One call as the limiter promises it; a rate that is not positive lets everything through and keeps no books. */
  ghost predicate Answers(was: State, now: State, c: Call, ok: bool) {
    if c.NewRate? then now == was.(perMin := c.perMin)
    else
      && now.perMin == was.perMin
      && if was.perMin <= 0 then now.buckets == was.buckets && ok
         else Serves(was.buckets, now.buckets, c, ok, was.perMin)
  }

  ghost predicate AnswersAt(states: seq<State>, calls: seq<Call>, oks: seq<bool>, k: nat)
    requires |states| == |calls| + 1 && |oks| == |calls| && k < |calls|
  {
    Answers(states[k], states[k + 1], calls[k], oks[k])
  }

  /** The calls of a whole run, from an empty limiter, on a clock that does not go back. */
  ghost predicate Run(states: seq<State>, calls: seq<Call>, oks: seq<bool>) {
    && |states| == |calls| + 1 && |oks| == |calls| && states[0].buckets == map[]
    && (forall k :: 0 <= k < |calls| ==> AnswersAt(states, calls, oks, k))
    && (forall i, j :: 0 <= i < j < |calls| ==> calls[i].at <= calls[j].at)
  }

  /** The key is in the map in every state from m to n: never evicted. */
  ghost predicate Resident(states: seq<State>, key: string, m: nat, n: nat)
    requires n < |states|
  {
    forall k :: m <= k <= n ==> key in states[k].buckets
  }

  /** The limiter was on at each of the key's requests from m to n, at a rate of at most top. */
  ghost predicate RateUpTo(states: seq<State>, calls: seq<Call>, key: string, m: nat, n: nat, top: int)
    requires |states| == |calls| + 1 && n <= |calls|
  {
    forall k :: m <= k < n && calls[k].Ask? && calls[k].key == key ==> 0 < states[k].perMin <= top
  }

  /** The limiter was on at each of the key's requests from m to n. */
  ghost predicate On(states: seq<State>, calls: seq<Call>, key: string, m: nat, n: nat)
    requires |states| == |calls| + 1 && n <= |calls|
  {
    forall k :: m <= k < n && calls[k].Ask? && calls[k].key == key ==> 0 < states[k].perMin
  }

  /** What the calls from m to n mean for one key's bucket. */
  function EventsOf(states: seq<State>, calls: seq<Call>, key: string, m: nat, n: nat): seq<Event>
    requires |states| == |calls| + 1 && n <= |calls|
    decreases n
  {
    if n <= m then []
    else
      EventsOf(states, calls, key, m, n - 1) +
      if Counts(calls[n - 1], key, states[n - 1].perMin) then [EventOf(calls[n - 1], states[n - 1].perMin)] else []
  }

  predicate Counts(c: Call, key: string, rate: int) { For(c, key) && rate > 0 }

  function EventOf(c: Call, rate: int): Event
    requires !c.NewRate?
  {
    if c.Ask? then Request(c.at, rate) else Throttle(c.limit, c.until, rate)
  }

  /** How many of the key's requests from m to n the limiter answered with true. */
  function Granted(calls: seq<Call>, oks: seq<bool>, key: string, m: nat, n: nat): nat
    requires n <= |calls| == |oks|
    decreases n
  {
    if n <= m then 0
    else Granted(calls, oks, key, m, n - 1) + if GrantedAt(calls[n - 1], oks[n - 1], key) then 1 else 0
  }

  predicate GrantedAt(c: Call, ok: bool, key: string) { c.Ask? && c.key == key && ok }

  lemma OneMoreEvent(b: Bucket, events: seq<Event>, e: Event)
    ensures After(b, events + [e]) == Step(After(b, events), e)
    ensures Admitted(b, events + [e]) == Admitted(b, events) + if AdmittedBy(After(b, events), e) then 1 else 0
  {
    assert (events + [e])[..|events|] == events;
  }

  /** One call's part: nothing for another key, and one event and its admission for the key itself. */
  lemma CallIsEvent(was: State, now: State, c: Call, ok: bool, key: string, b: Bucket, events: seq<Event>)
    requires Answers(was, now, c, ok) && key in was.buckets && key in now.buckets
    requires was.buckets[key] == After(b, events) && (c.Ask? && c.key == key ==> was.perMin > 0)
    ensures var all := events + if Counts(c, key, was.perMin) then [EventOf(c, was.perMin)] else [];
            && now.buckets[key] == After(b, all)
            && Admitted(b, all) == Admitted(b, events) + if GrantedAt(c, ok, key) then 1 else 0
  {
    if Counts(c, key, was.perMin) {
      OneMoreEvent(b, events, EventOf(c, was.perMin));
    } else {
      assert events + [] == events;
    }
  }

  /** A resident key's bucket goes through exactly its own events, and the answers are exactly their admissions. */
  lemma {:induction false} RunsFollowTheBucket(states: seq<State>, calls: seq<Call>, oks: seq<bool>, key: string,
                                               m: nat, n: nat)
    requires Run(states, calls, oks) && m <= n <= |calls|
    requires Resident(states, key, m, n) && On(states, calls, key, m, n)
    ensures var events := EventsOf(states, calls, key, m, n);
            && states[n].buckets[key] == After(states[m].buckets[key], events)
            && Granted(calls, oks, key, m, n) == Admitted(states[m].buckets[key], events)
  {
    if m < n {
      RunsFollowTheBucket(states, calls, oks, key, m, n - 1);
      assert AnswersAt(states, calls, oks, n - 1);
      CallIsEvent(states[n - 1], states[n], calls[n - 1], oks[n - 1], key, states[m].buckets[key],
                  EventsOf(states, calls, key, m, n - 1));
    }
  }

  /** No bucket was refilled later than the calls that follow. */
  lemma {:induction false} RefillsPrecedeCalls(states: seq<State>, calls: seq<Call>, oks: seq<bool>, key: string,
                                               m: nat, k: nat)
    requires Run(states, calls, oks) && m <= k < |calls| && key in states[m].buckets
    ensures states[m].buckets[key].last <= calls[k].at
  {
    if m > 0 {
      assert AnswersAt(states, calls, oks, m - 1);
      assert calls[m - 1].at <= calls[k].at;
      if key in states[m - 1].buckets { RefillsPrecedeCalls(states, calls, oks, key, m - 1, k); }
    }
  }

  /** Every request of the key between m and n falls within d seconds of start. */
  predicate AskedWithin(calls: seq<Call>, key: string, m: nat, n: nat, start: real, d: real)
    requires n <= |calls|
  {
    forall k :: m <= k < n && calls[k].Ask? && calls[k].key == key ==> start <= calls[k].at <= start + d
  }

  /** The key's events keep the times of the calls they come from. */
  lemma {:induction false} EventTimes(states: seq<State>, calls: seq<Call>, key: string, m: nat, n: nat, b: Bucket,
                                      start: real, d: real)
    requires |states| == |calls| + 1 && n <= |calls| && AskedWithin(calls, key, m, n, start, d)
    requires forall i, j :: 0 <= i < j < |calls| ==> calls[i].at <= calls[j].at
    requires forall k :: m <= k < n ==> b.last <= calls[k].at
    ensures var events := EventsOf(states, calls, key, m, n);
            && Monotone(b, events) && Within(events, start, d)
            && forall i :: 0 <= i < |events| && events[i].Request? && m < n ==> events[i].at <= calls[n - 1].at
    decreases n
  {
    if m < n { EventTimes(states, calls, key, m, n - 1, b, start, d); }
  }

  /** And the rates in force at those calls. */
  lemma {:induction false} EventRates(states: seq<State>, calls: seq<Call>, key: string, m: nat, n: nat, top: int)
    requires |states| == |calls| + 1 && n <= |calls|
    ensures RateUpTo(states, calls, key, m, n, top) ==> RatesUpTo(EventsOf(states, calls, key, m, n), top)
    ensures RatesPositive(EventsOf(states, calls, key, m, n))
    decreases n
  {
    if m < n { EventRates(states, calls, key, m, n - 1, top); }
  }

  /** What both bounds start from: the key's events between m and n, in time, and its answers. */
  lemma RunEvents(states: seq<State>, calls: seq<Call>, oks: seq<bool>, key: string, m: nat, n: nat, start: real,
                  d: real)
    requires Run(states, calls, oks) && m <= n <= |calls| && Resident(states, key, m, n)
    requires On(states, calls, key, m, n) && AskedWithin(calls, key, m, n, start, d)
    ensures var b, events := states[m].buckets[key], EventsOf(states, calls, key, m, n);
            Monotone(b, events) && Within(events, start, d) && Granted(calls, oks, key, m, n) == Admitted(b, events)
  {
    forall k | m <= k < n ensures states[m].buckets[key].last <= calls[k].at {
      RefillsPrecedeCalls(states, calls, oks, key, m, k);
    }
    EventTimes(states, calls, key, m, n, states[m].buckets[key], start, d);
    RunsFollowTheBucket(states, calls, oks, key, m, n);
  }

  /**
   Whatever overrides are installed meanwhile, however the rate is changed and whatever other keys do,
   the limiter answers at most top + top * d / 60 requests of a resident key with true in any d
   seconds, when top is the largest rate in force at them and the limiter is on.
   */
  lemma RunsKeepTheGlobalRate(states: seq<State>, calls: seq<Call>, oks: seq<bool>, key: string, m: nat, n: nat,
                              top: int, start: real, d: real)
    requires Run(states, calls, oks) && m <= n <= |calls| && Resident(states, key, m, n)
    requires top > 0 && RateUpTo(states, calls, key, m, n, top)
    requires d >= 0.0 && AskedWithin(calls, key, m, n, start, d)
    ensures Granted(calls, oks, key, m, n) as real <= top as real + Gained(d, top)
  {
    RunEvents(states, calls, oks, key, m, n, start, d);
    EventRates(states, calls, key, m, n, top);
    GlobalRateBound(states[m].buckets[key], top, EventsOf(states, calls, key, m, n), start, d);
  }

  /** No new override for the key, and the one it has is in force at each of its requests. */
  predicate StaysThrottled(calls: seq<Call>, key: string, m: nat, n: nat, b: Bucket)
    requires n <= |calls|
  {
    forall k :: m <= k < n && For(calls[k], key) ==> calls[k].Ask? && calls[k].at < b.ovrUntil
  }

  lemma {:induction false} OnlyTimelyRequests(states: seq<State>, calls: seq<Call>, key: string, m: nat, n: nat,
                                              b: Bucket)
    requires |states| == |calls| + 1 && n <= |calls| && StaysThrottled(calls, key, m, n, b)
    ensures InForce(b, EventsOf(states, calls, key, m, n))
    decreases n
  {
    if m < n { OnlyTimelyRequests(states, calls, key, m, n - 1, b); }
  }

  /** While an override is in force, the limiter keeps the key to it in the same way, at any global rate. */
  lemma RunsKeepTheOverride(states: seq<State>, calls: seq<Call>, oks: seq<bool>, key: string, m: nat, n: nat,
                            start: real, d: real)
    requires Run(states, calls, oks) && m <= n <= |calls| && Resident(states, key, m, n)
    requires On(states, calls, key, m, n) && d >= 0.0 && AskedWithin(calls, key, m, n, start, d)
    requires var b := states[m].buckets[key]; 0 < b.ovrLimit && StaysThrottled(calls, key, m, n, b)
    ensures var limit := states[m].buckets[key].ovrLimit;
            Granted(calls, oks, key, m, n) as real <= limit as real + Gained(d, limit)
  {
    RunEvents(states, calls, oks, key, m, n, start, d);
    EventRates(states, calls, key, m, n, 0);
    OnlyTimelyRequests(states, calls, key, m, n, states[m].buckets[key]);
    OverrideBound(states[m].buckets[key], EventsOf(states, calls, key, m, n), start, d);
  }

  // ---------------------------------------------------------------- the limiter

  class RateLimiter {
    /** Most recently used first. */
    var order: seq<string>
    var buckets: map<string, Bucket>
    var perMin: int
    const max: nat

    ghost function S(): State
      reads this
    {
      State(buckets, perMin)
    }

    ghost predicate Linked()
      reads this
    {
      Lists(order, buckets.Keys) && max > 0
    }

    ghost predicate Valid()
      reads this
    {
      Linked() && |buckets| <= max
    }

    constructor (perMin: int, max: int)
      ensures Valid() && buckets == map[] && this.perMin == perMin
      ensures this.max == if max <= 0 then DEFAULT_MAX else max
    {
      this.perMin, order, buckets := perMin, [], map[];
      this.max := if max <= 0 then DEFAULT_MAX else max;
    }

    /** Takes one token from the key's bucket; a new key starts full. */
    method Allow(key: string, now: real) returns (ok: bool)
      requires Valid()
      modifies `order, `buckets
      ensures Valid()
      ensures Answers(old(S()), S(), Ask(key, now), ok)
      ensures order == if perMin <= 0 then old(order) else Fronted(old(order), key, max)
    {
      if perMin <= 0 { return true; }
      if key in buckets {
        MoveToFront(key);
      } else {
        Push(key, Bucket(perMin as real, now, 0, 0.0));
      }
      ok := Passes(buckets[key], perMin, now);
      Store(key, Requested(buckets[key], perMin, now));
    }

    /** Installs a tighten-only override on the same bucket; a new key starts at the tighter ceiling. */
    method SetKeyLimit(key: string, limit: int, until: real, now: real)
      requires Valid()
      modifies `order, `buckets
      ensures Valid()
      ensures Answers(old(S()), S(), SetLimit(key, limit, until, now), true)
      ensures order == if perMin <= 0 then old(order) else Fronted(old(order), key, max)
    {
      if perMin <= 0 { return; }
      if key !in buckets {
        Push(key, Bucket(if limit > perMin then perMin as real else limit as real, now, limit, until));
        return;
      }
      MoveToFront(key);
      Store(key, Throttled(buckets[key], perMin, limit, until));
    }

    /** Changes the global rate; buckets keep their tokens and refill at the new rate from here on. */
    method SetRate(perMin: int, ghost now: real)
      requires Valid()
      modifies `perMin
      ensures Valid() && Answers(old(S()), S(), NewRate(perMin, now), true)
    {
      this.perMin := perMin;
    }

    method MoveToFront(key: string)
      requires Valid() && key in buckets
      modifies `order
      ensures Valid() && order == Fronted(old(order), key, max)
    {
      order := ToFront(order, buckets.Keys, key);
      assert |order| <= max;
    }

    method Store(key: string, b: Bucket)
      requires Valid() && key in buckets
      modifies `buckets
      ensures Valid() && buckets == old(buckets)[key := b]
    {
      buckets := buckets[key := b];
      assert buckets.Keys == old(buckets).Keys;
    }

    method Push(key: string, b: Bucket)
      requires Valid() && key !in buckets
      modifies `order, `buckets
      ensures Valid() && key in buckets && buckets[key] == b && order == Fronted(old(order), key, max)
      ensures forall k :: k in buckets && k != key ==> k in old(buckets) && buckets[k] == old(buckets)[k]
    {
      FrontLists(order, buckets.Keys, key);
      order, buckets := [key] + order, buckets[key := b];
      assert buckets.Keys == old(buckets).Keys + {key};
      Evict();
      PushedIsFronted(old(order), key, max, order);
      assert order[0] == key;
    }

    /** Drops least recently used keys until the map is within its size. */
    method Evict()
      requires Linked()
      modifies `order, `buckets
      ensures Valid() && order <= old(order) && |order| == Smaller(|old(order)|, max)
      ensures Part(buckets, old(buckets))
    {
      order, buckets := CutBack(order, buckets, max);
    }
  }
}
