/**
 The single-use cache: a recency list and an expiry map under one mutex. In fail-closed mode it is
 exactly a bounded set of values that are live until they expire.
 */
module NonceCache {
  import opened Recency

  const DEFAULT_MAX: nat := 65536

  // ---------------------------------------------------------------- the timed set it refines

  type Expiries = map<string, int>

  predicate IsLive(s: Expiries, x: string, now: int) { x in s && now < s[x] }

  function LiveSet(s: Expiries, now: int): set<string> { set x | x in s && now < s[x] }

  /** A value is admitted when it is not live and fewer than max values are. */
  predicate Admits(s: Expiries, x: string, now: int, max: nat) { !IsLive(s, x, now) && |LiveSet(s, now)| < max }

  function Use(s: Expiries, x: string, now: int, ttl: int, max: nat): Expiries {
    if Admits(s, x, now, max) then s[x := now + ttl] else s
  }

  /** When the value's time is over, or now if it already is. */
  function Until(s: Expiries, x: string, now: int): int { if IsLive(s, x, now) then s[x] else now }

  /** The two hold the same values live, for the same time; what is expired in either does not show. */
  ghost predicate SameLive(s: Expiries, t: Expiries, now: int) { forall x :: Until(s, x, now) == Until(t, x, now) }

  /** Sets that look the same now admit the same values, now and at any later time. */
  lemma SameLiveStays(s: Expiries, t: Expiries, now: int, later: int, x: string, ttl: int, max: nat)
    requires SameLive(s, t, now) && now <= later
    ensures SameLive(s, t, later) && Admits(s, x, later, max) == Admits(t, x, later, max)
    ensures SameLive(Use(s, x, later, ttl, max), Use(t, x, later, ttl, max), later)
  {
    forall y ensures Until(s, y, later) == Until(t, y, later) {
      assert Until(s, y, now) == Until(t, y, now);
    }
    SameLiveSets(s, t, later);
    assert Until(s, x, later) == Until(t, x, later);
    forall y ensures Until(Use(s, x, later, ttl, max), y, later) == Until(Use(t, x, later, ttl, max), y, later) {
      assert Until(s, y, later) == Until(t, y, later);
    }
  }

  lemma SameLiveSets(s: Expiries, t: Expiries, now: int)
    requires SameLive(s, t, now)
    ensures LiveSet(s, now) == LiveSet(t, now)
  {
    forall x ensures x in LiveSet(s, now) <==> x in LiveSet(t, now) {
      assert Until(s, x, now) == Until(t, x, now);
    }
  }

  datatype Attempt = Attempt(value: string, at: int)

  predicate Monotone(uses: seq<Attempt>) { forall i, j :: 0 <= i < j < |uses| ==> uses[i].at <= uses[j].at }

  /** The set after these attempts. */
  function After(uses: seq<Attempt>, ttl: int, max: nat): Expiries {
    if |uses| == 0 then map[]
    else
      var last := uses[|uses| - 1];
      Use(After(uses[..|uses| - 1], ttl, max), last.value, last.at, ttl, max)
  }

  predicate AdmittedAt(uses: seq<Attempt>, ttl: int, max: nat, i: nat)
    requires i < |uses|
  {
    Admits(After(uses[..i], ttl, max), uses[i].value, uses[i].at, max)
  }

  /** A value admitted at i stays live, whatever else happens, until its time is over. */
  lemma {:induction false} AdmittedStaysLive(uses: seq<Attempt>, ttl: int, max: nat, i: nat, n: nat)
    requires Monotone(uses) && i < n <= |uses| && AdmittedAt(uses, ttl, max, i)
    requires n < |uses| ==> uses[n].at < uses[i].at + ttl
    requires forall k :: i < k < n ==> uses[k].at < uses[i].at + ttl
    ensures var s := After(uses[..n], ttl, max);
            uses[i].value in s && s[uses[i].value] == uses[i].at + ttl
  {
    var prefix := uses[..n];
    assert prefix[..n - 1] == uses[..n - 1];
    if n - 1 > i {
      AdmittedStaysLive(uses, ttl, max, i, n - 1);
    }
  }

  /** No value is admitted twice within the time to live. */
  lemma NeverTwiceWithinTtl(uses: seq<Attempt>, ttl: int, max: nat, i: nat, j: nat)
    requires Monotone(uses) && i < j < |uses| && uses[i].value == uses[j].value
    requires AdmittedAt(uses, ttl, max, i) && AdmittedAt(uses, ttl, max, j)
    ensures uses[j].at >= uses[i].at + ttl
  {
    if uses[j].at < uses[i].at + ttl {
      AdmittedStaysLive(uses, ttl, max, i, j);
      assert false;
    }
  }

  /** One call of a fail-closed cache, as UseOnce promises it. */
  ghost predicate Answers(s: Expiries, t: Expiries, u: Attempt, ok: bool, ttl: int, max: nat) {
    ok == Admits(s, u.value, u.at, max) && SameLive(t, Use(s, u.value, u.at, ttl, max), u.at)
  }

  /** The calls of a whole run, from an empty cache. */
  ghost predicate Run(states: seq<Expiries>, uses: seq<Attempt>, answers: seq<bool>, ttl: int, max: nat) {
    && |states| == |uses| + 1 && |answers| == |uses| && states[0] == map[]
    && forall k :: 0 <= k < |uses| ==> Answers(states[k], states[k + 1], uses[k], answers[k], ttl, max)
  }

  /** Over any run on a clock that does not go back, the cache answers exactly as the timed set does. */
  lemma {:induction false} RunsRefineTheTimedSet(states: seq<Expiries>, uses: seq<Attempt>, answers: seq<bool>,
                                                 ttl: int, max: nat, n: nat)
    requires Run(states, uses, answers, ttl, max) && Monotone(uses) && n <= |uses|
    ensures n > 0 ==> SameLive(states[n], After(uses[..n], ttl, max), uses[n - 1].at)
    ensures n < |uses| ==> answers[n] == AdmittedAt(uses, ttl, max, n)
  {
    if n > 0 {
      var u := uses[n - 1];
      var prefix := uses[..n];
      assert prefix[..n - 1] == uses[..n - 1];
      var s, t := states[n - 1], After(uses[..n - 1], ttl, max);
      RunsRefineTheTimedSet(states, uses, answers, ttl, max, n - 1);
      if n > 1 {
        SameLiveStays(s, t, uses[n - 2].at, u.at, u.value, ttl, max);
      }
      assert Answers(s, states[n], u, answers[n - 1], ttl, max);
      SameLiveChain(states[n], Use(s, u.value, u.at, ttl, max), Use(t, u.value, u.at, ttl, max), u.at);
    }
    if n < |uses| {
      assert Answers(states[n], states[n + 1], uses[n], answers[n], ttl, max);
      if n > 0 {
        SameLiveStays(states[n], After(uses[..n], ttl, max), uses[n - 1].at, uses[n].at, uses[n].value, ttl, max);
      }
    }
  }

  /** Over any such run no value is answered with admission twice within its time to live. */
  lemma RunsNeverAdmitTwice(states: seq<Expiries>, uses: seq<Attempt>, answers: seq<bool>, ttl: int, max: nat,
                            i: nat, j: nat)
    requires Run(states, uses, answers, ttl, max) && Monotone(uses) && i < j < |uses|
    requires answers[i] && answers[j] && uses[i].value == uses[j].value
    ensures uses[j].at >= uses[i].at + ttl
  {
    RunsRefineTheTimedSet(states, uses, answers, ttl, max, i);
    RunsRefineTheTimedSet(states, uses, answers, ttl, max, j);
    NeverTwiceWithinTtl(uses, ttl, max, i, j);
  }

  lemma SameLiveChain(a: Expiries, b: Expiries, c: Expiries, now: int)
    requires SameLive(a, b, now) && SameLive(b, c, now)
    ensures SameLive(a, c, now)
  {
    forall x ensures Until(a, x, now) == Until(c, x, now) {
      assert Until(a, x, now) == Until(b, x, now) && Until(b, x, now) == Until(c, x, now);
    }
  }

  // ---------------------------------------------------------------- the cache

  class Cache {
    /** Recency order, most recently touched first. */
    var order: seq<string>
    var entries: Expiries
    const max: nat
    const ttl: int
    const failClosed: bool

    /** The list and the map hold the same values, each once. */
    ghost predicate Linked()
      reads this
    {
      Lists(order, entries.Keys)
    }

    ghost predicate Valid()
      reads this
    {
      Linked() && |entries| <= max && max > 0
    }

    constructor (ttl: int, max: int, failClosed: bool)
      ensures Valid() && entries == map[] && this.ttl == ttl && this.failClosed == failClosed
      ensures this.max == if max <= 0 then DEFAULT_MAX else max
    {
      this.order, this.entries, this.ttl, this.failClosed := [], map[], ttl, failClosed;
      this.max := if max <= 0 then DEFAULT_MAX else max;
    }

    /**
     In fail-closed mode this is exactly one Use of the timed set, whatever expired entries the list
     still holds; otherwise only a live value is refused, and the cache stays within its size.
     */
    method UseOnce(x: string, now: int) returns (ok: bool)
      requires Valid()
      modifies this
      ensures Valid()
      ensures failClosed ==> ok == Admits(old(entries), x, now, max)
      ensures failClosed ==> SameLive(entries, Use(old(entries), x, now, ttl, max), now)
      ensures !failClosed ==> ok == !IsLive(old(entries), x, now)
      ensures ok ==> x in entries && entries[x] == now + ttl && order[0] == x
      ensures if ok then PartBut(entries, old(entries), x) else Part(entries, old(entries))
    {
      if x in entries {
        ok := Touch(x, now);
      } else {
        ok := Consume(x, now);
      }
    }

    /** A value still in the map: a live one is a replay, an expired one is consumed afresh in place. */
    method Touch(x: string, now: int) returns (ok: bool)
      requires Valid() && x in entries
      modifies this
      ensures Valid() && ok == !IsLive(old(entries), x, now)
      ensures ok == Admits(old(entries), x, now, max)
      ensures entries == if ok then old(entries)[x := now + ttl] else old(entries)
      ensures order[0] == x
    {
      TouchFront(x);
      if now < entries[x] { return false; }
      RoomBesideStale(entries, x, now);
      ghost var s := entries;
      entries := entries[x := now + ttl];
      assert entries.Keys == s.Keys;
      return true;
    }

    /** A value the map does not hold: reclaims what is expired, and inserts if there is room. */
    method Consume(x: string, now: int) returns (ok: bool)
      requires Valid() && x !in entries
      modifies this
      ensures Valid()
      ensures if failClosed then ok == (|LiveSet(old(entries), now)| < max) else ok
      ensures failClosed ==> SameLive(entries, if ok then old(entries)[x := now + ttl] else old(entries), now)
      ensures ok ==> x in entries && entries[x] == now + ttl && order[0] == x
      ensures if ok then PartBut(entries, old(entries), x) else Part(entries, old(entries))
    {
      ghost var s := entries;
      ok := MakeRoom(now);
      if !ok { return; }
      ghost var t := entries;
      Insert(x, now);
      PartOfPart(entries, t, s, x);
      if failClosed { InsertedBoth(s, t, x, now, ttl); }
    }

    /** Reclaims expired values; a fail-closed cache has room exactly when fewer than max values are live. */
    method MakeRoom(now: int) returns (room: bool)
      requires Valid()
      modifies `order, `entries
      ensures Valid() && SameLive(old(entries), entries, now)
      ensures Part(entries, old(entries))
      ensures if failClosed then room == (|LiveSet(old(entries), now)| < max) else room
      ensures failClosed && room ==> |entries| < max
    {
      EvictExpired(now);
      SameLiveSets(old(entries), entries, now);
      LiveIsSmaller(entries, now);
      if !failClosed || |entries| < max { return true; }
      EvictAllExpired(now);
      SameLiveSets(old(entries), entries, now);
      room := |entries| < max;
    }

    method Insert(x: string, now: int)
      requires Valid() && x !in entries && (failClosed ==> |entries| < max)
      modifies this
      ensures Valid() && |order| > 0 && order[0] == x && x in entries && entries[x] == now + ttl
      ensures failClosed ==> entries == old(entries)[x := now + ttl]
      ensures PartBut(entries, old(entries), x)
    {
      FrontLists(order, entries.Keys, x);
      order, entries := [x] + order, entries[x := now + ttl];
      assert entries.Keys == old(entries).Keys + {x};
      if !failClosed { EvictOverflow(); }
      assert order[0] in entries;
    }

    /** Moves a value to the front of the recency order. */
    method TouchFront(x: string)
      requires Valid() && x in entries
      modifies `order
      ensures Valid() && order == [x] + Remove(old(order), x)
    {
      order := ToFront(order, entries.Keys, x);
    }

    method RemoveAt(i: nat)
      requires Linked() && i < |order|
      modifies `order, `entries
      ensures Linked()
      ensures order == Without(old(order), i) && entries == old(entries) - {old(order)[i]}
    {
      WithoutLists(order, entries.Keys, i);
      entries := entries - {order[i]};
      assert entries.Keys == old(entries).Keys - {order[i]};
      order := Without(order, i);
    }

    /** Drops expired values from the tail, up to the first live one. */
    method EvictExpired(now: int)
      requires Valid()
      modifies `order, `entries
      ensures Valid() && SameLive(old(entries), entries, now)
      ensures Part(entries, old(entries))
    {
      while |order| > 0
        invariant Valid() && SameLive(old(entries), entries, now)
        invariant Part(entries, old(entries))
        decreases |order|
      {
        var back := |order| - 1;
        assert order[back] in entries;
        if now < entries[order[back]] { break; }
        ExpiredGoes(old(entries), entries, order[back], now);
        RemoveAt(back);
      }
    }

    /** The full sweep: what stays is exactly what is live. */
    method EvictAllExpired(now: int)
      requires Valid()
      modifies `order, `entries
      ensures Valid() && SameLive(old(entries), entries, now) && LiveSet(entries, now) == entries.Keys
      ensures Part(entries, old(entries))
    {
      ghost var s := entries;
      var i: nat := |order|;
      while i > 0
        invariant Valid() && i <= |order| && LiveFrom(order, i, entries, now)
        invariant SameLive(s, entries, now) && Part(entries, s)
      {
        i := i - 1;
        Sweep(i, now, s);
      }
      AllLive(order, entries, now);
    }

    /** One value of the full sweep that began on s. */
    method Sweep(i: nat, now: int, ghost s: Expiries)
      requires Valid() && i < |order| && LiveFrom(order, i + 1, entries, now)
      requires SameLive(s, entries, now) && Part(entries, s)
      modifies `order, `entries
      ensures Valid() && i <= |order| && LiveFrom(order, i, entries, now)
      ensures SameLive(s, entries, now) && Part(entries, s)
    {
      assert order[i] in entries;
      if now >= entries[order[i]] {
        ExpiredGoes(s, entries, order[i], now);
        StillLive(order, i, entries, now);
        RemoveAt(i);
      }
    }

    /** Drops values from the tail, live ones too, until the cache is within its size. */
    method EvictOverflow()
      requires Linked() && max > 0
      modifies `order, `entries
      ensures Valid() && order <= old(order) && |order| == Smaller(|old(order)|, max)
      ensures Part(entries, old(entries))
    {
      order, entries := CutBack(order, entries, max);
    }
  }

  // ---------------------------------------------------------------- live parts

  predicate LiveFrom(order: seq<string>, i: nat, s: Expiries, now: int) {
    forall j :: i <= j < |order| ==> IsLive(s, order[j], now)
  }

  /** Forgetting an expired value shows nowhere. */
  lemma ExpiredGoes(s: Expiries, t: Expiries, x: string, now: int)
    requires SameLive(s, t, now) && Part(t, s) && x in t && t[x] <= now
    ensures SameLive(s, t - {x}, now) && Part(t - {x}, s)
  {
    forall y ensures Until(s, y, now) == Until(t - {x}, y, now) {
      assert Until(s, y, now) == Until(t, y, now);
    }
  }

  lemma StillLive(order: seq<string>, i: nat, s: Expiries, now: int)
    requires i < |order| && Lists(order, s.Keys) && LiveFrom(order, i + 1, s, now)
    ensures LiveFrom(Without(order, i), i, s - {order[i]}, now)
  {
    forall j | i <= j < |order| - 1 ensures IsLive(s - {order[i]}, Without(order, i)[j], now) {
      assert Without(order, i)[j] == order[j + 1] && order[i] != order[j + 1];
    }
  }

  lemma AllLive(order: seq<string>, s: Expiries, now: int)
    requires Lists(order, s.Keys) && LiveFrom(order, 0, s, now)
    ensures LiveSet(s, now) == s.Keys
  {
    forall x | x in s ensures IsLive(s, x, now) {
      var j :| 0 <= j < |order| && order[j] == x;
      assert IsLive(s, order[j], now);
    }
  }

  lemma LiveIsSmaller(s: Expiries, now: int)
    ensures |LiveSet(s, now)| <= |s|
  {
    SubsetIsSmaller(LiveSet(s, now), s.Keys);
  }

  /** An expired value still in the cache occupies a slot no live one has. */
  lemma RoomBesideStale(s: Expiries, x: string, now: int)
    requires x in s && s[x] <= now
    ensures |LiveSet(s, now)| < |s|
  {
    SubsetIsSmaller(LiveSet(s, now), s.Keys - {x});
  }

  lemma InsertedBoth(s: Expiries, t: Expiries, x: string, now: int, ttl: int)
    requires SameLive(s, t, now)
    ensures SameLive(t[x := now + ttl], s[x := now + ttl], now)
  {
    var a, b := t[x := now + ttl], s[x := now + ttl];
    forall y ensures Until(a, y, now) == Until(b, y, now) {
      assert Until(s, y, now) == Until(t, y, now);
    }
  }
}
