/**
 A sliding-window request rate over a ring of one-second buckets, proved to count exactly the
 observations stamped within the window, clock steps backwards included.
 */
module RateSample {
  import opened Arithmetic

  /** One observation: the second it was stamped with, and whether it was an error. */
  datatype Stamp = Stamp(sec: int, failed: bool)

  /** How many observations carry this second (only the errors, when asked for those). */
  function Count(seen: seq<Stamp>, sec: int, errorsOnly: bool): nat {
    if |seen| == 0 then 0
    else
      var last := seen[|seen| - 1];
      Count(seen[..|seen| - 1], sec, errorsOnly) + if last.sec == sec && (errorsOnly ==> last.failed) then 1 else 0
  }

  /** How many observations were stamped in the w seconds ending with last. */
  function InWindow(seen: seq<Stamp>, last: int, w: nat, errorsOnly: bool): nat {
    if |seen| == 0 then 0
    else
      var x := seen[|seen| - 1];
      InWindow(seen[..|seen| - 1], last, w, errorsOnly) +
      if last - w < x.sec <= last && (errorsOnly ==> x.failed) then 1 else 0
  }

  /** The one second of the window whose bucket is i. */
  function SecondOf(i: int, last: int, w: nat): int
    requires w > 0
  {
    last - (last - i) % w
  }

  lemma {:induction false} NothingLater(seen: seq<Stamp>, sec: int, errorsOnly: bool)
    requires forall k :: 0 <= k < |seen| ==> seen[k].sec < sec
    ensures Count(seen, sec, errorsOnly) == 0
  {
    if |seen| != 0 { NothingLater(seen[..|seen| - 1], sec, errorsOnly); }
  }

  /** Exactly one second of the window has residue i. */
  lemma SecondIsUnique(sec: int, i: int, last: int, w: nat)
    requires w > 0 && 0 <= i < w
    ensures last - w < SecondOf(i, last, w) <= last && SecondOf(i, last, w) % w == i
    ensures last - w < sec <= last && sec % w == i <==> sec == SecondOf(i, last, w)
  {
    var q, s := (last - i) / w, SecondOf(i, last, w);
    assert s == q * w + i;
    var d := s / w - q;
    assert d * w == i - s % w;
    NoMultipleBetween(d, w);
    if last - w < sec <= last && sec % w == i {
      var e := sec / w - q;
      assert e * w == sec - s by { assert sec == (sec / w) * w + i; }
      NoMultipleBetween(e, w);
    }
  }

  /** Stepping into the next second moves only that second's bucket. */
  lemma SecondStep(i: int, t: int, w: nat)
    requires w > 0 && 0 <= i < w
    ensures SecondOf(i, t + 1, w) == if (t + 1) % w == i then t + 1 else SecondOf(i, t, w)
  {
    SecondIsUnique(t + 1, i, t + 1, w);
    SecondIsUnique(SecondOf(i, t, w), i, t + 1, w);
    SecondIsUnique(t - w + 1, i, t, w);
    ShiftedResidue(t - w + 1, w);
  }

  lemma ShiftedResidue(x: int, w: nat)
    requires w > 0
    ensures (x + w) % w == x % w
  {
    var d := (x + w) / w - x / w - 1;
    assert d * w == x % w - (x + w) % w;
    NoMultipleBetween(d, w);
  }

  /** Requests and errors per second over the window. */
  datatype Rates = Rates(qps: real, errorRate: real, windowSec: nat)

  function PerSecond(total: int, w: nat): (r: real)
    requires w > 0
    ensures r * w as real == total as real
  {
    total as real / w as real
  }

  class Sampler {
    const windowSec: nat
    const reqs: array<int>
    const errs: array<int>
    var lastSec: int
    ghost var seen: seq<Stamp>

    ghost predicate Valid()
      reads this, reqs, errs
    {
      && windowSec > 0 && reqs.Length == errs.Length == windowSec && reqs != errs
      && 0 <= lastSec && (forall k :: 0 <= k < |seen| ==> seen[k].sec <= lastSec)
      && Holds(reqs[..], seen, lastSec, false) && Holds(errs[..], seen, lastSec, true)
    }

    constructor (windowSec: int, now: nat)
      ensures Valid() && fresh(reqs) && fresh(errs) && seen == [] && lastSec == now
      ensures this.windowSec == if windowSec < 1 then 1 else windowSec
    {
      var w: nat := if windowSec < 1 then 1 else windowSec;
      this.windowSec := w;
      reqs := new int[w](_ => 0);
      errs := new int[w](_ => 0);
      lastSec, seen := now, [];
    }

    /** Rolls the ring forward to this second; a clock that went back counts as the last one. */
    method Advance(nowSec: nat) returns (idx: nat)
      requires Valid()
      modifies this`lastSec, reqs, errs
      ensures Valid() && lastSec == (if nowSec < old(lastSec) then old(lastSec) else nowSec)
      ensures idx < windowSec && idx == lastSec % windowSec
    {
      var delta := if nowSec < lastSec then 0 else nowSec - lastSec;
      if delta >= windowSec {
        ClearAll(delta);
      } else {
        ClearSteps(delta);
      }
      lastSec := lastSec + delta;
      return lastSec % windowSec;
    }

    /** The whole window elapsed: every bucket is stale. */
    method ClearAll(delta: nat)
      requires Valid() && delta >= windowSec
      modifies reqs, errs
      ensures Holds(reqs[..], seen, lastSec + delta, false) && Holds(errs[..], seen, lastSec + delta, true)
    {
      var i := 0;
      while i < windowSec
        invariant 0 <= i <= windowSec
        invariant forall k :: 0 <= k < i ==> reqs[k] == 0 && errs[k] == 0
      {
        reqs[i], errs[i] := 0, 0;
        i := i + 1;
      }
      AllStale(reqs[..], seen, lastSec, lastSec + delta, false);
      AllStale(errs[..], seen, lastSec, lastSec + delta, true);
    }

    /** Clears the buckets being stepped into, one second at a time. */
    method ClearSteps(delta: nat)
      requires Valid()
      modifies reqs, errs
      ensures Holds(reqs[..], seen, lastSec + delta, false) && Holds(errs[..], seen, lastSec + delta, true)
    {
      var i := 1;
      while i <= delta
        invariant 1 <= i <= delta + 1
        invariant Holds(reqs[..], seen, lastSec + i - 1, false) && Holds(errs[..], seen, lastSec + i - 1, true)
      {
        var idx := (lastSec + i) % windowSec;
        Cleared(reqs[..], seen, lastSec, lastSec + i - 1, false);
        Cleared(errs[..], seen, lastSec, lastSec + i - 1, true);
        reqs[idx] := 0;
        errs[idx] := 0;
        i := i + 1;
      }
    }

    /** Counts one request in the bucket of its second. */
    method Observe(nowSec: nat, status: int)
      requires Valid()
      modifies this, reqs, errs
      ensures Valid() && lastSec == (if nowSec < old(lastSec) then old(lastSec) else nowSec)
      ensures seen == old(seen) + [Stamp(lastSec, status >= 500)]
    {
      var idx := Advance(nowSec);
      var x := Stamp(lastSec, status >= 500);
      Recorded(reqs[..], seen, lastSec, x, false);
      Recorded(errs[..], seen, lastSec, x, true);
      reqs[idx] := reqs[idx] + 1;
      if status >= 500 { errs[idx] := errs[idx] + 1; }
      seen := seen + [x];
    }

    /** The rates of the last windowSec seconds: exactly the observations stamped within them, per second. */
    method Snapshot(nowSec: nat) returns (r: Rates)
      requires Valid()
      modifies this`lastSec, reqs, errs
      ensures Valid() && lastSec == (if nowSec < old(lastSec) then old(lastSec) else nowSec)
      ensures r == Rates(PerSecond(InWindow(seen, lastSec, windowSec, false), windowSec),
                         PerSecond(InWindow(seen, lastSec, windowSec, true), windowSec), windowSec)
    {
      var _ := Advance(nowSec);
      var requests, errors := Totals();
      r := Rates(PerSecond(requests, windowSec), PerSecond(errors, windowSec), windowSec);
    }

    /** The sums over the two rings. */
    method Totals() returns (requests: int, errors: int)
      requires Valid()
      ensures requests == InWindow(seen, lastSec, windowSec, false)
      ensures errors == InWindow(seen, lastSec, windowSec, true)
    {
      requests, errors := 0, 0;
      var i := 0;
      while i < windowSec
        invariant 0 <= i <= windowSec
        invariant requests == BucketSum(seen, lastSec, windowSec, i, false)
        invariant errors == BucketSum(seen, lastSec, windowSec, i, true)
      {
        assert reqs[..][i] == Count(seen, SecondOf(i, lastSec, windowSec), false);
        assert errs[..][i] == Count(seen, SecondOf(i, lastSec, windowSec), true);
        requests, errors := requests + reqs[i], errors + errs[i];
        i := i + 1;
      }
      BucketsCoverTheWindow(seen, lastSec, windowSec, false);
      BucketsCoverTheWindow(seen, lastSec, windowSec, true);
    }
  }

  /** Each bucket holds the count of the one second of the window with its residue. */
  ghost predicate Holds(ring: seq<int>, seen: seq<Stamp>, last: int, errorsOnly: bool) {
    forall i :: 0 <= i < |ring| ==> ring[i] == Count(seen, SecondOf(i, last, |ring|), errorsOnly)
  }

  lemma AllStale(ring: seq<int>, seen: seq<Stamp>, last: int, t: int, errorsOnly: bool)
    requires |ring| > 0 && last + |ring| <= t && forall i :: 0 <= i < |ring| ==> ring[i] == 0
    requires forall k :: 0 <= k < |seen| ==> seen[k].sec <= last
    ensures Holds(ring, seen, t, errorsOnly)
  {
    forall i | 0 <= i < |ring| ensures ring[i] == Count(seen, SecondOf(i, t, |ring|), errorsOnly) {
      SecondIsUnique(t, i, t, |ring|);
      NothingLater(seen, SecondOf(i, t, |ring|), errorsOnly);
    }
  }

  lemma Cleared(ring: seq<int>, seen: seq<Stamp>, last: int, t: int, errorsOnly: bool)
    requires |ring| > 0 && last <= t && Holds(ring, seen, t, errorsOnly)
    requires forall k :: 0 <= k < |seen| ==> seen[k].sec <= last
    ensures Holds(ring[(t + 1) % |ring| := 0], seen, t + 1, errorsOnly)
  {
    var w, after := |ring|, ring[(t + 1) % |ring| := 0];
    forall i | 0 <= i < w ensures after[i] == Count(seen, SecondOf(i, t + 1, w), errorsOnly) {
      SecondStep(i, t, w);
      NothingLater(seen, t + 1, errorsOnly);
    }
  }

  lemma Recorded(ring: seq<int>, seen: seq<Stamp>, last: int, x: Stamp, errorsOnly: bool)
    requires |ring| > 0 && Holds(ring, seen, last, errorsOnly) && x.sec == last
    ensures Holds(if errorsOnly ==> x.failed then ring[last % |ring| := ring[last % |ring|] + 1] else ring,
                  seen + [x], last, errorsOnly)
  {
    var w, grown := |ring|, seen + [x];
    var after := if errorsOnly ==> x.failed then ring[last % w := ring[last % w] + 1] else ring;
    assert grown[..|seen|] == seen;
    forall i | 0 <= i < w ensures after[i] == Count(grown, SecondOf(i, last, w), errorsOnly) {
      SecondIsUnique(last, i, last, w);
      assert ring[i] == Count(seen, SecondOf(i, last, w), errorsOnly);
    }
  }

  /** The sum of the first n buckets. */
  function BucketSum(seen: seq<Stamp>, last: int, w: nat, n: nat, errorsOnly: bool): nat
    requires w > 0
  {
    if n == 0 then 0
    else BucketSum(seen, last, w, n - 1, errorsOnly) + Count(seen, SecondOf(n - 1, last, w), errorsOnly)
  }

  lemma {:induction false} OneMoreObservation(seen: seq<Stamp>, x: Stamp, last: int, w: nat, n: nat, errorsOnly: bool)
    requires w > 0 && n <= w
    ensures BucketSum(seen + [x], last, w, n, errorsOnly) == BucketSum(seen, last, w, n, errorsOnly)
            + if last - w < x.sec <= last && x.sec % w < n && (errorsOnly ==> x.failed) then 1 else 0
  {
    if n > 0 {
      OneMoreObservation(seen, x, last, w, n - 1, errorsOnly);
      assert (seen + [x])[..|seen|] == seen;
      SecondIsUnique(x.sec, n - 1, last, w);
    }
  }

  lemma {:induction false} NoObservations(last: int, w: nat, n: nat, errorsOnly: bool)
    requires w > 0
    ensures BucketSum([], last, w, n, errorsOnly) == 0
  {
    if n > 0 { NoObservations(last, w, n - 1, errorsOnly); }
  }

  /** The buckets together count each observation of the window once, and nothing else. */
  lemma {:induction false} BucketsCoverTheWindow(seen: seq<Stamp>, last: int, w: nat, errorsOnly: bool)
    requires w > 0
    ensures BucketSum(seen, last, w, w, errorsOnly) == InWindow(seen, last, w, errorsOnly)
  {
    if |seen| == 0 {
      NoObservations(last, w, w, errorsOnly);
      assert seen == [];
    } else {
      var init, x := seen[..|seen| - 1], seen[|seen| - 1];
      BucketsCoverTheWindow(init, last, w, errorsOnly);
      OneMoreObservation(init, x, last, w, w, errorsOnly);
      assert seen == init + [x];
    }
  }
}
