/** Recency lists: the order in which a bounded cache's keys were last touched, most recent first. */
module Recency {
  /** The list holds exactly these values, each once. */
  ghost predicate Lists(order: seq<string>, values: set<string>) {
    && |order| == |values|
    && (forall x :: x in order <==> x in values)
    && (forall i, j :: 0 <= i < j < |order| ==> order[i] != order[j])
  }

  function Without(order: seq<string>, i: nat): seq<string>
    requires i < |order|
  {
    order[..i] + order[i + 1..]
  }

  lemma WithoutLists(order: seq<string>, values: set<string>, i: nat)
    requires i < |order| && Lists(order, values)
    ensures Lists(Without(order, i), values - {order[i]})
  {
    var n := Without(order, i);
    forall k | 0 <= k < |n| ensures n[k] == order[if k < i then k else k + 1] {
    }
    forall x ensures x in n <==> x in values - {order[i]} {
      if x in values && x != order[i] {
        var k :| 0 <= k < |order| && order[k] == x;
        assert n[if k < i then k else k - 1] == x;
      }
    }
  }

  lemma FrontLists(order: seq<string>, values: set<string>, x: string)
    requires Lists(order, values) && x !in values
    ensures Lists([x] + order, values + {x})
  {
    var n := [x] + order;
    forall y ensures y in n <==> y in values + {x} {
      if y in order {
        var k :| 0 <= k < |order| && order[k] == y;
        assert n[k + 1] == y;
      }
    }
  }

  lemma MovedToFront(order: seq<string>, values: set<string>, i: nat)
    requires i < |order| && Lists(order, values)
    ensures Lists([order[i]] + Without(order, i), values)
  {
    WithoutLists(order, values, i);
    FrontLists(Without(order, i), values - {order[i]}, order[i]);
    assert order[i] in values && values - {order[i]} + {order[i]} == values;
  }

  /** The list without the value's first occurrence. */
  function Remove(order: seq<string>, x: string): seq<string> {
    if |order| == 0 then [] else if order[0] == x then order[1..] else [order[0]] + Remove(order[1..], x)
  }

  lemma WithoutTail(order: seq<string>, i: nat)
    requires 0 < i < |order|
    ensures Without(order, i) == [order[0]] + Without(order[1..], i - 1)
  {
    var n := [order[0]] + Without(order[1..], i - 1);
    forall k | 0 <= k < |n| ensures n[k] == Without(order, i)[k] {
    }
  }

  lemma {:induction false} RemoveFirst(order: seq<string>, i: nat)
    requires i < |order| && forall j :: 0 <= j < i ==> order[j] != order[i]
    ensures Remove(order, order[i]) == Without(order, i)
  {
    if i > 0 {
      assert order[1..][i - 1] == order[i];
      RemoveFirst(order[1..], i - 1);
      WithoutTail(order, i);
    }
  }

  /** Moves a value to the front. */
  method ToFront(order: seq<string>, ghost values: set<string>, x: string) returns (r: seq<string>)
    requires Lists(order, values) && x in values
    ensures Lists(r, values) && r == [x] + Remove(order, x)
  {
    assert x in order;
    var i := 0;
    while order[i] != x
      invariant i < |order| && x in order[i..] && forall j :: 0 <= j < i ==> order[j] != x
      decreases |order| - i
    {
      assert order[i..] == [order[i]] + order[i + 1..];
      i := i + 1;
    }
    MovedToFront(order, values, i);
    RemoveFirst(order, i);
    r := [x] + Without(order, i);
  }

  function Smaller(a: nat, b: nat): nat { if a < b then a else b }

  /** Some of the entries, as they were. */
  ghost predicate Part<V(!new)>(left: map<string, V>, entries: map<string, V>) {
    forall k :: k in left ==> k in entries && left[k] == entries[k]
  }

  /** Some of the entries as they were, and possibly x with a value of its own. */
  ghost predicate PartBut<V(!new)>(left: map<string, V>, entries: map<string, V>, x: string) {
    forall k :: k in left && k != x ==> k in entries && left[k] == entries[k]
  }

  lemma PartOfPart<V(!new)>(a: map<string, V>, b: map<string, V>, c: map<string, V>, x: string)
    requires PartBut(a, b, x) && Part(b, c)
    ensures PartBut(a, c, x)
  {
  }

  /** Drops entries from the back of the list, and from the map with it, until at most max are left. */
  method CutBack<V(!new)>(order: seq<string>, entries: map<string, V>, max: nat)
    returns (kept: seq<string>, left: map<string, V>)
    requires Lists(order, entries.Keys) && max > 0
    ensures Lists(kept, left.Keys) && kept <= order && |kept| == Smaller(|order|, max)
    ensures Part(left, entries)
  {
    kept, left := order, entries;
    while |kept| > max
      invariant Lists(kept, left.Keys) && kept <= order && |kept| >= Smaller(|order|, max)
      invariant Part(left, entries)
      decreases |kept|
    {
      kept, left := DropBack(kept, left);
    }
  }

  method DropBack<V(!new)>(order: seq<string>, entries: map<string, V>)
    returns (kept: seq<string>, left: map<string, V>)
    requires Lists(order, entries.Keys) && |order| > 0
    ensures Lists(kept, left.Keys) && kept <= order && |kept| == |order| - 1
    ensures Part(left, entries)
  {
    var back := |order| - 1;
    WithoutLists(order, entries.Keys, back);
    kept, left := Without(order, back), entries - {order[back]};
    assert left.Keys == entries.Keys - {order[back]};
  }

  /** The order once x is touched, in a cache that keeps at most max: the least recently used go. */
  function Fronted(order: seq<string>, x: string, max: nat): seq<string> {
    var r := [x] + Remove(order, x);
    r[..Smaller(|r|, max)]
  }

  lemma {:induction false} RemoveAbsent(order: seq<string>, x: string)
    requires x !in order
    ensures Remove(order, x) == order
  {
    if |order| > 0 { RemoveAbsent(order[1..], x); }
  }

  /** A new value put in front, and what overflows cut from the back. */
  lemma PushedIsFronted(order: seq<string>, x: string, max: nat, kept: seq<string>)
    requires x !in order && max > 0 && kept <= [x] + order && |kept| == Smaller(|order| + 1, max)
    ensures kept == Fronted(order, x, max) && kept[0] == x
  {
    RemoveAbsent(order, x);
  }

  lemma SubsetIsSmaller(a: set<string>, b: set<string>)
    requires a <= b
    ensures |a| <= |b|
  {
    assert |b| == |a| + |b - a| by { assert b == a + (b - a); }
  }
}
