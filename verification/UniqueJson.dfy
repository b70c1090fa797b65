/**
 Reading a usage report without last-key-wins: the duplicate-key check over a token stream, proved
 exact for every JSON tree, and the extraction that guards billing with it.
 */
module UniqueJson {
  import opened Billing

  datatype Token = OpenObject | CloseObject | OpenArray | CloseArray | Text(s: string) | Literal(v: string)

  /** A JSON tree; object members keep their order and may repeat a key. */
  datatype Json = Atom(s: string) | Quoted(s: string) | Array(items: Items) | Object(members: Members)
  datatype Items = NoItems | Item(head: Json, tail: Items)
  datatype Members = NoMembers | Member(key: string, value: Json, tail: Members)

  // ---------------------------------------------------------------- trees and their tokens

  function Tokens(j: Json): seq<Token> {
    match j
    case Atom(v) => [Literal(v)]
    case Quoted(s) => [Text(s)]
    case Array(items) => [OpenArray] + ItemTokens(items) + [CloseArray]
    case Object(members) => [OpenObject] + MemberTokens(members) + [CloseObject]
  }

  function ItemTokens(items: Items): seq<Token> {
    match items
    case NoItems => []
    case Item(head, tail) => Tokens(head) + ItemTokens(tail)
  }

  function MemberTokens(members: Members): seq<Token> {
    match members
    case NoMembers => []
    case Member(key, value, tail) => [Text(key)] + Tokens(value) + MemberTokens(tail)
  }

  predicate Ascii(key: string) { forall i :: 0 <= i < |key| ==> key[i] < '\U{0080}' }

  function LowerChar(ch: char): char { if 'A' <= ch <= 'Z' then ch + 32 as char else ch }

  function Lower(key: string): string {
    if |key| == 0 then "" else [LowerChar(key[0])] + Lower(key[1..])
  }

  function FoldedKeys(members: Members): seq<string> {
    if members.NoMembers? then [] else [Lower(members.key)] + FoldedKeys(members.tail)
  }

  predicate Distinct(keys: seq<string>) { forall i, j :: 0 <= i < j < |keys| ==> keys[i] != keys[j] }

  /** Every object at every depth has ASCII keys, pairwise different once lower-cased. */
  predicate UniqueKeys(j: Json) {
    match j
    case Array(items) => UniqueItems(items)
    case Object(members) => Distinct(FoldedKeys(members)) && UniqueMembers(members)
    case _ => true
  }

  predicate UniqueItems(items: Items) { items.Item? ==> UniqueKeys(items.head) && UniqueItems(items.tail) }

  predicate UniqueMembers(members: Members) {
    members.Member? ==> Ascii(members.key) && UniqueKeys(members.value) && UniqueMembers(members.tail)
  }

  // ---------------------------------------------------------------- the check, on token streams

  predicate Closes(t: Token) { t.CloseObject? || t.CloseArray? }

  /** What is left after one value without repeated keys, if the stream starts with one. */
  function AfterValue(ts: seq<Token>): (rest: Option<seq<Token>>)
    ensures rest.Some? ==> |rest.value| < |ts|
    decreases |ts|, 0
  {
    if |ts| == 0 || Closes(ts[0]) then None
    else if ts[0].OpenObject? then AfterMembers(ts[1..], {})
    else if ts[0].OpenArray? then AfterItems(ts[1..])
    else Some(ts[1..])
  }

  function AfterMembers(ts: seq<Token>, seen: set<string>): (rest: Option<seq<Token>>)
    ensures rest.Some? ==> |rest.value| < |ts|
    decreases |ts|, 1
  {
    if |ts| == 0 then None
    else if Closes(ts[0]) then if ts[0].CloseObject? then Some(ts[1..]) else None
    else if !ts[0].Text? || !Ascii(ts[0].s) || Lower(ts[0].s) in seen then None
    else
      var next := AfterValue(ts[1..]);
      if next.None? then None else AfterMembers(next.value, seen + {Lower(ts[0].s)})
  }

  function AfterItems(ts: seq<Token>): (rest: Option<seq<Token>>)
    ensures rest.Some? ==> |rest.value| < |ts|
    decreases |ts|, 1
  {
    if |ts| == 0 then None
    else if Closes(ts[0]) then if ts[0].CloseArray? then Some(ts[1..]) else None
    else
      var next := AfterValue(ts);
      if next.None? then None else AfterItems(next.value)
  }

  predicate Avoids(keys: seq<string>, seen: set<string>) { forall i :: 0 <= i < |keys| ==> keys[i] !in seen }

  /** The stream of any tree is consumed exactly to the tree's end when its keys are unique, and refused otherwise. */
  lemma {:induction false} ValueIsExact(j: Json, rest: seq<Token>)
    ensures AfterValue(Tokens(j) + rest) == if UniqueKeys(j) then Some(rest) else None
  {
    var ts := Tokens(j) + rest;
    match j
    case Atom(v) => assert ts[1..] == rest;
    case Quoted(s) => assert ts[1..] == rest;
    case Array(items) =>
      assert ts[1..] == ItemTokens(items) + ([CloseArray] + rest);
      ItemsAreExact(items, rest);
    case Object(members) =>
      assert ts[1..] == MemberTokens(members) + ([CloseObject] + rest);
      MembersAreExact(members, {}, rest);
  }

  lemma {:induction false} ItemsAreExact(items: Items, rest: seq<Token>)
    ensures AfterItems(ItemTokens(items) + ([CloseArray] + rest)) == if UniqueItems(items) then Some(rest) else None
  {
    var ts := ItemTokens(items) + ([CloseArray] + rest);
    match items
    case NoItems => assert ts == [CloseArray] + rest && ts[1..] == rest;
    case Item(head, tail) =>
      var after := ItemTokens(tail) + ([CloseArray] + rest);
      assert ts == Tokens(head) + after;
      StartsOpen(head, after);
      ValueIsExact(head, after);
      ItemsAreExact(tail, rest);
  }

  lemma StartsOpen(j: Json, after: seq<Token>)
    ensures |Tokens(j) + after| > 0 && !Closes((Tokens(j) + after)[0])
  {
  }

  lemma {:induction false} MembersAreExact(members: Members, seen: set<string>, rest: seq<Token>)
    ensures AfterMembers(MemberTokens(members) + ([CloseObject] + rest), seen)
         == if UniqueMembers(members) && Distinct(FoldedKeys(members)) && Avoids(FoldedKeys(members), seen)
            then Some(rest) else None
  {
    var ts := MemberTokens(members) + ([CloseObject] + rest);
    match members
    case NoMembers => assert ts == [CloseObject] + rest && ts[1..] == rest;
    case Member(key, value, tail) =>
      var after := MemberTokens(tail) + ([CloseObject] + rest);
      assert ts[0] == Text(key) && ts[1..] == Tokens(value) + after;
      ValueIsExact(value, after);
      MembersAreExact(tail, seen + {Lower(key)}, rest);
      FirstKey(Lower(key), FoldedKeys(tail), seen);
  }

  lemma FirstKey(first: string, others: seq<string>, seen: set<string>)
    ensures Distinct([first] + others) && Avoids([first] + others, seen)
       <==> first !in seen && Distinct(others) && Avoids(others, seen + {first})
  {
    var all := [first] + others;
    forall i | 0 <= i < |others| ensures others[i] == all[i + 1] {
    }
    if Distinct(all) && Avoids(all, seen) {
      assert all[0] == first;
      forall i | 0 <= i < |others| ensures others[i] !in seen + {first} {
        assert all[i + 1] != all[0];
      }
      forall i, j | 0 <= i < j < |others| ensures others[i] != others[j] {
        assert all[i + 1] != all[j + 1];
      }
    }
    if first !in seen && Distinct(others) && Avoids(others, seen + {first}) {
      forall i, j | 0 <= i < j < |all| ensures all[i] != all[j] {
        assert all[j] == others[j - 1] && (i > 0 ==> all[i] == others[i - 1]);
      }
      forall i | 0 <= i < |all| ensures all[i] !in seen {
        assert i > 0 ==> all[i] == others[i - 1];
      }
    }
  }

  // ---------------------------------------------------------------- the decoder

  class Decoder {
    var rest: seq<Token>

    constructor (ts: seq<Token>)
      ensures rest == ts
    {
      rest := ts;
    }

    method Next() returns (t: Option<Token>)
      modifies this
      ensures if |old(rest)| == 0 then t == None && rest == [] else t == Some(old(rest)[0]) && rest == old(rest)[1..]
    {
      if |rest| == 0 { return None; }
      t := Some(rest[0]);
      rest := rest[1..];
    }

    predicate More()
      reads this
    {
      |rest| > 0 && !Closes(rest[0])
    }

    /** Consumes one value; fails at the first repeated, non-ASCII or misplaced key. */
    method ConsumeUniqueValue() returns (ok: bool)
      modifies this
      ensures ok == AfterValue(old(rest)).Some? && (ok ==> Some(rest) == AfterValue(old(rest)))
      ensures |rest| <= |old(rest)|
      decreases |rest|
    {
      ghost var ts := rest;
      var t := Next();
      if t.None? { return false; }
      match t.value {
        case OpenObject =>
          var seen: set<string> := {};
          while More()
            invariant |rest| < |ts|
            invariant AfterValue(ts) == AfterMembers(rest, seen)
            decreases |rest|
          {
            var key := Next();
            if !key.value.Text? || !Ascii(key.value.s) { return false; }
            var folded := Lower(key.value.s);
            if folded in seen { return false; }
            seen := seen + {folded};
            var fine := ConsumeUniqueValue();
            if !fine { return false; }
          }
          var end := Next();
          ok := end == Some(CloseObject);
        case OpenArray =>
          while More()
            invariant |rest| < |ts|
            invariant AfterValue(ts) == AfterItems(rest)
            decreases |rest|
          {
            var fine := ConsumeUniqueValue();
            if !fine { return false; }
          }
          var end := Next();
          ok := end == Some(CloseArray);
        case CloseObject => ok := false;
        case CloseArray => ok := false;
        case _ => ok := true;
      }
    }
  }

  /** The whole raw value is one value with unique keys and nothing after it. */
  method UniqueJsonKeys(raw: seq<Token>) returns (ok: bool)
    ensures ok == (AfterValue(raw) == Some([]))
  {
    var dec := new Decoder(raw);
    ok := dec.ConsumeUniqueValue();
    ok := ok && |dec.rest| == 0;
  }

  /** For the tokens of any tree, the check says exactly whether its keys are unique at every depth. */
  lemma CheckIsExact(j: Json)
    ensures AfterValue(Tokens(j)) == Some([]) <==> UniqueKeys(j)
  {
    ValueIsExact(j, []);
    assert Tokens(j) + [] == Tokens(j);
  }

  // ---------------------------------------------------------------- the usage member

  /** Equality with "usage" under simple case folding; the long s is the one letter outside ASCII that folds into it. */
  predicate NamesUsage(key: string) {
    |key| == 5 && key[0] in "uU" && key[1] in "sS\U{017F}" && key[2] in "aA" && key[3] in "gG" && key[4] in "eE"
  }

  /** The values of every member named usage, in order. */
  function UsageMembers(members: Members): seq<Json> {
    if members.NoMembers? then []
    else (if NamesUsage(members.key) then [members.value] else []) + UsageMembers(members.tail)
  }

  /** A frame: no object at all, an object that breaks off or does not end the payload, or exactly one object. */
  datatype Payload = NotAnObject | Partial(members: Members) | Whole(members: Members)

  /** What extraction reports; present says whether a usage member was read before the payload turned out bad. */
  datatype Extract = Absent | Found(raw: Json) | Bad(present: bool)

  /** Isolates the usage member of a top-level object, in any spelling the typed decoding would match. */
  method ExtractUsage(payload: Payload) returns (e: Extract)
    ensures payload.NotAnObject? ==> e == Bad(false)
    ensures !payload.NotAnObject? ==>
      var found := UsageMembers(payload.members);
      e == if |found| > 1 then Bad(true)
           else if payload.Partial? then Bad(|found| == 1)
           else if |found| == 1 then Found(found[0]) else Absent
  {
    if payload.NotAnObject? { return Bad(false); }
    var left := payload.members;
    ghost var all := UsageMembers(left);
    e := Absent;
    while left.Member?
      invariant e.Absent? || e.Found?
      invariant all == (if e.Found? then [e.raw] else []) + UsageMembers(left)
      decreases left
    {
      if NamesUsage(left.key) {
        if e.Found? { return Bad(true); }
        e := Found(left.value);
      }
      left := left.tail;
    }
    if payload.Partial? { e := Bad(e.Found?); }
  }

  const PresentButMalformed := Usage(true, true, 0, 0, 0, 0, 0)

  /** The typed decoding of an isolated usage object, and the sign check on what it read. */
  function Vector(decoded: Option<Usage>): Usage {
    if decoded.None? then PresentButMalformed
    else decoded.value.(present := true, malformed := HasNegative(decoded.value))
  }

  /** One frame's usage: absent, malformed, or read from a single member whose keys are unique at every depth. */
  method ParseUsagePayload(payload: Payload, decode: Json -> Option<Usage>) returns (u: Usage)
    ensures payload.NotAnObject? ==> u == MalformedUsage
    ensures !payload.NotAnObject? ==>
      var found := UsageMembers(payload.members);
      && (|found| > 1 ==> u == PresentButMalformed)
      && (|found| == 0 ==> u == if payload.Partial? then MalformedUsage else NoUsage)
      && (|found| == 1 && payload.Partial? ==> u == PresentButMalformed)
      && (|found| == 1 && payload.Whole? ==>
            u == if found[0] == Atom("null") then NoUsage
                 else if UniqueKeys(found[0]) then Vector(decode(found[0])) else PresentButMalformed)
  {
    var e := ExtractUsage(payload);
    if e.Bad? { return if e.present then PresentButMalformed else MalformedUsage; }
    if e.Absent? || e.raw == Atom("null") { return NoUsage; }
    CheckIsExact(e.raw);
    var unique := UniqueJsonKeys(Tokens(e.raw));
    if !unique { return PresentButMalformed; }
    u := Vector(decode(e.raw));
  }
}
