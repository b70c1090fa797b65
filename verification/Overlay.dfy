/**
 Live settings over a registry of typed fields. A batch of textual overrides is applied whole or not
 at all, persisted, and only then swapped in, so that a restart from everything persisted rebuilds
 exactly the live value.
 */
module Overlay {
  import opened Billing

  /**
   A registry: each key's own parser, the checks on all fields together, and the mask between what is
   configured and what is enforced.
   */
  datatype Registry<!K, !V> = Registry(parse: (K, string) -> Option<V>, sound: map<K, V> -> bool,
                                       mask: map<K, V> -> map<K, V>)

  predicate AllParse<K, V>(reg: Registry<K, V>, batch: map<K, string>) {
    forall k :: k in batch ==> reg.parse(k, batch[k]).Some?
  }

  /** The fields a batch sets. */
  function Settings<K, V>(reg: Registry<K, V>, batch: map<K, string>): map<K, V>
    requires AllParse(reg, batch)
  {
    map k | k in batch :: reg.parse(k, batch[k]).value
  }

  /** All or nothing: the base with every field of the batch set, when each parses and the whole is sound. */
  function Overlaid<K, V>(reg: Registry<K, V>, base: map<K, V>, batch: map<K, string>): Option<map<K, V>> {
    if AllParse(reg, batch) && reg.sound(base + Settings(reg, batch)) then Some(base + Settings(reg, batch)) else None
  }

  /** Applies a batch key by key to a copy; the order it takes them in does not matter. */
  method ApplyOverrides<K(==), V(==)>(reg: Registry<K, V>, base: map<K, V>, batch: map<K, string>)
    returns (r: Option<map<K, V>>)
    ensures r == Overlaid(reg, base, batch)
  {
    var c, todo := base, batch.Keys;
    while todo != {}
      invariant todo <= batch.Keys
      invariant forall k :: k in batch && k !in todo ==> reg.parse(k, batch[k]).Some?
      invariant c == base + map k | k in batch && k !in todo :: reg.parse(k, batch[k]).value
      decreases |todo|
    {
      var k :| k in todo;
      var v := reg.parse(k, batch[k]);
      if v.None? { return None; }
      c, todo := c[k := v.value], todo - {k};
    }
    assert (map k | k in batch && k !in todo :: reg.parse(k, batch[k]).value) == Settings(reg, batch);
    r := if reg.sound(c) then Some(c) else None;
  }

  lemma SettingsUnion<K, V>(reg: Registry<K, V>, first: map<K, string>, second: map<K, string>)
    requires AllParse(reg, first) && AllParse(reg, second)
    ensures AllParse(reg, first + second)
    ensures Settings(reg, first + second) == Settings(reg, first) + Settings(reg, second)
  {
    forall k | k in first + second
      ensures (first + second)[k] == if k in second then second[k] else first[k]
    {
    }
  }

  lemma MapUnionAssociates<K, V>(a: map<K, V>, b: map<K, V>, c: map<K, V>)
    ensures a + b + c == a + (b + c)
  {
  }

  /** Two accepted batches in a row are one batch of both, the later one winning. */
  lemma BatchesChain<K, V>(reg: Registry<K, V>, base: map<K, V>, first: map<K, string>, second: map<K, string>)
    requires Overlaid(reg, base, first).Some?
    requires Overlaid(reg, Overlaid(reg, base, first).value, second).Some?
    ensures Overlaid(reg, base, first + second) == Overlaid(reg, Overlaid(reg, base, first).value, second)
  {
    SettingsUnion(reg, first, second);
    MapUnionAssociates(base, Settings(reg, first), Settings(reg, second));
  }

  /** A batch whose texts parse to the very values the fields hold is accepted and changes nothing. */
  lemma WritingBackChangesNothing<K, V>(reg: Registry<K, V>, f: map<K, V>, batch: map<K, string>)
    requires reg.sound(f) && forall k :: k in batch ==> k in f && reg.parse(k, batch[k]) == Some(f[k])
    ensures Overlaid(reg, f, batch) == Some(f)
  {
    assert f + Settings(reg, batch) == f;
  }

  /** Boots from the environment and the persisted overlay; a corrupt overlay gives nothing. */
  function Boot<K, V>(reg: Registry<K, V>, base: map<K, V>, rows: map<K, string>): Option<map<K, V>> {
    if rows == map[] then Some(base) else Overlaid(reg, base, rows)
  }

  /** An accepted batch on the live value is the same as the accumulated overlay on the environment. */
  lemma BootAfterEdit<K, V>(reg: Registry<K, V>, base: map<K, V>, rows: map<K, string>, live: map<K, V>,
                            batch: map<K, string>)
    requires Boot(reg, base, rows) == Some(live) && batch != map[] && Overlaid(reg, live, batch).Some?
    ensures Boot(reg, base, rows + batch) == Overlaid(reg, live, batch)
  {
    var k :| k in batch;
    assert k in rows + batch;
    if rows == map[] {
      assert rows + batch == batch;
    } else {
      BatchesChain(reg, base, rows, batch);
    }
  }

  class SettingsStore<K(==)> {
    var rows: map<K, string>

    constructor ()
      ensures rows == map[]
    {
      rows := map[];
    }

    /** One transaction over the batch; a row that fails undoes them all. */
    method PersistAll(batch: map<K, string>, failing: set<K>) returns (ok: bool)
      modifies this
      ensures ok <==> batch.Keys !! failing
      ensures rows == if ok then old(rows) + batch else old(rows)
    {
      var saved, todo := rows, batch.Keys;
      while todo != {}
        invariant todo <= batch.Keys && (batch.Keys - todo) !! failing
        invariant rows == saved + map k | k in batch && k !in todo :: batch[k]
        decreases |todo|
      {
        var k :| k in todo;
        if k in failing {
          rows := saved;
          return false;
        }
        rows, todo := rows[k := batch[k]], todo - {k};
      }
      assert batch == map k | k in batch && k !in todo :: batch[k];
      ok := true;
    }
  }

  datatype Edit = NoChange | Rejected | NotPersisted | Swapped | DiedBeforeSwap

  /** How an edit ends, given which rows cannot be written and whether the process dies before the swap. */
  function Outcome<K, V>(reg: Registry<K, V>, live: map<K, V>, batch: map<K, string>, failing: set<K>, dies: bool)
    : Edit
  {
    if batch == map[] then NoChange
    else if Overlaid(reg, live, batch).None? then Rejected
    else if !(batch.Keys !! failing) then NotPersisted
    else if dies then DiedBeforeSwap else Swapped
  }

  class Provider<K(==), V(==)> {
    const reg: Registry<K, V>
    var configured: map<K, V>
    var effective: map<K, V>

    constructor (reg: Registry<K, V>, configured: map<K, V>)
      ensures this.reg == reg && this.configured == configured && effective == reg.mask(configured)
    {
      this.reg, this.configured, effective := reg, configured, reg.mask(configured);
    }

    static method LoadWithOverlay(reg: Registry<K, V>, base: map<K, V>, ss: SettingsStore<K>)
      returns (r: Option<map<K, V>>)
      ensures r == Boot(reg, base, ss.rows)
    {
      if ss.rows == map[] { return Some(base); }
      r := ApplyOverrides(reg, base, ss.rows);
    }

    /**
     Validate, persist, swap. After any outcome but death, a restart from the same environment would
     rebuild exactly the live configured value; after death between persisting and swapping, it
     rebuilds the value the swap was about to install. A failed batch changes neither side.
     */
    method Apply(ghost base: map<K, V>, batch: map<K, string>, ss: SettingsStore<K>, failing: set<K>, dies: bool)
      returns (e: Edit)
      requires Boot(reg, base, ss.rows) == Some(configured) && effective == reg.mask(configured)
      modifies this, ss
      ensures effective == reg.mask(configured)
      ensures e == Outcome(reg, old(configured), batch, failing, dies)
      ensures e.Swapped? || e.DiedBeforeSwap? ==> ss.rows == old(ss.rows) + batch
      ensures e.Swapped? || e.DiedBeforeSwap? ==> Boot(reg, base, ss.rows) == Overlaid(reg, old(configured), batch)
      ensures if e.Swapped? then Some(configured) == Boot(reg, base, ss.rows) else configured == old(configured)
      ensures e.NoChange? || e.Rejected? || e.NotPersisted? ==> ss.rows == old(ss.rows)
    {
      if batch == map[] { return NoChange; }
      var next := ApplyOverrides(reg, configured, batch);
      if next.None? { return Rejected; }
      ghost var rows := ss.rows;
      var ok := ss.PersistAll(batch, failing);
      if !ok { return NotPersisted; }
      BootAfterEdit(reg, base, rows, configured, batch);
      if dies { return DiedBeforeSwap; }
      configured := next.value;
      effective := reg.mask(configured);
      e := Swapped;
    }
  }

  // ---------------------------------------------------------------- whole histories

  datatype Event<K> = EditEvent(batch: map<K, string>, failing: set<K>, dies: bool) | RestartEvent

  /** What is persisted, and what is live (None: the process is down). */
  datatype System<K, V> = System(rows: map<K, string>, live: Option<map<K, V>>)

  /** One event on the running system; a process that is down can only restart. */
  function Happen<K, V>(reg: Registry<K, V>, base: map<K, V>, s: System<K, V>, e: Event<K>): System<K, V> {
    match e
    case RestartEvent => s.(live := Boot(reg, base, s.rows))
    case EditEvent(batch, failing, dies) =>
      if s.live.None? then s else
        match Outcome(reg, s.live.value, batch, failing, dies)
        case Swapped => System(s.rows + batch, Overlaid(reg, s.live.value, batch))
        case DiedBeforeSwap => System(s.rows + batch, None)
        case _ => s
  }

  function After<K, V>(reg: Registry<K, V>, base: map<K, V>, events: seq<Event<K>>): System<K, V> {
    if |events| == 0 then System(map[], Some(base))
    else Happen(reg, base, After(reg, base, events[..|events| - 1]), events[|events| - 1])
  }

  lemma OneEvent<K, V>(reg: Registry<K, V>, base: map<K, V>, s: System<K, V>, e: Event<K>)
    requires Boot(reg, base, s.rows).Some? && (s.live.Some? ==> Boot(reg, base, s.rows) == s.live)
    ensures var t := Happen(reg, base, s, e);
            Boot(reg, base, t.rows).Some? && (t.live.Some? ==> Boot(reg, base, t.rows) == t.live)
  {
    if e.EditEvent? && s.live.Some? {
      var how := Outcome(reg, s.live.value, e.batch, e.failing, e.dies);
      if how == Swapped || how == DiedBeforeSwap {
        BootAfterEdit(reg, base, s.rows, s.live.value, e.batch);
      }
    }
  }

  /**
   Restart equivalence: after any history of accepted, rejected, persist-failed and interrupted edits
   and of restarts, the accumulated overlay still boots, in one batch, to exactly the live value.
   */
  lemma {:induction false} RestartsRebuildTheLiveValue<K, V>(reg: Registry<K, V>, base: map<K, V>,
                                                             events: seq<Event<K>>)
    ensures var s := After(reg, base, events);
            Boot(reg, base, s.rows).Some? && (s.live.Some? ==> Boot(reg, base, s.rows) == s.live)
  {
    if |events| == 0 {
    } else {
      var init := events[..|events| - 1];
      RestartsRebuildTheLiveValue(reg, base, init);
      OneEvent(reg, base, After(reg, base, init), events[|events| - 1]);
    }
  }
}
