/** After hidden input, two drains bring the modifier flags back to Windows. */
module Repair {
  import opened Modifiers
  import opened Bindings
  import opened KeyTables
  import opened Resyncs
  import opened EngineStates

  /** A flag is repaired if it is that of a swallowed press, which Windows never
      saw; or equal to Windows for a sided code; or, for a generic code, set
      only while a key of its pair is down. */
  ghost predicate IsRepaired(k: KeyTable, down: Flags, modifier: Vk)
    requires modifier < 256
  {
    || k.last[modifier] == Suppressed
    || (if modifier in SIDED then k.active[modifier] == down[modifier]
        else k.active[modifier] ==> ReadsDown(down, modifier))
  }

  ghost predicate Witnesses(env: Env, down: Flags) {
    forall vk: Vk :: env.keyDown(vk) == ReadsDown(down, vk)
  }

  lemma ReadRepairs(k: KeyTable, env: Env, down: Flags, which: ModifierSet, modifier: Vk)
    requires Witnesses(env, down) && modifier in ALL
    requires modifier in which || IsRepaired(k, down, modifier)
    ensures IsRepaired(k.ResyncModifiers(env.keyDown, which), down, modifier)
  {
    assert env.keyDown(modifier) == ReadsDown(down, modifier);
  }

  lemma DrainReads(e: EngineState, env: Env, notes: nat)
    ensures ResyncIfDue(e, env, notes).keys == e.keys.ResyncModifiers(env.keyDown, e.resync.Plan(notes).1)
  {
    var k, read := e.keys, e.resync.Plan(notes).1;
    if read == {} {
      assert k.ResyncModifiers(env.keyDown, read).active == k.active;
    }
  }

  /** Whatever the flags were: once a source of hidden input is noted, by the
      engine's count or by the adapter's, two drains with input present, no key
      event between them and the key state unchanged repair every modifier.
      No record changes, and no other key's flag. */
  lemma TwoDrainsRepair(e: EngineState, env: Env, down: Flags, notes: nat)
    requires Witnesses(env, down) && !e.resync.inputAway && e.resync.owed <= ALL
    requires e.resync.ReadPending() || notes != e.resync.notesSeen
    requires e.resync.resynced <= e.resync.hiding
    ensures var repaired := ResyncIfDue(ResyncIfDue(e, env, notes), env, notes);
            && (forall modifier :: modifier in ALL ==> IsRepaired(repaired.keys, down, modifier))
            && repaired.keys.last == e.keys.last
            && (forall vk :: 0 <= vk < 256 && vk !in ALL ==> repaired.keys.active[vk] == e.keys.active[vk])
            && !repaired.resync.ReadPending() && repaired.resync.owed == {}
  {
    var once := ResyncIfDue(e, env, notes);
    DrainReads(e, env, notes);
    DrainReads(once, env, notes);
    var (r1, read1) := e.resync.Plan(notes);
    var (r2, read2) := r1.Plan(notes);
    assert once.resync == r1 && ResyncIfDue(once, env, notes).resync == r2;
    assert r1.owed == ALL * e.resync.freshCodes && read1 == ALL - e.resync.freshCodes;
    assert read2 == r1.owed;
    forall modifier | modifier in ALL
      ensures IsRepaired(ResyncIfDue(once, env, notes).keys, down, modifier)
    {
      if modifier in read1 {
        ReadRepairs(e.keys, env, down, read1, modifier);
      }
      ReadRepairs(once.keys, env, down, read2, modifier);
    }
  }

  /** One drain more or less changes nothing: a repaired table stays as it is
      when nothing new was noted. */
  lemma RepairIsStable(e: EngineState, env: Env, down: Flags, which: ModifierSet)
    requires Witnesses(env, down)
    requires forall modifier :: modifier in ALL ==> IsRepaired(e.keys, down, modifier)
    ensures e.keys.ResyncModifiers(env.keyDown, which) == e.keys
  {
    var k := e.keys;
    forall vk | 0 <= vk < 256 ensures k.ResyncedFlag(env.keyDown, which, vk) == k.active[vk] {
      assert env.keyDown(vk) == ReadsDown(down, vk);
      assert vk in ALL ==> IsRepaired(k, down, vk);
    }
    assert k.ResyncModifiers(env.keyDown, which).active == k.active;
  }
}
