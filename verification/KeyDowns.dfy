/** What a key-down comes to, read off the bindings: the winner acts alone,
    blockers only swallow or mask, and an auto-repeat only repeats. */
module KeyDowns {
  import opened Options
  import opened Modifiers
  import opened KeySpecs
  import opened Conditions
  import opened Bindings
  import opened KeyTables
  import opened Matching
  import opened Winners
  import opened GestureTables
  import opened Timers
  import opened EngineStates

  /** The bindings an event can act on through the election alone: all but
      sequences and chords, which ignore auto-repeats. */
  ghost predicate ElectedOnly(bindings: seq<Binding>, wasRepeat: bool) {
    wasRepeat || forall b :: b in bindings ==> b.kind.Combo?
  }

  /** A blocker of this mode acts, from place `i` on. */
  ghost predicate BlockerActs(bindings: seq<Binding>, i: nat, mode: BlockerMode, press: KeyDown, env: Env) {
    exists j: nat :: i <= j < |bindings| && IsActing(bindings[j], mode, press, env)
  }

  ghost predicate IsActing(b: Binding, mode: BlockerMode, press: KeyDown, env: Env) {
    && b.kind.Combo? && b.autoBlocker == Some(mode)
    && BlockerMatches(b.kind.combo, press.vk, press.held, env.keyDown) && b.condition.Evaluate(env.foreground)
  }

  ghost predicate IsElected(bindings: seq<Binding>, winner: Option<nat>) {
    winner.Some? ==> winner.value < |bindings| && bindings[winner.value].kind.Combo? && bindings[winner.value].autoBlocker.None?
  }

  /** The winner, if it acts on the event itself, from place `i` on. */
  ghost function Immediately(bindings: seq<Binding>, i: nat, winner: Option<nat>): Option<Binding>
    requires IsElected(bindings, winner)
  {
    if winner.Some? && i <= winner.value && bindings[winner.value].trigger.Immediate? then Some(bindings[winner.value]) else None
  }

  ghost function FiredBy(b: Option<Binding>, wasRepeat: bool): seq<Action> {
    if b.Some? && (!wasRepeat || b.value.repeat) then [b.value.action] else []
  }

  lemma BlockerActsFrom(bindings: seq<Binding>, i: nat, mode: BlockerMode, press: KeyDown, env: Env)
    requires i < |bindings|
    ensures BlockerActs(bindings, i, mode, press, env) <==>
            IsActing(bindings[i], mode, press, env) || BlockerActs(bindings, i + 1, mode, press, env)
  {}

  lemma VisitOne(t: Turn, bindings: seq<Binding>, i: nat, winner: Option<nat>, wasRepeat: bool, press: KeyDown, env: Env)
    requires i < |bindings| && IsElected(bindings, winner) && ElectedOnly(bindings, wasRepeat)
    ensures var t', own := VisitBinding(t, bindings, i, winner, wasRepeat, press, env), if winner == Some(i) then Immediately(bindings, i, winner) else None;
            var masks := !wasRepeat && IsActing(bindings[i], MaskOnly, press, env);
            && t'.d.fire == t.d.fire + FiredBy(own, wasRepeat)
            && t'.d.suppress == (t.d.suppress || IsActing(bindings[i], Swallow, press, env) || (own.Some? && own.value.blockDefault))
            && t'.d.timers == t.d.timers && t'.d.mask == (t.d.mask || masks)
            && t'.e == t.e.(maskOwed := t.e.maskOwed || masks)
  {
    hide BlockerMatches, ComboMatches;
    assert bindings[i] in bindings;
  }

  lemma {:induction false} VisitAll(t: Turn, bindings: seq<Binding>, i: nat, winner: Option<nat>, wasRepeat: bool, press: KeyDown, env: Env)
    requires i <= |bindings| && IsElected(bindings, winner) && ElectedOnly(bindings, wasRepeat)
    ensures var t', own := VisitFrom(t, bindings, i, winner, wasRepeat, press, env), Immediately(bindings, i, winner);
            var masks := !wasRepeat && BlockerActs(bindings, i, MaskOnly, press, env);
            && t'.d.fire == t.d.fire + FiredBy(own, wasRepeat)
            && t'.d.suppress == (t.d.suppress || BlockerActs(bindings, i, Swallow, press, env) || (own.Some? && own.value.blockDefault))
            && t'.d.timers == t.d.timers && t'.d.mask == (t.d.mask || masks)
            && t'.e == t.e.(maskOwed := t.e.maskOwed || masks)
    decreases |bindings| - i
  {
    hide VisitBinding, IsActing, ElectedOnly;
    if i < |bindings| {
      VisitOne(t, bindings, i, winner, wasRepeat, press, env);
      VisitAll(VisitBinding(t, bindings, i, winner, wasRepeat, press, env), bindings, i + 1, winner, wasRepeat, press, env);
      BlockerActsFrom(bindings, i, Swallow, press, env);
      BlockerActsFrom(bindings, i, MaskOnly, press, env);
    }
  }

  lemma ElectionElects(bindings: seq<Binding>, press: KeyDown)
    ensures IsElected(bindings, ElectOf(bindings, press))
  {
    ElectionFindsTheBest(bindings, press);
    if ElectOf(bindings, press).Some? {
      assert IsBest(bindings, ElectOf(bindings, press).value, CandidatesOf(press));
    }
  }

  /** An auto-repeat arms, ends and asks for nothing. It fires at most the
      action of an immediate winner that repeats. It follows the record of its
      press; without a settled one it is swallowed iff a blocker or the
      immediate winner asks, and that is recorded. */
  lemma RepeatsOnlyRepeat(e: EngineState, vk: Vk, bindings: seq<Binding>, env: Env)
    requires e.keys.Active(vk)
    ensures var t := EngineStates.OnKeyDown(e, vk, bindings, env);
            var winner := ElectOf(bindings, KeyDown(vk, e.keys.active, env.foreground));
            && t.d.fire == (if winner.Some? && bindings[winner.value].trigger.Immediate? && bindings[winner.value].repeat
                            then [bindings[winner.value].action] else [])
            && t.d.timers == []
            && (if e.keys.IsBlocked(vk) then t.d.suppress && t.e == e
                else if e.keys.IsPassed(vk) then !t.d.suppress && t.e == e
                else
                  && t.d.suppress == (BlockerActs(bindings, 0, Swallow, KeyDown(vk, e.keys.active, env.foreground), env)
                                      || (winner.Some? && bindings[winner.value].trigger.Immediate? && bindings[winner.value].blockDefault))
                  && t.e == e.(keys := e.keys.WithRecord(vk, if t.d.suppress then RepeatSuppressed else Passed)))
  {
    hide BlockerActs, ElectOf, KeyTable.AltOrWinDownInWindows;
    var press := KeyDown(vk, e.keys.active, env.foreground);
    assert e.keys.Press(vk) == e.keys;
    var winner := ElectOf(bindings, press);
    ElectionElects(bindings, press);
    VisitAll(Turn(e, Nothing), bindings, 0, winner, true, press, env);
  }

  /** A first key-down where only `keys` bindings and blockers are configured.
      What it fires, in order: the waiting Taps of other keys it ends, what
      its own press resolves, and the winner's action if that is immediate. It
      is swallowed iff a blocker swallows it, or the immediate winner does, or
      the group it arms. */
  lemma FirstKeyDown(e: EngineState, vk: Vk, bindings: seq<Binding>, env: Env)
    requires !e.keys.Active(vk) && ElectedOnly(bindings, false)
    ensures var t := EngineStates.OnKeyDown(e, vk, bindings, env);
            var held := e.keys.Press(vk);
            var press := KeyDown(vk, held.active, env.foreground);
            var winner := ElectOf(bindings, press);
            var group := GroupOf(bindings, winner, press);
            var kept := e.gestures.(presses := Kept(e.gestures.presses, vk, held, env.now));
            var pressed := PressOf(kept, vk, group, env.now, e.lastId + 1);
            var immediate := winner.Some? && bindings[winner.value].trigger.Immediate?;
            && t.d.fire == EndedTaps(e.gestures.presses, vk, held, env.now) + pressed.fired
                           + (if immediate then [bindings[winner.value].action] else [])
            && t.d.suppress == (BlockerActs(bindings, 0, Swallow, press, env)
                                || (immediate && bindings[winner.value].blockDefault)
                                || (group.Some? && group.value.block))
            && t.e.gestures == pressed.table && t.e.chords == e.chords && t.e.sequences == e.sequences
            && t.d.timers == (if pressed.holdDue.Some? then [e.Request(GestureSlot(vk), e.lastId + 1, pressed.holdDue.value)] else [])
            && t.e.maskOwed == (e.maskOwed || BlockerActs(bindings, 0, MaskOnly, press, env))
            && t.e.keys == held.WithRecord(vk, if t.d.suppress then Suppressed else Passed)
  {
    hide PressOf, Kept, EndedTaps, BlockerActs, ElectedOnly, ElectOf, GroupOf;
    var held := e.(keys := e.keys.Press(vk));
    var press := KeyDown(vk, held.keys.active, env.foreground);
    var winner := ElectOf(bindings, press);
    var group := GroupOf(bindings, winner, press);
    ElectionElects(bindings, press);
    VisitAll(ArmGroup(held, group, vk, env.now), bindings, 0, winner, false, press, env);
  }
}
