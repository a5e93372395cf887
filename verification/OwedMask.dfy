/** When a key event asks for the menu mask, MaskOnly blockers included: it is owed to the next key event. */
module OwedMask {
  import opened Options
  import opened Modifiers
  import opened Timers
  import opened Conditions
  import opened Bindings
  import opened KeyTables
  import opened Matching
  import opened MatchingRules
  import opened Winners
  import opened EngineStates
  import opened Tokens
  import opened Worlds
  import GestureTables
  import KeyDowns
  import MaskRule
  import MaskExactly
  import Chords = ChordTables
  import Sequences = SequenceTables

  // ----- the engine -----

  /** A MaskOnly blocker acts on a key-down: its `when:` holds, the pressed code
      triggers its hotkey, each key of it is held, and Windows has no other held
      code down. */
  ghost predicate MasksOnly(b: Binding, pressed: Vk, held: Flags, env: Env) {
    && b.kind.Combo? && b.autoBlocker == Some(MaskOnly)
    && b.condition.Evaluate(env.foreground)
    && Triggers(b.kind.combo.keys, pressed)
    && (forall key :: key in b.kind.combo.keys ==> IsHeld(key, held))
    && forall c: Vk :: c < 256 && held[c] && env.keyDown(c) ==> exists key :: key in b.kind.combo.keys && key.Accepts(c)
  }

  /** One acts on this event, a first key-down. */
  ghost predicate BlockerMasks(e: EngineState, event: KeyEvent, bindings: seq<Binding>, env: Env) {
    && event.direction.Down? && !e.keys.Active(event.vk)
    && exists b :: b in bindings
         && MasksOnly(b, event.vk, e.keys.ClearReleased(env.keyDown, event.vk, ALL).Press(event.vk).active, env)
  }

  lemma ActingMeans(b: Binding, press: KeyDown, env: Env)
    requires press.foreground == env.foreground
    ensures KeyDowns.IsActing(b, MaskOnly, press, env) <==> MasksOnly(b, press.vk, press.held, env)
  {
    hide BlockerMatches, Triggers, IsHeld;
    if b.kind.Combo? {
      BlockerMatchesMeans(b.kind.combo, press.vk, press.held, env.keyDown);
    }
  }

  lemma VisitMask(t: Turn, bindings: seq<Binding>, i: nat, winner: Option<nat>, wasRepeat: bool, press: KeyDown, env: Env)
    requires i < |bindings| && (winner.Some? ==> winner.value < |bindings|)
    ensures var t', acts := VisitBinding(t, bindings, i, winner, wasRepeat, press, env), !wasRepeat && KeyDowns.IsActing(bindings[i], MaskOnly, press, env);
            t'.d.mask == (t.d.mask || acts) && t'.e.maskOwed == (t.e.maskOwed || acts)
  {
    hide Sequences.FeedSequence, Chords.FeedChord, BlockerMatches, Admits;
  }

  lemma {:induction false} VisitFromMask(t: Turn, bindings: seq<Binding>, i: nat, winner: Option<nat>, wasRepeat: bool, press: KeyDown, env: Env)
    requires i <= |bindings| && (winner.Some? ==> winner.value < |bindings|)
    ensures var t', acts := VisitFrom(t, bindings, i, winner, wasRepeat, press, env), !wasRepeat && KeyDowns.BlockerActs(bindings, i, MaskOnly, press, env);
            t'.d.mask == (t.d.mask || acts) && t'.e.maskOwed == (t.e.maskOwed || acts)
    decreases |bindings| - i
  {
    hide VisitBinding, KeyDowns.IsActing;
    if i < |bindings| {
      VisitMask(t, bindings, i, winner, wasRepeat, press, env);
      VisitFromMask(VisitBinding(t, bindings, i, winner, wasRepeat, press, env), bindings, i + 1, winner, wasRepeat, press, env);
      KeyDowns.BlockerActsFrom(bindings, i, MaskOnly, press, env);
    }
  }

  lemma SomeBlockerActs(bindings: seq<Binding>, press: KeyDown, env: Env)
    requires press.foreground == env.foreground
    ensures KeyDowns.BlockerActs(bindings, 0, MaskOnly, press, env) <==>
            exists b :: b in bindings && MasksOnly(b, press.vk, press.held, env)
  {
    hide KeyDowns.IsActing, MasksOnly;
    forall b ensures KeyDowns.IsActing(b, MaskOnly, press, env) <==> MasksOnly(b, press.vk, press.held, env) {
      ActingMeans(b, press, env);
    }
    if b :| b in bindings && MasksOnly(b, press.vk, press.held, env) {
      var j: nat :| j < |bindings| && bindings[j] == b;
      assert KeyDowns.IsActing(bindings[j], MaskOnly, press, env);
    }
  }

  lemma RecordDownMask(t: Turn, vk: Vk, wasRepeat: bool)
    ensures var r := RecordDown(t, vk, wasRepeat); r.d.mask == t.d.mask && r.e.maskOwed == t.e.maskOwed
  {}

  lemma SwallowMask(t: Turn)
    ensures var r := MaskIfSwallowed(t);
            && r.d.mask == (t.d.mask || (r.d.suppress && r.e.keys.AltOrWinDownInWindows()))
            && r.e.maskOwed == t.e.maskOwed
  {}

  lemma KeyDownMask(e: EngineState, vk: Vk, bindings: seq<Binding>, env: Env)
    requires !e.maskOwed
    ensures var t := EngineStates.OnKeyDown(e, vk, bindings, env);
            var acts := !e.keys.Active(vk) && exists b :: b in bindings && MasksOnly(b, vk, e.keys.Press(vk).active, env);
            && t.d.mask == (acts || (t.d.suppress && t.e.keys.AltOrWinDownInWindows()))
            && t.e.maskOwed == acts
  {
    hide ArmGroup, VisitFrom, ElectOf, GroupOf, MasksOnly, RecordDown, MaskIfSwallowed, KeyDowns.BlockerActs, KeyTable.AltOrWinDownInWindows;
    var held := e.(keys := e.keys.Press(vk));
    var press := KeyDown(vk, held.keys.active, env.foreground);
    var winner, wasRepeat := ElectOf(bindings, press), e.keys.Active(vk);
    var group := GroupOf(bindings, winner, press);
    MaskRule.ArmGroupAsksNoMask(held, group, vk, env.now);
    var start := if wasRepeat then Turn(held, Nothing) else ArmGroup(held, group, vk, env.now);
    VisitFromMask(start, bindings, 0, winner, wasRepeat, press, env);
    SomeBlockerActs(bindings, press, env);
    var visited := VisitFrom(start, bindings, 0, winner, wasRepeat, press, env);
    RecordDownMask(visited, vk, wasRepeat);
    SwallowMask(RecordDown(visited, vk, wasRepeat));
  }

  lemma KeyUpMask(e: EngineState, vk: Vk, env: Env)
    requires !e.maskOwed
    ensures var t := EngineStates.OnKeyUp(e, vk, env);
            && t.d.mask == (t.d.suppress && t.e.keys.AltOrWinDownInWindows())
            && !t.e.maskOwed
  {
    hide GestureTables.ReleaseOf, KeyTable.AltOrWinDownInWindows, MaskIfSwallowed, KeyTable.ClearReleased;
    var (resolved, bound) := ResolvePress(e.(keys := e.keys.Release(vk)), vk, env.now);
    SwallowMask(ConsumeRecord(resolved, vk, bound, env.keyDown));
  }

  /** A key event asks for the mask iff one was owed to it, a MaskOnly blocker
      acts on it, or it is swallowed while the engine counts an Alt or Win key.
      It owes the next event one iff such a blocker acts on it. */
  lemma EventMask(e: EngineState, event: KeyEvent, bindings: seq<Binding>, env: Env)
    ensures var t := OnKey(e, event, bindings, env);
            && t.d.mask == (e.maskOwed || BlockerMasks(e, event, bindings, env)
                            || (t.d.suppress && t.e.keys.AltOrWinDownInWindows()))
            && t.e.maskOwed == BlockerMasks(e, event, bindings, env)
  {
    hide EngineStates.OnKeyDown, EngineStates.OnKeyUp, MasksOnly, KeyTable.AltOrWinDownInWindows, KeyTable.Press;
    var e1 := e.(maskOwed := false, resync := e.resync.Event(event.vk, true));
    match event.direction
    case Down => KeyDownMask(e1.(keys := e1.keys.ClearReleased(env.keyDown, event.vk, ALL)), event.vk, bindings, env);
    case Up => KeyUpMask(e1, event.vk, env);
  }

  // ----- the world -----

  /** A MaskOnly blocker acts on the step, a key event that is decided. */
  ghost predicate MaskedBy(w: World, step: WorldStep) {
    step.Key? && w.enabled && BlockerMasks(w.engine, KeyEvent(step.vk, step.direction), w.bindings, EnvOf(w))
  }

  /** The step resets the engine. */
  predicate IsReset(step: WorldStep) {
    match step
    case Signal(signal) => signal.Resets()
    case RemappingOff => true
    case RemappingOn => true
    case HookReinstall => true
    case Reload(_) => true
    case _ => false
  }

  /** What the script alone says is owed after it: a MaskOnly blocker acted on
      its last key event, and no reset came since. */
  ghost predicate OwedBy(w: World, script: seq<WorldStep>)
    requires IsScript(w, script)
  {
    exists i :: 0 <= i < |script| && LastMasked(w, script, i)
  }

  ghost predicate LastMasked(w: World, script: seq<WorldStep>, i: int)
    requires IsScript(w, script) && 0 <= i < |script|
  {
    PrefixIsScript(w, script, i);
    && MaskedBy(RunWorld(w, script[..i]), script[i])
    && forall j :: i < j < |script| ==> !script[j].Key? && !IsReset(script[j])
  }

  lemma {:induction false} PrefixIsScript(w: World, script: seq<WorldStep>, i: nat)
    requires IsScript(w, script) && i <= |script|
    ensures IsScript(w, script[..i])
    ensures i < |script| ==> IsScripted(RunWorld(w, script[..i]), script[i])
    ensures i < |script| ==> IsScript(w, script[..i + 1]) && RunWorld(w, script[..i + 1]) == NextWorld(RunWorld(w, script[..i]), script[i])
    decreases |script|
  {
    hide NextWorld, IsScripted;
    if i > 0 {
      PrefixIsScript(NextWorld(w, script[0]), script[1..], i - 1);
      assert script[..i][1..] == script[1..][..i - 1];
      if i < |script| {
        assert script[..i + 1][1..] == script[1..][..i];
      }
    } else if i < |script| {
      assert script[..1][1..] == [] && script[..0] == [];
    }
  }

  lemma OwedAfterEvent(w: World, vk: Vk, direction: Direction)
    requires vk < 256 && (w.enabled || !w.engine.maskOwed)
    ensures var next, step := Drain(AfterKey(w, vk, direction)), WorldStep.Key(vk, direction);
            next.engine.maskOwed == MaskedBy(w, step) && next.enabled == w.enabled
  {
    hide OnKey, BlockerMasks, Queued;
    if w.enabled {
      EventMask(w.engine, KeyEvent(vk, direction), w.bindings, EnvOf(w));
    }
  }

  lemma DrainKeepsOwed(w: World)
    ensures Drain(w).engine.maskOwed == w.engine.maskOwed && Drain(w).enabled == w.enabled
  {}

  lemma ResetOwesNothing(w: World, reason: ResetReason)
    ensures !ResetWorld(w, reason).engine.maskOwed && ResetWorld(w, reason).enabled == w.enabled
  {}

  lemma QuietlyOwed(w: World, step: WorldStep)
    requires IsScripted(w, step) && !step.Key? && !IsReset(step)
    ensures NextWorld(w, step).engine.maskOwed == w.engine.maskOwed && NextWorld(w, step).enabled == w.enabled
  {
    hide Drain, ResetWorld, ForgetAll, DrainTimers, NextPlace, KeyTable.TrackInjected;
    forall w': World ensures Drain(w').engine.maskOwed == w'.engine.maskOwed && Drain(w').enabled == w'.enabled {
      DrainKeepsOwed(w');
    }
    match step
    case Advance(ms) => DrainTimersKeepsKeys(w.engine, w.timers, w.now + ms);
    case LoseTimers => ForgetAllKeepsKeys(w.engine, w.timers);
    case _ =>
  }

  lemma OwedAfterReset(w: World, step: WorldStep)
    requires IsScripted(w, step) && IsReset(step)
    ensures !NextWorld(w, step).engine.maskOwed
  {
    hide Drain, ResetWorld, SortBySpecificity;
    forall w': World ensures Drain(w').engine.maskOwed == w'.engine.maskOwed {
      DrainKeepsOwed(w');
    }
    forall w': World, reason ensures !ResetWorld(w', reason).engine.maskOwed {
      ResetOwesNothing(w', reason);
    }
  }

  lemma OwedAfterStep(w: World, step: WorldStep)
    requires IsScripted(w, step) && (w.enabled || !w.engine.maskOwed)
    ensures var next := NextWorld(w, step);
            && next.engine.maskOwed == (MaskedBy(w, step) || (w.engine.maskOwed && !step.Key? && !IsReset(step)))
            && (next.enabled || !next.engine.maskOwed)
  {
    hide AfterKey, BlockerMasks, Drain, IsReset;
    match step {
      case Key(vk, direction) => OwedAfterEvent(w, vk, direction);
      case _ =>
        if IsReset(step) {
          OwedAfterReset(w, step);
        } else {
          QuietlyOwed(w, step);
        }
    }
  }

  /** The engine owes a mask exactly when the script says so. */
  lemma {:induction false} EngineOwes(w: World, script: seq<WorldStep>, n: nat)
    requires IsScript(w, script) && w.enabled && !w.engine.maskOwed && n <= |script|
    ensures IsScript(w, script[..n])
    ensures var end := RunWorld(w, script[..n]);
            end.engine.maskOwed == OwedBy(w, script[..n]) && (end.enabled || !end.engine.maskOwed)
    decreases n
  {
    hide NextWorld, IsScripted, MaskedBy, IsReset, RunWorld;
    PrefixIsScript(w, script, n);
    if n > 0 {
      EngineOwes(w, script, n - 1);
      PrefixIsScript(w, script, n - 1);
      OwedAfterStep(RunWorld(w, script[..n - 1]), script[n - 1]);
      assert script[..n][..n - 1] == script[..n - 1];
      OwedOneMore(w, script[..n]);
    } else {
      RunNothing(w, script[..0]);
    }
  }

  lemma RunNothing(w: World, script: seq<WorldStep>)
    requires script == []
    ensures RunWorld(w, script) == w
  {}

  lemma OwedOneMore(w: World, script: seq<WorldStep>)
    requires script != [] && IsScript(w, script) && IsScript(w, script[..|script| - 1])
    ensures var n := |script| - 1;
            OwedBy(w, script) <==>
            (MaskedBy(RunWorld(w, script[..n]), script[n]) || (OwedBy(w, script[..n]) && !script[n].Key? && !IsReset(script[n])))
  {
    hide MaskedBy, IsReset, RunWorld, IsScript;
    var n := |script| - 1;
    var shorter := script[..n];
    forall i | 0 <= i < n
      ensures LastMasked(w, script, i) <==> LastMasked(w, shorter, i) && !script[n].Key? && !IsReset(script[n])
    {
      assert shorter[..i] == script[..i] && shorter[i] == script[i];
      assert forall j :: 0 <= j < n ==> shorter[j] == script[j];
    }
    if MaskedBy(RunWorld(w, script[..n]), script[n]) {
      assert LastMasked(w, script, n);
    }
  }

  /** At every key event of every run from the daemon's start: it asks for the
      menu mask iff a MaskOnly blocker acted on the last key event before it
      and no reset came since, one acts on it now, or it is swallowed while an
      Alt or Win code counts. */
  lemma EveryMask(file: seq<Binding>, foreground: ForegroundInfo, now: nat, script: seq<WorldStep>, n: nat)
    requires IsScript(FirstWorld(file, foreground, now), script) && n < |script|
    requires script[n].Key? && script[n].vk < 256
    ensures var first := FirstWorld(file, foreground, now);
            && IsScript(first, script[..n])
            && var w := RunWorld(first, script[..n]);
               var vk, direction := script[n].vk, script[n].direction;
               var d := DecisionFor(w, vk, direction).d;
               w.enabled ==>
                 (d.mask <==> OwedBy(first, script[..n]) || MaskedBy(w, script[n])
                              || (d.suppress && (MaskExactly.CountsItself(w, vk, direction) || MaskExactly.CountsAny(w, vk, direction))))
  {
    hide OnKey, NextWorld, SortBySpecificity, MaskExactly.CountsItself, MaskExactly.CountsAny, BlockerMasks, OwedBy, KeyTable.AltOrWinDownInWindows, RunWorld;
    var first := FirstWorld(file, foreground, now);
    EngineOwes(first, script, n);
    var w := RunWorld(first, script[..n]);
    var vk, direction := script[n].vk, script[n].direction;
    if w.enabled {
      EventMask(w.engine, KeyEvent(vk, direction), w.bindings, EnvOf(w));
      match direction
      case Down => MaskExactly.CountedAfterDown(w, vk);
      case Up =>
        MaskExactly.CountedAfterUp(w, vk);
        MaskExactly.NoUpCountsItself(w, vk);
    }
  }

  /** A blocker's mask is asked for twice: with its key-down, and with the next
      key event, whichever that is and whether it passes or not, however much
      happens in between that is no reset. */
  lemma {:induction false} OwedMaskIsPaid(w: World, script: seq<WorldStep>, vk: Vk, direction: Direction)
    requires w.enabled && w.engine.maskOwed
    requires IsScript(w, script) && forall step :: step in script ==> !step.Key? && !IsReset(step)
    ensures var end := RunWorld(w, script);
            end.enabled && DecisionFor(end, vk, direction).d.mask
    decreases |script|
  {
    hide OnKey, NextWorld, IsScripted, BlockerMasks, IsReset, KeyTable.AltOrWinDownInWindows;
    if script == [] {
      EventMask(w.engine, KeyEvent(vk, direction), w.bindings, EnvOf(w));
    } else {
      assert script[0] in script;
      QuietlyOwed(w, script[0]);
      OwedMaskIsPaid(NextWorld(w, script[0]), script[1..], vk, direction);
    }
  }

  /** The two events: after a MaskOnly blocker acted, both ask for the mask. */
  lemma MaskOnBothEvents(w: World, vk: Vk, between: seq<WorldStep>, next: Vk, direction: Direction)
    requires IsScripted(w, Key(vk, Down)) && MaskedBy(w, Key(vk, Down))
    requires IsScript(NextWorld(w, Key(vk, Down)), between) && forall step :: step in between ==> !step.Key? && !IsReset(step)
    ensures DecisionFor(w, vk, Down).d.mask
    ensures DecisionFor(RunWorld(NextWorld(w, Key(vk, Down)), between), next, direction).d.mask
  {
    hide OnKey, NextWorld, BlockerMasks, IsReset, KeyTable.AltOrWinDownInWindows, RunWorld, IsScript;
    EventMask(w.engine, KeyEvent(vk, Down), w.bindings, EnvOf(w));
    OwedAfterKey(w, vk);
    OwedMaskIsPaid(NextWorld(w, Key(vk, Down)), between, next, direction);
  }

  lemma OwedAfterKey(w: World, vk: Vk)
    requires IsScripted(w, Key(vk, Down)) && MaskedBy(w, Key(vk, Down))
    ensures NextWorld(w, Key(vk, Down)).enabled && NextWorld(w, Key(vk, Down)).engine.maskOwed
  {
    hide OnKey, BlockerMasks, Queued;
    EventMask(w.engine, KeyEvent(vk, Down), w.bindings, EnvOf(w));
  }
}
