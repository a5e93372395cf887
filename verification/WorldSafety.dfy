/** No key-up reaches Windows alone, and no key stays down there, in any run. */
module WorldSafety {
  import opened Options
  import opened Modifiers
  import opened Conditions
  import opened Bindings
  import opened KeyTables
  import opened Winners
  import opened Timers
  import opened EngineStates
  import opened EngineFacts
  import opened Tokens
  import opened Worlds

  /** A key-up that passes while remapping is on finds its key down in Windows. */
  ghost predicate NoLoneKeyUp(w: World, step: WorldStep) {
    step.Key? && step.direction.Up? && w.enabled && step.vk < 256 ==>
      DecisionFor(w, step.vk, step.direction).d.suppress || w.osDown[step.vk]
  }

  /** No key is down in Windows that the fingers have up. */
  ghost predicate NothingStuck(w: World, step: WorldStep) {
    forall vk :: 0 <= vk < 256 && w.osDown[vk] ==> w.held[vk]
  }

  ghost predicate IsSafe(w: World, step: WorldStep) {
    NoLoneKeyUp(w, step) && NothingStuck(w, step)
  }

  /** The inductive core: a held key on record as passed, or with no record,
      is down in Windows. */
  ghost predicate Safe(w: World) {
    && (forall vk :: 0 <= vk < 256 && w.osDown[vk] ==> w.held[vk])
    && (forall vk :: 0 <= vk < 256 && w.held[vk] && w.engine.keys.last[vk] in {Passed, Unknown} ==> w.osDown[vk])
    && (forall vk :: vk in GENERIC ==> !w.held[vk])
  }

  lemma KeyDownKeepsSafe(w: World, vk: Vk)
    requires Safe(w) && IsPhysical(vk)
    ensures Safe(AfterKey(w, vk, Down))
  {
    hide OnKey, Queued;
    if w.enabled {
      DecidedKey(w.engine, KeyEvent(vk, Down), w.bindings, EnvOf(w));
    }
  }

  lemma FourRecords(record: LastDown)
    ensures record in {Passed, Unknown} <==> record !in {Suppressed, RepeatSuppressed}
  {
    assert record.Unknown? || record.Passed? || record.Suppressed? || record.RepeatSuppressed?;
  }

  lemma KeyUpKeepsSafe(w: World, vk: Vk)
    requires Safe(w) && IsPhysical(vk) && w.held[vk]
    ensures NoLoneKeyUp(w, Key(vk, Up)) && Safe(AfterKey(w, vk, Up))
  {
    hide OnKey, Queued;
    var env := EnvOf(w);
    assert env.keyDown(vk) == w.osDown[vk];
    if w.enabled {
      DecidedKey(w.engine, KeyEvent(vk, Up), w.bindings, env);
      FourRecords(w.engine.keys.last[vk]);
    }
  }

  /** Steps that change neither the records, nor Windows, nor the fingers. */
  lemma QuietKeepsSafe(w: World, w': World)
    requires Safe(w) && w'.engine.keys.last == w.engine.keys.last && w'.osDown == w.osDown && w'.held == w.held
    ensures Safe(w')
  {}

  lemma DrainKeepsSafe(w: World)
    requires Safe(w)
    ensures Safe(Drain(w))
  {
    QuietKeepsSafe(w, Drain(w));
  }

  lemma QuietThenDrainSafe(w: World, w': World)
    requires Safe(w) && w'.engine.keys.last == w.engine.keys.last && w'.osDown == w.osDown && w'.held == w.held
    ensures Safe(w') && Safe(Drain(w'))
  {
    QuietKeepsSafe(w, w');
    DrainKeepsSafe(w');
  }

  lemma ResetKeepsSafe(w: World, reason: ResetReason)
    requires Safe(w)
    ensures Safe(ResetWorld(w, reason))
  {
    hide Pruned;
    var w' := ResetWorld(w, reason);
    forall vk | 0 <= vk < 256 && w.held[vk] && w'.engine.keys.last[vk] in {Passed, Unknown} ensures w.osDown[vk] {
      var env := EnvOf(w);
      assert env.keyDown(vk) == w.osDown[vk];
      FourRecords(w.engine.keys.last[vk]);
    }
  }

  /** The fingers and Windows move together where the hook does not see it. */
  lemma HiddenKeepsSafe(w: World, w': World, vk: Vk, down: bool)
    requires Safe(w) && IsPhysical(vk)
    requires w'.engine.keys.last == w.engine.keys.last
    requires w'.osDown == w.osDown[vk := down] && w'.held == w.held[vk := down]
    ensures Safe(w') && Safe(Drain(w'))
  {
    DrainKeepsSafe(w');
  }

  lemma OnlyKeyUpsAreLone(w: World, step: WorldStep)
    ensures !step.Key? || step.direction.Down? ==> NoLoneKeyUp(w, step)
  {}

  lemma InjectionKeepsRecords(e: EngineState, event: KeyEvent)
    ensures TrackInjected(e, event).keys.last == e.keys.last
  {}

  lemma SafeMeansNothingStuck(w: World, step: WorldStep)
    requires Safe(w)
    ensures NothingStuck(w, step)
  {}

  lemma HiddenStepSafe(w: World, step: WorldStep)
    requires Safe(w) && IsScripted(w, step)
    requires step.UpHidden? || step.DownHidden? || step.DaemonInjects?
    ensures Safe(NextWorld(w, step))
  {
    hide AfterKey, ResetWorld, Drain, AfterAdvance, ForgetAll, SortBySpecificity, Safe, TrackInjected;
    match step
    case UpHidden(vk, noticed) =>
      var up := w.(held := w.held[vk := false], osDown := w.osDown[vk := false], presses := w.presses[vk := None]);
      HiddenKeepsSafe(w, up, vk, false);
      HiddenKeepsSafe(w, up.(notes := up.notes + 1), vk, false);
    case DownHidden(vk, noticed) =>
      var down := w.(held := w.held[vk := true], osDown := w.osDown[vk := true], presses := w.presses[vk := Some(false)]);
      HiddenKeepsSafe(w, down, vk, true);
      HiddenKeepsSafe(w, down.(notes := down.notes + 1), vk, true);
    case DaemonInjects(vk, direction) =>
      var down := direction.Down?;
      var engine := if w.enabled then TrackInjected(w.engine, KeyEvent(vk, direction)) else w.engine;
      InjectionKeepsRecords(w.engine, KeyEvent(vk, direction));
      HiddenKeepsSafe(w, w.(engine := engine, osDown := w.osDown[vk := down], held := w.held[vk := down]), vk, down);
  }

  lemma StepKeepsSafe(w: World, step: WorldStep)
    requires Safe(w) && IsScripted(w, step)
    ensures IsSafe(w, step)
    ensures Safe(NextWorld(w, step))
  {
    hide AfterKey, ResetWorld, Drain, DrainTimers, ForgetAll, SortBySpecificity, Safe, NothingStuck, NoLoneKeyUp, TrackInjected, NextPlace;
    SafeMeansNothingStuck(w, step);
    OnlyKeyUpsAreLone(w, step);
    match step
    case Key(vk, direction) =>
      if direction.Down? {
        KeyDownKeepsSafe(w, vk);
      } else {
        KeyUpKeepsSafe(w, vk);
      }
      DrainKeepsSafe(AfterKey(w, vk, direction));
    case UpHidden(vk, noticed) => HiddenStepSafe(w, step);
    case DownHidden(vk, noticed) => HiddenStepSafe(w, step);
    case HiddenInputNoted => QuietThenDrainSafe(w, w.(notes := w.notes + 1));
    case SetForeground(foreground) => QuietKeepsSafe(w, w.(foreground := foreground));
    case ForegroundChanged => QuietThenDrainSafe(w, w.(engine := OnForegroundChanged(w.engine)));
    case Signal(signal) =>
      ResetKeepsSafe(w, InputLeft);
      var reset := if signal.Resets() then ResetWorld(w, InputLeft) else w;
      QuietThenDrainSafe(reset, if signal.Returned() then reset.(engine := InputReturned(reset.engine)) else reset);
    case RemappingOff =>
      ResetKeepsSafe(w, RemappingSwitched);
      var reset := ResetWorld(w, RemappingSwitched);
      QuietKeepsSafe(reset, reset.(enabled := false, presses := seq(256, _ => None)));
    case RemappingOn =>
      ResetKeepsSafe(w, RemappingSwitched);
      QuietThenDrainSafe(ResetWorld(w, RemappingSwitched), ResetWorld(w, RemappingSwitched).(enabled := true));
    case HookReinstall =>
      ResetKeepsSafe(w, HookReinstalled);
      DrainKeepsSafe(ResetWorld(w, HookReinstalled));
    case Reload(file) =>
      var swapped := w.(bindings := SortBySpecificity(file));
      QuietKeepsSafe(w, swapped);
      ResetKeepsSafe(swapped, Reloaded);
      DrainKeepsSafe(ResetWorld(swapped, Reloaded));
    case Advance(ms) =>
      DrainTimersKeepsKeys(w.engine, w.timers, w.now + ms);
      var drained := DrainTimers(w.engine, w.timers, w.now + ms);
      QuietThenDrainSafe(w, w.(engine := drained.e, timers := drained.queue, now := w.now + ms));
    case AdvanceStalled(ms) => QuietKeepsSafe(w, w.(now := w.now + ms));
    case LoseTimers =>
      ForgetAllKeepsKeys(w.engine, w.timers);
      QuietKeepsSafe(w, w.(engine := ForgetAll(w.engine, w.timers), timers := []));
    case DaemonInjects(vk, direction) => HiddenStepSafe(w, step);
  }

  lemma {:induction false} RunKeepsSafe(w: World, script: seq<WorldStep>)
    requires Safe(w) && IsScript(w, script)
    ensures EveryStep(w, script, IsSafe)
    ensures Safe(RunWorld(w, script))
    decreases |script|
  {
    hide NextWorld, Safe, IsScripted, IsSafe;
    if script != [] {
      StepKeepsSafe(w, script[0]);
      RunKeepsSafe(NextWorld(w, script[0]), script[1..]);
    }
  }

  /** In every run, whatever the bindings and conditions: no key-up reaches
      Windows alone while remapping is on, and no key stays down there once
      the fingers have it up. */
  lemma NoLoneKeyUpNothingStuck(file: seq<Binding>, foreground: ForegroundInfo, now: nat, script: seq<WorldStep>)
    requires IsScript(FirstWorld(file, foreground, now), script)
    ensures var w := FirstWorld(file, foreground, now);
            && EveryStep(w, script, IsSafe)
            && forall vk :: 0 <= vk < 256 && RunWorld(w, script).osDown[vk] ==> RunWorld(w, script).held[vk]
  {
    FirstIsSafe(file, foreground, now);
    RunKeepsSafe(FirstWorld(file, foreground, now), script);
  }

  lemma FirstIsSafe(file: seq<Binding>, foreground: ForegroundInfo, now: nat)
    ensures Safe(FirstWorld(file, foreground, now))
  {
    hide Drain, SortBySpecificity;
    var w := StartWorld(file, foreground, now);
    assert Safe(w);
    DrainKeepsSafe(w);
  }
}
