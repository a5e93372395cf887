/** No armed wait is lost over a whole run, nor outlives the drain of its time. */
module WorldTimers {
  import Options
  import opened Modifiers
  import opened Conditions
  import opened Bindings
  import opened Winners
  import opened Timers
  import opened EngineStates
  import opened EngineFacts
  import opened Tokens
  import opened Worlds

  /** Every wait has its timer in the queue, and every live token there names
      the wait of an entry, with its deadline. */
  ghost predicate NoWaitLost(w: World) {
    EngineInv(w.engine) && QueueInv(w.engine, w.timers)
  }

  /** After time went by up to `now` with the timers running, nothing waits
      for a time that has passed. */
  ghost predicate TimersKept(w: World, step: WorldStep) {
    && NoWaitLost(w)
    && (step.Advance? ==> forall r :: IsWaiting(AfterAdvance(w, step.ms).engine, r) ==> r.due > w.now + step.ms)
  }

  /** One step of the engine that asks for no timer. */
  lemma QuietStep(w: World, op: EngineOp)
    requires NoWaitLost(w) && Step(w.engine, op).d.timers == []
    ensures NoWaitLost(w.(engine := Step(w.engine, op).e))
    ensures NoWaitLost(w.(engine := Step(w.engine, op).e, timers := Pruned(Step(w.engine, op).e, w.timers)))
  {
    hide QueueInv, EngineInv, Pruned, Queued, Step;
    StepInv(w.engine, op);
    StepKeepsQueue(w.engine, w.timers, op);
    var kept := Pruned(Step(w.engine, op).e, w.timers);
    assert kept + Step(w.engine, op).d.timers == kept;
  }

  lemma DrainKeepsWaits(w: World)
    requires NoWaitLost(w)
    ensures NoWaitLost(Drain(w))
  {
    hide NoWaitLost;
    if w.enabled {
      QuietStep(w, DrainOp(w.notes, EnvOf(w)));
    }
  }

  lemma KeyKeepsWaits(w: World, vk: Vk, direction: Direction)
    requires NoWaitLost(w) && vk < 256
    ensures NoWaitLost(AfterKey(w, vk, direction))
  {
    hide QueueInv, EngineInv, OnKey, Queued;
    if w.enabled {
      var op := KeyOp(KeyEvent(vk, direction), w.bindings, EnvOf(w));
      StepInv(w.engine, op);
      StepKeepsQueue(w.engine, w.timers, op);
    } else {
      NothingAsked(w.engine, w.timers);
    }
  }

  lemma NothingAsked(e: EngineState, queue: seq<TimerRequest>)
    ensures Queued(e, Nothing.timers, queue) == queue
  {}

  lemma ResetKeepsWaits(w: World, reason: ResetReason)
    requires NoWaitLost(w)
    ensures NoWaitLost(ResetWorld(w, reason))
  {
    hide NoWaitLost, Pruned;
    QuietStep(w, ResetOp(reason, EnvOf(w)));
  }

  lemma SameEngineKeepsWaits(w: World, w': World)
    requires NoWaitLost(w) && w'.engine == w.engine && w'.timers == w.timers
    ensures NoWaitLost(w') && NoWaitLost(Drain(w'))
  {
    assert NoWaitLost(w');
    DrainKeepsWaits(w');
  }

  lemma AdvanceKeepsWaits(w: World, ms: nat)
    requires NoWaitLost(w)
    ensures NoWaitLost(AfterAdvance(w, ms)) && TimersKept(w, Advance(ms))
  {
    hide QueueInv, EngineInv, DrainTimers, IsWaiting, Drain, NextPlace;
    var target := w.now + ms;
    DrainKeepsQueue(w.engine, w.timers, target);
    DrainLeavesNothingWaiting(w.engine, w.timers, target);
    var drained := DrainTimers(w.engine, w.timers, target);
    var arrived := w.(engine := drained.e, timers := drained.queue, now := target);
    SameEngineKeepsWaits(arrived, arrived);
    forall r | IsWaiting(AfterAdvance(w, ms).engine, r) ensures r.due > target {
      DrainAddsNoWait(arrived, r);
    }
  }

  lemma DrainAddsNoWait(w: World, r: TimerRequest)
    ensures IsWaiting(Drain(w).engine, r) <==> IsWaiting(w.engine, r)
  {}

  /** Steps that do not reach the engine before the drain. */
  lemma OutsideKeepsWaits(w: World, step: WorldStep)
    requires NoWaitLost(w) && IsScripted(w, step)
    requires step.UpHidden? || step.DownHidden? || step.HiddenInputNoted? || step.SetForeground? || step.AdvanceStalled?
    ensures NoWaitLost(NextWorld(w, step))
  {
    hide NoWaitLost, AfterKey, ResetWorld, Drain, AfterAdvance, AfterSignal, ForgetAll, SortBySpecificity, TrackInjected;
    match step
    case UpHidden(vk, noticed) =>
      var up := w.(held := w.held[vk := false], osDown := w.osDown[vk := false], presses := w.presses[vk := Options.None]);
      SameEngineKeepsWaits(w, if noticed then up.(notes := up.notes + 1) else up);
    case DownHidden(vk, noticed) =>
      var down := w.(held := w.held[vk := true], osDown := w.osDown[vk := true], presses := w.presses[vk := Options.Some(false)]);
      SameEngineKeepsWaits(w, if noticed then down.(notes := down.notes + 1) else down);
    case HiddenInputNoted => SameEngineKeepsWaits(w, w.(notes := w.notes + 1));
    case SetForeground(foreground) => SameEngineKeepsWaits(w, w.(foreground := foreground));
    case AdvanceStalled(ms) => SameEngineKeepsWaits(w, w.(now := w.now + ms));
  }

  /** Steps that only tell the engine something. */
  lemma ToldKeepsWaits(w: World, step: WorldStep)
    requires NoWaitLost(w) && IsScripted(w, step)
    requires step.ForegroundChanged? || step.DaemonInjects? || step.Signal?
    ensures NoWaitLost(NextWorld(w, step))
  {
    hide NoWaitLost, AfterKey, ResetWorld, Drain, AfterAdvance, ForgetAll, SortBySpecificity, TrackInjected;
    match step
    case ForegroundChanged =>
      QuietStep(w, ForegroundOp);
      DrainKeepsWaits(w.(engine := OnForegroundChanged(w.engine)));
    case Signal(signal) =>
      ResetKeepsWaits(w, InputLeft);
      var reset := if signal.Resets() then ResetWorld(w, InputLeft) else w;
      QuietStep(reset, ReturnedOp);
      DrainKeepsWaits(if signal.Returned() then reset.(engine := InputReturned(reset.engine)) else reset);
    case DaemonInjects(vk, direction) =>
      var down := direction.Down?;
      var moved := w.(osDown := w.osDown[vk := down], held := w.held[vk := down]);
      SameEngineKeepsWaits(w, moved);
      QuietStep(moved, InjectedOp(KeyEvent(vk, direction)));
      DrainKeepsWaits(if w.enabled then moved.(engine := TrackInjected(w.engine, KeyEvent(vk, direction))) else moved);
  }

  /** Steps that reset the engine. */
  lemma ResetStepKeepsWaits(w: World, step: WorldStep)
    requires NoWaitLost(w) && IsScripted(w, step)
    requires step.RemappingOff? || step.RemappingOn? || step.HookReinstall? || step.Reload?
    ensures NoWaitLost(NextWorld(w, step))
  {
    hide NoWaitLost, AfterKey, ResetWorld, Drain, AfterAdvance, AfterSignal, ForgetAll, SortBySpecificity, TrackInjected;
    ResetKeepsWaits(w, RemappingSwitched);
    var reset := ResetWorld(w, RemappingSwitched);
    match step
    case RemappingOff => SameEngineKeepsWaits(reset, reset.(enabled := false, presses := seq(256, _ => Options.None)));
    case RemappingOn => SameEngineKeepsWaits(reset, reset.(enabled := true));
    case HookReinstall =>
      ResetKeepsWaits(w, HookReinstalled);
      DrainKeepsWaits(ResetWorld(w, HookReinstalled));
    case Reload(file) =>
      var swapped := w.(bindings := SortBySpecificity(file));
      SameEngineKeepsWaits(w, swapped);
      ResetKeepsWaits(swapped, Reloaded);
      DrainKeepsWaits(ResetWorld(swapped, Reloaded));
  }

  lemma StepKeepsWaits(w: World, step: WorldStep)
    requires NoWaitLost(w) && IsScripted(w, step) && !step.LoseTimers?
    ensures NoWaitLost(NextWorld(w, step)) && TimersKept(w, step)
  {
    hide NoWaitLost, AfterKey, ResetWorld, Drain, AfterAdvance, AfterSignal, ForgetAll, SortBySpecificity, TrackInjected;
    if step.Advance? {
      AdvanceKeepsWaits(w, step.ms);
    } else if step.Key? {
      KeyKeepsWaits(w, step.vk, step.direction);
      DrainKeepsWaits(AfterKey(w, step.vk, step.direction));
    } else {
      hide NextWorld;
      match step
      case ForegroundChanged => ToldKeepsWaits(w, step);
      case Signal(_) => ToldKeepsWaits(w, step);
      case DaemonInjects(_, _) => ToldKeepsWaits(w, step);
      case RemappingOff => ResetStepKeepsWaits(w, step);
      case RemappingOn => ResetStepKeepsWaits(w, step);
      case HookReinstall => ResetStepKeepsWaits(w, step);
      case Reload(_) => ResetStepKeepsWaits(w, step);
      case _ => OutsideKeepsWaits(w, step);
    }
  }

  lemma {:induction false} RunKeepsWaits(w: World, script: seq<WorldStep>)
    requires NoWaitLost(w) && IsScript(w, script) && WorldStep.LoseTimers !in script
    ensures EveryStep(w, script, TimersKept) && NoWaitLost(RunWorld(w, script))
    decreases |script|
  {
    hide NextWorld, NoWaitLost, IsScripted, TimersKept;
    if script != [] {
      assert script[0] in script;
      assert !script[0].LoseTimers?;
      StepKeepsWaits(w, script[0]);
      RunKeepsWaits(NextWorld(w, script[0]), script[1..]);
    }
  }

  /** In every run in which no timer is lost, whatever the bindings, the focus,
      the resets, hidden or injected input and stalled clocks: at every step
      each wait of the engine has its timer queued at its deadline, and each
      advance of the clock leaves no gesture, chord or sequence waiting for a
      time that has passed. */
  lemma NoArmedWaitIsLost(file: seq<Binding>, foreground: ForegroundInfo, now: nat, script: seq<WorldStep>)
    requires IsScript(FirstWorld(file, foreground, now), script) && WorldStep.LoseTimers !in script
    ensures var w := FirstWorld(file, foreground, now);
            && EveryStep(w, script, TimersKept)
            && forall r :: IsWaiting(RunWorld(w, script).engine, r) ==> r in RunWorld(w, script).timers
  {
    hide SortBySpecificity, IsWaiting;
    var start := StartWorld(file, foreground, now);
    NewEngineWaitsForNothing();
    assert NoWaitLost(start);
    DrainKeepsWaits(start);
    RunKeepsWaits(FirstWorld(file, foreground, now), script);
  }
}
