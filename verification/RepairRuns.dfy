/** Hidden input is repaired from every state that a run can reach. */
module RepairRuns {
  import opened Modifiers
  import opened Conditions
  import opened Bindings
  import opened Winners
  import opened KeyTables
  import opened Timers
  import opened Resyncs
  import opened EngineStates
  import opened EngineFacts
  import opened Tokens
  import opened Worlds
  import opened Repair

  /** What every run keeps of the planner's counters. */
  ghost predicate PlannerKept(w: World) {
    var r := w.engine.resync;
    r.owed <= ALL && r.resynced <= r.hiding && r.notesSeen <= w.notes
  }

  lemma KeyResync(e: EngineState, event: KeyEvent, bindings: seq<Binding>, env: Env)
    requires event.vk < 256
    ensures OnKey(e, event, bindings, env).e.resync == e.resync.Event(event.vk, true)
  {
    hide OnKeyDown, OnKeyUp, DownVerdict, UpVerdict;
    var e1 := e.(maskOwed := false, resync := e.resync.Event(event.vk, true));
    match event.direction
    case Down =>
      KeyDownVerdict(e1.(keys := e1.keys.ClearReleased(env.keyDown, event.vk, ALL)), event.vk, bindings, env);
    case Up =>
      KeyUpVerdict(e1, event.vk, env);
  }

  lemma {:induction false} ForgetAllKeepsResync(e: EngineState, queue: seq<TimerRequest>)
    ensures ForgetAll(e, queue).resync == e.resync
    decreases |queue|
  {
    if queue != [] {
      ForgetAllKeepsResync(ForgetTimer(e, queue[0].token).0, queue[1..]);
    }
  }

  lemma DrainKeepsPlanner(w: World)
    requires PlannerKept(w)
    ensures PlannerKept(Drain(w))
  {}

  /** Steps before whose drain the engine's counters only grew. */
  lemma ThenDrain(w: World, w': World)
    requires PlannerKept(w) && w'.engine.resync.owed <= w.engine.resync.owed
    requires w'.engine.resync.resynced <= w'.engine.resync.hiding && w'.engine.resync.notesSeen == w.engine.resync.notesSeen
    requires w.notes <= w'.notes
    ensures PlannerKept(w') && PlannerKept(Drain(w'))
  {
    DrainKeepsPlanner(w');
  }

  lemma KeyKeepsPlanner(w: World, vk: Vk, direction: Direction)
    requires PlannerKept(w) && IsScripted(w, Key(vk, direction))
    ensures PlannerKept(NextWorld(w, Key(vk, direction)))
  {
    hide Drain, OnKey, Queued;
    if w.enabled {
      KeyResync(w.engine, KeyEvent(vk, direction), w.bindings, EnvOf(w));
    }
    ThenDrain(w, AfterKey(w, vk, direction));
  }

  /** Steps that reset the engine. */
  lemma ResetKeepsPlanner(w: World, step: WorldStep)
    requires PlannerKept(w) && IsScripted(w, step)
    requires step.Signal? || step.RemappingOff? || step.RemappingOn? || step.HookReinstall? || step.Reload?
    ensures PlannerKept(NextWorld(w, step))
  {
    hide Drain, AfterKey, AfterAdvance, ForgetAll, Pruned, SortBySpecificity, PlannerKept, TrackInjected;
    OnlyPlansMatter(w);
    match step
    case Signal(signal) =>
      var reset := if signal.Resets() then ResetWorld(w, InputLeft) else w;
      ThenDrain(w, if signal.Returned() then reset.(engine := InputReturned(reset.engine)) else reset);
    case RemappingOff => ThenDrain(w, ResetWorld(w, RemappingSwitched).(enabled := false, presses := seq(256, _ => Options.None)));
    case RemappingOn => ThenDrain(w, ResetWorld(w, RemappingSwitched).(enabled := true));
    case HookReinstall => ThenDrain(w, ResetWorld(w, HookReinstalled));
    case Reload(file) => ThenDrain(w, ResetWorld(w.(bindings := SortBySpecificity(file)), Reloaded));
  }

  /** Steps that leave the planner alone, or touch it with an event. */
  lemma OtherKeepsPlanner(w: World, step: WorldStep)
    requires PlannerKept(w) && IsScripted(w, step)
    requires step.SetForeground? || step.ForegroundChanged? || step.Advance? || step.AdvanceStalled? || step.LoseTimers?
    ensures PlannerKept(NextWorld(w, step))
  {
    hide Drain, DrainTimers, ForgetAll, AfterKey, ResetWorld, SortBySpecificity, PlannerKept, NextPlace, TrackInjected;
    OnlyPlansMatter(w);
    match step
    case SetForeground(foreground) => ThenDrain(w, w.(foreground := foreground));
    case ForegroundChanged => ThenDrain(w, w.(engine := OnForegroundChanged(w.engine)));
    case Advance(ms) =>
      DrainTimersKeepsKeys(w.engine, w.timers, w.now + ms);
      var drained := DrainTimers(w.engine, w.timers, w.now + ms);
      ThenDrain(w, w.(engine := drained.e, timers := drained.queue, now := w.now + ms));
    case AdvanceStalled(ms) => ThenDrain(w, w.(now := w.now + ms));
    case LoseTimers =>
      ForgetAllKeepsResync(w.engine, w.timers);
      ThenDrain(w, w.(engine := ForgetAll(w.engine, w.timers), timers := []));
  }

  /** Input that the hook does not decide. */
  lemma HiddenKeepsPlanner(w: World, step: WorldStep)
    requires PlannerKept(w) && IsScripted(w, step)
    requires step.UpHidden? || step.DownHidden? || step.HiddenInputNoted? || step.DaemonInjects?
    ensures PlannerKept(NextWorld(w, step))
  {
    hide Drain, AfterKey, ResetWorld, AfterAdvance, ForgetAll, SortBySpecificity, PlannerKept;
    OnlyPlansMatter(w);
    match step
    case UpHidden(vk, noticed) =>
      var up := w.(held := w.held[vk := false], osDown := w.osDown[vk := false], presses := w.presses[vk := Options.None]);
      ThenDrain(w, if noticed then up.(notes := up.notes + 1) else up);
    case DownHidden(vk, noticed) =>
      var down := w.(held := w.held[vk := true], osDown := w.osDown[vk := true], presses := w.presses[vk := Options.Some(false)]);
      ThenDrain(w, if noticed then down.(notes := down.notes + 1) else down);
    case HiddenInputNoted => ThenDrain(w, w.(notes := w.notes + 1));
    case DaemonInjects(vk, direction) =>
      var down := direction.Down?;
      var engine := if w.enabled then TrackInjected(w.engine, KeyEvent(vk, direction)) else w.engine;
      ThenDrain(w, w.(engine := engine, osDown := w.osDown[vk := down], held := w.held[vk := down]));
  }

  lemma StepKeepsPlanner(w: World, step: WorldStep)
    requires PlannerKept(w) && IsScripted(w, step)
    ensures PlannerKept(NextWorld(w, step))
  {
    hide NextWorld, PlannerKept;
    match step
    case Key(vk, direction) => KeyKeepsPlanner(w, vk, direction);
    case UpHidden(_, _) => HiddenKeepsPlanner(w, step);
    case DownHidden(_, _) => HiddenKeepsPlanner(w, step);
    case HiddenInputNoted => HiddenKeepsPlanner(w, step);
    case DaemonInjects(_, _) => HiddenKeepsPlanner(w, step);
    case Signal(_) => ResetKeepsPlanner(w, step);
    case RemappingOff => ResetKeepsPlanner(w, step);
    case RemappingOn => ResetKeepsPlanner(w, step);
    case HookReinstall => ResetKeepsPlanner(w, step);
    case Reload(_) => ResetKeepsPlanner(w, step);
    case _ => OtherKeepsPlanner(w, step);
  }

  lemma OnlyPlansMatter(w: World)
    requires PlannerKept(w)
    ensures w.engine.resync.resynced <= w.engine.resync.hiding
  {}

  lemma {:induction false} RunKeepsPlanner(w: World, script: seq<WorldStep>)
    requires PlannerKept(w) && IsScript(w, script)
    ensures PlannerKept(RunWorld(w, script))
    decreases |script|
  {
    hide NextWorld, PlannerKept, IsScripted;
    if script != [] {
      StepKeepsPlanner(w, script[0]);
      RunKeepsPlanner(NextWorld(w, script[0]), script[1..]);
    }
  }

  /** The steps after which the main thread reads everything: input hidden
      and noticed, another window in front, input back on this desktop. */
  predicate IsHidingSource(step: WorldStep) {
    match step
    case UpHidden(_, noticed) => noticed
    case DownHidden(_, noticed) => noticed
    case HiddenInputNoted => true
    case ForegroundChanged => true
    case Signal(signal) => signal.Returned()
    case _ => false
  }

  ghost predicate AllRepaired(w: World) {
    forall modifier :: modifier in ALL ==> IsRepaired(w.engine.keys, w.osDown, modifier)
  }

  /** One drain more leaves each modifier as Windows has it, but for the
      swallowed presses. */
  ghost predicate RepairedByADrain(w: World) {
    AllRepaired(Drain(w))
  }

  /** A pending read and two drains, in the world. */
  lemma PendingReadRepairs(w: World)
    requires PlannerKept(w) && w.enabled && !w.engine.resync.inputAway
    requires w.engine.resync.ReadPending() || w.notes != w.engine.resync.notesSeen
    ensures var w' := Drain(Drain(w));
            AllRepaired(w') && w'.engine.keys.last == w.engine.keys.last && w'.osDown == w.osDown
  {
    hide IsRepaired, ResyncIfDue;
    assert EnvOf(Drain(w)) == EnvOf(w);
    TwoDrainsRepair(w.engine, EnvOf(w), w.osDown, w.notes);
  }

  /** A world that some run of some config comes to. */
  ghost predicate IsReachable(w: World) {
    exists file, foreground, now, script :: LeadsTo(FirstWorld(file, foreground, now), script, w)
  }

  ghost predicate LeadsTo(first: World, script: seq<WorldStep>, w: World) {
    IsScript(first, script) && RunWorld(first, script) == w
  }

  /** From any state of any run, whatever the flags are there: a source of
      hidden input with remapping on and input present, its drain and one more
      leave each modifier as Windows has it, but for the swallowed presses. */
  lemma HiddenInputIsRepaired(w: World, step: WorldStep)
    requires IsReachable(w)
    requires IsScripted(w, step) && w.enabled && IsHidingSource(step)
    requires step.Signal? || !w.engine.resync.inputAway
    ensures RepairedByADrain(NextWorld(w, step))
  {
    hide RepairedByADrain, FirstWorld, NextWorld;
    var file, foreground, now, script :| LeadsTo(FirstWorld(file, foreground, now), script, w);
    FirstKeepsPlanner(file, foreground, now);
    RunKeepsPlanner(FirstWorld(file, foreground, now), script);
    SourceIsRepaired(w, step);
  }

  lemma FirstKeepsPlanner(file: seq<Binding>, foreground: ForegroundInfo, now: nat)
    ensures PlannerKept(FirstWorld(file, foreground, now))
  {
    hide SortBySpecificity;
  }

  lemma SourceIsRepaired(w: World, step: WorldStep)
    requires PlannerKept(w) && IsScripted(w, step) && w.enabled && IsHidingSource(step)
    requires step.Signal? || !w.engine.resync.inputAway
    ensures RepairedByADrain(NextWorld(w, step))
  {
    hide Drain, AllRepaired, AfterKey, ResetWorld, AfterAdvance, ForgetAll, SortBySpecificity, TrackInjected;
    var hidden := match step
      case UpHidden(vk, _) =>
        w.(held := w.held[vk := false], osDown := w.osDown[vk := false], presses := w.presses[vk := Options.None], notes := w.notes + 1)
      case DownHidden(vk, _) =>
        w.(held := w.held[vk := true], osDown := w.osDown[vk := true], presses := w.presses[vk := Options.Some(false)], notes := w.notes + 1)
      case HiddenInputNoted => w.(notes := w.notes + 1)
      case ForegroundChanged => w.(engine := OnForegroundChanged(w.engine))
      case _ => w.(engine := InputReturned(w.engine));
    assert NextWorld(w, step) == Drain(hidden);
    PendingReadRepairs(hidden);
  }
}
