/** The engine in its world: the fingers, the key state of Windows, the main
    thread's drain and timers, and everything that can happen to them. */
module Worlds {
  import opened Options
  import opened Modifiers
  import opened Conditions
  import opened Bindings
  import opened KeyTables
  import opened Winners
  import opened Timers
  import opened Resyncs
  import opened EngineStates
  import opened EngineFacts
  import opened Tokens

  datatype InputSignal = SessionLocked | SessionUnlocked | DesktopSwitchedAway | DesktopSwitchedBack {
    predicate Resets() { SessionLocked? || DesktopSwitchedAway? }
    predicate Returned() { SessionUnlocked? || DesktopSwitchedBack? }
  }

  /** For each code, whether the key-down of its current press was swallowed. */
  type Presses = presses: seq<Option<bool>> | |presses| == 256 witness seq(256, _ => None)

  datatype World = World(
    engine: EngineState,
    bindings: seq<Binding>,
    now: nat,
    osDown: Flags,
    held: Flags,
    foreground: ForegroundInfo,
    timers: seq<TimerRequest>,
    enabled: bool,
    notes: nat,
    presses: Presses)

  datatype WorldStep =
    | Key(vk: Vk, direction: Direction)
    | UpHidden(vk: Vk, noticed: bool)
    | DownHidden(vk: Vk, noticed: bool)
    | HiddenInputNoted
    | SetForeground(foreground: ForegroundInfo)
    | ForegroundChanged
    | Signal(signal: InputSignal)
    | RemappingOff
    | RemappingOn
    | HookReinstall
    | Reload(file: seq<Binding>)
    | Advance(ms: nat)
    | AdvanceStalled(ms: nat)
    | LoseTimers
    | DaemonInjects(vk: Vk, direction: Direction)

  const NoFlags: Flags := seq(256, _ => false)

  /** A code a keyboard sends: in the table, and no generic modifier code. */
  predicate IsPhysical(vk: Vk) {
    vk < 256 && vk !in GENERIC
  }

  /** What the engine can ask of a clock, a key state and a window. */
  function EnvAt(now: nat, osDown: Flags, foreground: ForegroundInfo): Env {
    Env(now, (vk: Vk) => ReadsDown(osDown, vk), foreground)
  }

  function EnvOf(w: World): Env {
    EnvAt(w.now, w.osDown, w.foreground)
  }

  /** What the script itself would call an error. */
  predicate IsScripted(w: World, step: WorldStep) {
    match step
    case Key(vk, direction) => IsPhysical(vk) && (direction.Up? ==> w.held[vk])
    case UpHidden(vk, _) => IsPhysical(vk) && w.held[vk]
    case DownHidden(vk, _) => IsPhysical(vk) && !w.held[vk]
    case ForegroundChanged => w.enabled
    case Signal(_) => w.enabled
    case RemappingOff => w.enabled
    case RemappingOn => !w.enabled
    case DaemonInjects(vk, _) => IsPhysical(vk)
    case _ => true
  }

  /** The main thread's drain: none while remapping is off. */
  function Drain(w: World): World {
    if w.enabled then w.(engine := ResyncIfDue(w.engine, EnvOf(w), w.notes)) else w
  }

  function NoteHiddenInput(w: World): World {
    Drain(w.(notes := w.notes + 1))
  }

  /** What is decided for a key event: nothing while remapping is off. */
  function DecisionFor(w: World, vk: Vk, direction: Direction): Turn {
    if w.enabled then OnKey(w.engine, KeyEvent(vk, direction), w.bindings, EnvOf(w)) else Turn(w.engine, Nothing)
  }

  /** The press record the symmetry check keeps. */
  function NotePress(w: World, vk: Vk, direction: Direction, suppress: bool): Presses
    requires vk < 256
  {
    if direction.Up? then w.presses[vk := None]
    else if w.held[vk] then w.presses
    else w.presses[vk := Some(suppress)]
  }

  function AfterKey(w: World, vk: Vk, direction: Direction): World
    requires vk < 256
  {
    var t := DecisionFor(w, vk, direction);
    var down := direction.Down?;
    w.(engine := t.e,
       osDown := if t.d.suppress then w.osDown else w.osDown[vk := down],
       held := w.held[vk := down],
       timers := Queued(t.e, t.d.timers, w.timers),
       presses := NotePress(w, vk, direction, t.d.suppress))
  }

  function ResetWorld(w: World, reason: ResetReason): World {
    var engine := Reset(w.engine, EnvOf(w), reason);
    w.(engine := engine, timers := Pruned(engine, w.timers))
  }

  function AfterSignal(w: World, signal: InputSignal): World {
    var reset := if signal.Resets() then ResetWorld(w, InputLeft) else w;
    Drain(if signal.Returned() then reset.(engine := InputReturned(reset.engine)) else reset)
  }

  function AfterAdvance(w: World, ms: nat): World {
    var target := w.now + ms;
    var drained := DrainTimers(w.engine, w.timers, target);
    var arrived := w.(engine := drained.e, timers := drained.queue, now := target);
    if NextPlace(w.timers, target) < |w.timers| then Drain(arrived) else arrived
  }

  function ForgetAll(e: EngineState, queue: seq<TimerRequest>): EngineState
    decreases |queue|
  {
    if queue == [] then e else ForgetAll(ForgetTimer(e, queue[0].token).0, queue[1..])
  }

  function NextWorld(w: World, step: WorldStep): World
    requires IsScripted(w, step)
  {
    match step
    case Key(vk, direction) => Drain(AfterKey(w, vk, direction))
    case UpHidden(vk, noticed) =>
      var up := w.(held := w.held[vk := false], osDown := w.osDown[vk := false], presses := w.presses[vk := None]);
      if noticed then NoteHiddenInput(up) else up
    case DownHidden(vk, noticed) =>
      var down := w.(held := w.held[vk := true], osDown := w.osDown[vk := true], presses := w.presses[vk := Some(false)]);
      if noticed then NoteHiddenInput(down) else down
    case HiddenInputNoted => NoteHiddenInput(w)
    case SetForeground(foreground) => w.(foreground := foreground)
    case ForegroundChanged => Drain(w.(engine := OnForegroundChanged(w.engine)))
    case Signal(signal) => AfterSignal(w, signal)
    case RemappingOff => ResetWorld(w, RemappingSwitched).(enabled := false, presses := seq(256, _ => None))
    case RemappingOn => Drain(ResetWorld(w, RemappingSwitched).(enabled := true))
    case HookReinstall => Drain(ResetWorld(w, HookReinstalled))
    case Reload(file) => Drain(ResetWorld(w.(bindings := SortBySpecificity(file)), Reloaded))
    case Advance(ms) => AfterAdvance(w, ms)
    case AdvanceStalled(ms) => w.(now := w.now + ms)
    case LoseTimers => w.(engine := ForgetAll(w.engine, w.timers), timers := [])
    case DaemonInjects(vk, direction) =>
      var down := direction.Down?;
      var engine := if w.enabled then TrackInjected(w.engine, KeyEvent(vk, direction)) else w.engine;
      Drain(w.(engine := engine, osDown := w.osDown[vk := down], held := w.held[vk := down]))
  }

  /** A sorted config and nothing held. */
  function StartWorld(file: seq<Binding>, foreground: ForegroundInfo, now: nat): World {
    World(NewEngine, SortBySpecificity(file), now, NoFlags, NoFlags, foreground, [], true, 0, seq(256, _ => None))
  }

  /** The daemon's start, after its first drain. */
  function FirstWorld(file: seq<Binding>, foreground: ForegroundInfo, now: nat): World {
    Drain(StartWorld(file, foreground, now))
  }

  predicate IsScript(w: World, script: seq<WorldStep>)
    decreases |script|
  {
    script == [] || (IsScripted(w, script[0]) && IsScript(NextWorld(w, script[0]), script[1..]))
  }

  function RunWorld(w: World, script: seq<WorldStep>): World
    requires IsScript(w, script)
    decreases |script|
  {
    if script == [] then w else RunWorld(NextWorld(w, script[0]), script[1..])
  }

  /** A check that holds at every step of a run. */
  ghost predicate EveryStep(w: World, script: seq<WorldStep>, check: (World, WorldStep) -> bool)
    requires IsScript(w, script)
    decreases |script|
  {
    script == [] || (check(w, script[0]) && EveryStep(NextWorld(w, script[0]), script[1..], check))
  }

  /** One step more at the end of a script. */
  lemma {:induction false} OneMore(w: World, script: seq<WorldStep>, step: WorldStep, longer: seq<WorldStep>)
    requires IsScript(w, script) && IsScripted(RunWorld(w, script), step) && longer == script + [step]
    ensures IsScript(w, longer) && RunWorld(w, longer) == NextWorld(RunWorld(w, script), step)
    decreases |script|
  {
    hide NextWorld, IsScripted;
    if script == [] {
      assert longer == [step];
      assert RunWorld(NextWorld(w, step), []) == NextWorld(w, step);
    } else {
      OneMore(NextWorld(w, script[0]), script[1..], step, longer[1..]);
    }
  }

  // ----- the keys of a key event -----

  /** What a decided key event does to the key table, and its verdict. */
  lemma DecidedKey(e: EngineState, event: KeyEvent, bindings: seq<Binding>, env: Env)
    requires event.vk < 256
    ensures var t := OnKey(e, event, bindings, env);
            if event.direction.Down?
            then DownVerdict(e.keys.ClearReleased(env.keyDown, event.vk, ALL), event.vk, t.e.keys, t.d.suppress)
            else exists bound :: UpVerdict(e.keys, event.vk, t.e.keys, t.d.suppress, bound, env.keyDown)
  {
    var e1 := e.(maskOwed := false, resync := e.resync.Event(event.vk, true));
    match event.direction
    case Down =>
      KeyDownVerdict(e1.(keys := e1.keys.ClearReleased(env.keyDown, event.vk, ALL)), event.vk, bindings, env);
    case Up =>
      KeyUpVerdict(e1, event.vk, env);
      var bound := ResolvePress(e1.(keys := e1.keys.Release(event.vk)), event.vk, env.now).1;
      assert UpVerdict(e.keys, event.vk, OnKey(e, event, bindings, env).e.keys, OnKey(e, event, bindings, env).d.suppress, bound, env.keyDown);
  }

  lemma {:induction false} DrainTimersKeepsKeys(e: EngineState, queue: seq<TimerRequest>, target: nat)
    ensures var drained := DrainTimers(e, queue, target);
            drained.e.keys == e.keys && drained.e.maskOwed == e.maskOwed && drained.e.resync == e.resync
    decreases |queue|
  {
    var place := NextPlace(queue, target);
    if place < |queue| {
      DrainTimersKeepsKeys(OnTimer(e, queue[place].token).e, WithoutAt(queue, place), target);
    }
  }

  lemma {:induction false} ForgetAllKeepsKeys(e: EngineState, queue: seq<TimerRequest>)
    ensures ForgetAll(e, queue).keys == e.keys && ForgetAll(e, queue).maskOwed == e.maskOwed
    decreases |queue|
  {
    if queue != [] {
      ForgetAllKeepsKeys(ForgetTimer(e, queue[0].token).0, queue[1..]);
    }
  }
}
