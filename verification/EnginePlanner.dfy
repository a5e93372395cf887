/** Which modifiers the engine's drains read, told by what happened to the engine alone. */
module EnginePlanner {
  import opened Options
  import opened Modifiers
  import opened Bindings
  import opened KeyTables
  import opened Resyncs
  import Winners
  import EngineFacts
  import opened EngineStates

  /** What a step of the engine is to the planner of reads, if anything. */
  function PlannerOpOf(op: EngineOp): Option<ResyncOp> {
    match op
    case KeyOp(event, _, _) => Some(Touched(event.vk, true))
    case InjectedOp(event) => Some(Touched(event.vk, false))
    case ForegroundOp => Some(Hid)
    case ReturnedOp => Some(Returned)
    case ResetOp(reason, _) =>
      (match reason
       case RemappingSwitched => Some(ReadAll)
       case HookReinstalled => Some(ReadAll)
       case InputLeft => Some(Left)
       case Reloaded => None)
    case DrainOp(notes, _) => Some(Planned(notes))
    case TimerOp(_) => None
    case ForgetOp(_) => None
  }

  /** The codes an observer expects a drain to read: those not read since
      something last hid input, but those an event touched since the last
      drain; and none while input is away. */
  function Expected(o: Observer, notes: nat): ModifierSet {
    if o.away then {} else (if notes != o.notes then ALL else o.unread) - o.touched
  }

  /** What the observer of a run of the engine knows after a step. */
  function Watch(o: Observer, op: EngineOp): Observer {
    match PlannerOpOf(op)
    case Some(p) => Observe(o, p, if p.Planned? then Expected(o, p.notes) else {})
    case None => o
  }

  ghost predicate EveryDrainIsRight(e: EngineState, o: Observer, ops: seq<EngineOp>)
    decreases |ops|
  {
    ops == [] ||
    (&& (ops[0].DrainOp? ==>
           Step(e, ops[0]).e.keys == e.keys.ResyncModifiers(ops[0].env.keyDown, Expected(o, ops[0].notes)))
     && EveryDrainIsRight(Step(e, ops[0]).e, Watch(o, ops[0]), ops[1..]))
  }

  lemma ReadingNothing(k: KeyTable, keyDown: Vk -> bool)
    ensures k.ResyncModifiers(keyDown, {}) == k
  {
    assert k.ResyncModifiers(keyDown, {}).active == k.active;
  }

  /** A key event moves the planner by its own event only. */
  lemma KeyOpPlans(e: EngineState, event: KeyEvent, bindings: seq<Binding>, env: Env)
    ensures OnKey(e, event, bindings, env).e.resync == e.resync.Event(event.vk, true)
  {
    hide EngineStates.OnKeyDown, EngineStates.OnKeyUp, ResyncState.Event;
    var e1 := e.(maskOwed := false, resync := e.resync.Event(event.vk, true));
    match event.direction
    case Down => KeyDownPlansNothing(e1.(keys := e1.keys.ClearReleased(env.keyDown, event.vk, ALL)), event.vk, bindings, env);
    case Up => KeyUpPlansNothing(e1, event.vk, env);
  }

  lemma KeyUpPlansNothing(e: EngineState, vk: Vk, env: Env)
    ensures EngineStates.OnKeyUp(e, vk, env).e.resync == e.resync
  {}

  lemma KeyDownPlansNothing(e: EngineState, vk: Vk, bindings: seq<Binding>, env: Env)
    ensures EngineStates.OnKeyDown(e, vk, bindings, env).e.resync == e.resync
  {
    hide Winners.ElectOf, GroupOf, VisitFrom, ArmGroup;
    var wasRepeat := e.keys.Active(vk);
    var held := e.(keys := e.keys.Press(vk));
    var press := Winners.KeyDown(vk, held.keys.active, env.foreground);
    var winner := Winners.ElectOf(bindings, press);
    var group := GroupOf(bindings, winner, press);
    ArmingPlansNothing(held, group, vk, env.now);
    var start := if wasRepeat then Turn(held, Nothing) else ArmGroup(held, group, vk, env.now);
    EngineFacts.VisitFromMarksOnly(start, bindings, 0, winner, wasRepeat, press, env);
  }

  lemma ArmingPlansNothing(e: EngineState, group: Option<Winners.GroupArming<Action>>, vk: Vk, now: nat)
    ensures ArmGroup(e, group, vk, now).e.resync == e.resync
  {}

  lemma StepPlans(e: EngineState, o: Observer, op: EngineOp)
    requires Tracks(e.resync, o)
    ensures Tracks(Step(e, op).e.resync, Watch(o, op))
    ensures op.DrainOp? ==> Step(e, op).e.keys == e.keys.ResyncModifiers(op.env.keyDown, Expected(o, op.notes))
  {
    hide OnKey, Tracks, KeyTable.ResyncModifiers, ResyncState.Plan;
    match op
    case KeyOp(event, bindings, env) =>
      KeyOpPlans(e, event, bindings, env);
      StepTracks(e.resync, o, Touched(event.vk, true));
    case InjectedOp(event) => StepTracks(e.resync, o, Touched(event.vk, false));
    case ForegroundOp => StepTracks(e.resync, o, Hid);
    case ReturnedOp => StepTracks(e.resync, o, Returned);
    case ResetOp(reason, env) => if PlannerOpOf(op).Some? { StepTracks(e.resync, o, PlannerOpOf(op).value); }
    case DrainOp(notes, env) =>
      StepTracks(e.resync, o, Planned(notes));
      ReadingNothing(e.keys, env.keyDown);
    case _ =>
  }

  lemma {:induction false} RunPlans(e: EngineState, o: Observer, ops: seq<EngineOp>)
    requires Tracks(e.resync, o)
    ensures EveryDrainIsRight(e, o, ops)
    decreases |ops|
  {
    hide Step, Tracks, Watch, Expected;
    if ops != [] {
      StepPlans(e, o, ops[0]);
      RunPlans(Step(e, ops[0]).e, Watch(o, ops[0]), ops[1..]);
    }
  }

  /** In every run of the engine each drain reads from Windows exactly what an
      observer expects who sees only what happened: every modifier not read
      since the start, a focus change, a note, or input leaving or coming back,
      but those a decided or injected event touched since the drain before; and
      nothing from input leaving until it comes back or a key event is decided. */
  lemma DrainsReadExactlyTheUnread(ops: seq<EngineOp>)
    ensures EveryDrainIsRight(NewEngine, FirstObserver, ops)
  {
    RunPlans(NewEngine, FirstObserver, ops);
  }
}
