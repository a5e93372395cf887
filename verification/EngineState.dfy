/** The decision core as a function of its state: one step per key event,
    timer, reset or drain. The class `Engine` carries these steps out in
    place. */
module EngineStates {
  import opened Options
  import opened Modifiers
  import opened KeySpecs
  import opened Conditions
  import opened Bindings
  import opened KeyTables
  import opened Matching
  import opened Winners
  import opened GestureTables
  import opened Timers
  import opened Resyncs
  import Chords = ChordTables
  import Sequences = SequenceTables

  datatype Direction = Down | Up

  datatype KeyEvent = KeyEvent(vk: Vk, direction: Direction)

  datatype Decision = Decision(suppress: bool, fire: seq<Action>, timers: seq<TimerRequest>, mask: bool)

  const Nothing: Decision := Decision(false, [], [], false)

  datatype ResetReason = RemappingSwitched | Reloaded | InputLeft | HookReinstalled

  datatype EngineState = EngineState(
    keys: KeyTable,
    gestures: GestureTable<Action>,
    chords: seq<Chords.PendingChord>,
    sequences: seq<Sequences.PendingSequence>,
    maskOwed: bool,
    generation: nat,
    lastId: nat,
    resync: ResyncState)
  {
    function Request(slot: TimerSlot, id: nat, due: nat): TimerRequest {
      TimerRequest(TimerToken(generation, slot, id), due)
    }
  }

  const NewEngine: EngineState :=
    EngineState(EmptyTable, NoGestures(), [], [], false, 0, 0, NewResync)

  /** The engine and the decision while an event is being decided. */
  datatype Turn = Turn(e: EngineState, d: Decision) {
    function Suppressing(): Turn {
      Turn(e, d.(suppress := true))
    }

    function Firing(action: Action): Turn {
      Turn(e, d.(fire := d.fire + [action]))
    }

    function Asking(slot: TimerSlot, id: nat, due: nat): Turn {
      Turn(e, d.(timers := d.timers + [e.Request(slot, id, due)]))
    }

    function Completing(codes: seq<Vk>): Turn {
      Turn(e.(keys := MarkAll(e.keys, codes)), d)
    }
  }

  function MarkAll(keys: KeyTable, codes: seq<Vk>): KeyTable
    decreases |codes|
  {
    if codes == [] then keys else MarkAll(keys.MarkCompleted(codes[0]), codes[1..])
  }

  // ----- key-down -----

  /** The gestures of a first key-down: the other keys' presses, then the
      press of this key, which `group` wins if it is a gesture group. */
  function ArmGroup(e: EngineState, group: Option<GroupArming<Action>>, vk: Vk, now: nat): Turn {
    var ended := EndedTaps(e.gestures.presses, vk, e.keys, now);
    var kept := e.gestures.(presses := Kept(e.gestures.presses, vk, e.keys, now));
    var id := e.lastId + 1;
    var pressed := PressOf(kept, vk, group, now, id);
    Turn(e.(gestures := pressed.table, lastId := id),
         Decision(group.Some? && group.value.block, ended + pressed.fired,
                  if pressed.holdDue.Some? then [e.Request(GestureSlot(vk), id, pressed.holdDue.value)] else [],
                  false))
  }

  function GroupOf(bindings: seq<Binding>, winner: Option<nat>, press: KeyDown): Option<GroupArming<Action>>
    requires winner.Some? ==> winner.value < |bindings|
  {
    if winner.Some? then DeferredGroupOf(bindings, winner.value, press) else None
  }

  function VisitBlocker(t: Turn, b: Binding, wasRepeat: bool, press: KeyDown, env: Env): Turn
    requires b.kind.Combo? && b.autoBlocker.Some?
  {
    if BlockerMatches(b.kind.combo, press.vk, press.held, env.keyDown) && b.condition.Evaluate(env.foreground) then
      match b.autoBlocker.value
      case Swallow => t.Suppressing()
      case MaskOnly => if wasRepeat then t else Turn(t.e.(maskOwed := true), t.d.(mask := true))
    else t
  }

  function VisitWinner(t: Turn, b: Binding, wasRepeat: bool): Turn {
    if b.trigger.Immediate? then
      var fired := if !wasRepeat || b.repeat then t.Firing(b.action) else t;
      if b.blockDefault then fired.Suppressing() else fired
    else t
  }

  function AfterSequence(fed: Turn, outcome: Sequences.SequenceOutcome, id: nat): Turn {
    match outcome
    case NotMatching => fed
    case Advanced(due) => fed.Suppressing().Asking(SequenceSlot, id, due)
    case Finished(action, codes) => fed.Suppressing().Firing(action).Completing(codes)
  }

  function SequenceFeedOf(t: Turn, b: Binding, press: KeyDown, now: nat): Sequences.SequenceFeed
    requires b.kind.Sequence?
  {
    Sequences.SequenceFeed(press.held, b.action, b.kind.steps, b.kind.maxGap, now, t.e.lastId + 1)
  }

  function FedSequence(t: Turn, f: Sequences.SequenceFeed): Turn {
    Turn(t.e.(sequences := Sequences.FeedSequence(t.e.sequences, f).0, lastId := f.id), t.d)
  }

  function VisitSequence(t: Turn, b: Binding, press: KeyDown, now: nat): Turn
    requires b.kind.Sequence?
  {
    var f := SequenceFeedOf(t, b, press, now);
    AfterSequence(FedSequence(t, f), Sequences.FeedSequence(t.e.sequences, f).1, f.id)
  }

  function AfterChord(fed: Turn, outcome: Chords.ChordOutcome, id: nat): Turn {
    match outcome
    case NotInChord => fed
    case Pending => fed.Suppressing()
    case Started(due) => fed.Suppressing().Asking(ChordSlot, id, due)
    case Completed(action, codes) => fed.Suppressing().Firing(action).Completing(codes)
  }

  function ChordFeedOf(t: Turn, b: Binding, press: KeyDown, now: nat): Chords.ChordFeed
    requires b.kind.Chord?
  {
    Chords.ChordFeed(press.vk, b.action, b.kind.keys, b.kind.window, now, t.e.lastId + 1)
  }

  function FedChord(t: Turn, f: Chords.ChordFeed): Turn {
    Turn(t.e.(chords := Chords.FeedChord(t.e.chords, f).0, lastId := f.id), t.d)
  }

  function VisitChord(t: Turn, b: Binding, press: KeyDown, now: nat): Turn
    requires b.kind.Chord?
  {
    var f := ChordFeedOf(t, b, press, now);
    AfterChord(FedChord(t, f), Chords.FeedChord(t.e.chords, f).1, f.id)
  }

  /** One binding of the list. */
  function VisitBinding(t: Turn, bindings: seq<Binding>, i: nat, winner: Option<nat>, wasRepeat: bool, press: KeyDown, env: Env): Turn
    requires i < |bindings| && (winner.Some? ==> winner.value < |bindings|)
  {
    var b := bindings[i];
    match b.kind
    case Combo(_) =>
      if b.autoBlocker.Some? then VisitBlocker(t, b, wasRepeat, press, env)
      else if winner.Some? && Admits(bindings, winner.value, i, press) then VisitWinner(t, b, wasRepeat)
      else t
    case Sequence(_, _) =>
      if wasRepeat || !b.condition.Evaluate(env.foreground) then t else VisitSequence(t, b, press, env.now)
    case Chord(_, _) =>
      if wasRepeat || !b.condition.Evaluate(env.foreground) then t else VisitChord(t, b, press, env.now)
  }

  function VisitFrom(t: Turn, bindings: seq<Binding>, i: nat, winner: Option<nat>, wasRepeat: bool, press: KeyDown, env: Env): Turn
    requires i <= |bindings| && (winner.Some? ==> winner.value < |bindings|)
    decreases |bindings| - i
  {
    if i == |bindings| then t
    else VisitFrom(VisitBinding(t, bindings, i, winner, wasRepeat, press, env), bindings, i + 1, winner, wasRepeat, press, env)
  }

  /** A first key-down is suppressed if anything asked for it. A repeat
      continues its key-down, and one with no record does what was asked. */
  function RecordDown(t: Turn, vk: Vk, wasRepeat: bool): Turn {
    if wasRepeat && t.e.keys.IsBlocked(vk) then t.Suppressing()
    else if wasRepeat && t.e.keys.IsPassed(vk) then Turn(t.e, t.d.(suppress := false))
    else
      var record := if !t.d.suppress then Passed else if wasRepeat then RepeatSuppressed else Suppressed;
      Turn(t.e.(keys := t.e.keys.WithRecord(vk, record)), t.d)
  }

  /** Asks for the menu mask if the event is swallowed while Windows has an
      Alt or Win key down whose key-down it saw. */
  function MaskIfSwallowed(t: Turn): Turn {
    if t.d.suppress && t.e.keys.AltOrWinDownInWindows() then Turn(t.e, t.d.(mask := true)) else t
  }

  /** A key-down whose key is marked held, with its group and its winner. */
  function DecideDown(held: EngineState, bindings: seq<Binding>, winner: Option<nat>, group: Option<GroupArming<Action>>, wasRepeat: bool, press: KeyDown, env: Env): Turn
    requires winner.Some? ==> winner.value < |bindings|
  {
    var start := if wasRepeat then Turn(held, Nothing) else ArmGroup(held, group, press.vk, env.now);
    MaskIfSwallowed(RecordDown(VisitFrom(start, bindings, 0, winner, wasRepeat, press, env), press.vk, wasRepeat))
  }

  function OnKeyDown(e: EngineState, vk: Vk, bindings: seq<Binding>, env: Env): Turn {
    var held := e.(keys := e.keys.Press(vk));
    var press := KeyDown(vk, held.keys.active, env.foreground);
    var winner := ElectOf(bindings, press);
    DecideDown(held, bindings, winner, GroupOf(bindings, winner, press), e.keys.Active(vk), press, env)
  }

  // ----- key-up -----

  /** The key-up resolves the press of its key. The second result says that a
      Tap or a Hold of it was pending. */
  function ResolvePress(e: EngineState, vk: Vk, now: nat): (Turn, bool) {
    var id := e.lastId + 1;
    var (gestures, released) := ReleaseOf(e.gestures, vk, now, e.keys.IsPassed(vk), id);
    var timers := if released.windowDue.Some? then [e.Request(GestureSlot(vk), id, released.windowDue.value)] else [];
    (Turn(e.(gestures := gestures, lastId := id), Decision(false, ListOf(released.fired), timers, false)),
     released.gestureBound)
  }

  /** A key-up is swallowed if its key-down was, or if a gesture of the press
      says so, unless Windows has the key down (the witness). */
  function ConsumeRecord(t: Turn, vk: Vk, gestureBound: bool, keyDown: Vk -> bool): Turn {
    var record := t.e.keys.Record(vk);
    var keys := t.e.keys.WithRecord(vk, Unknown);
    var swallow := record in {Suppressed, RepeatSuppressed} || (gestureBound && record != Passed);
    if swallow && !keyDown(vk)
    then Turn(t.e.(keys := keys.ClearReleased(keyDown, vk, MENU)), t.d.(suppress := true))
    else Turn(t.e.(keys := keys), t.d)
  }

  function OnKeyUp(e: EngineState, vk: Vk, env: Env): Turn {
    var (resolved, gestureBound) := ResolvePress(e.(keys := e.keys.Release(vk)), vk, env.now);
    MaskIfSwallowed(ConsumeRecord(resolved, vk, gestureBound, env.keyDown))
  }

  function OnKey(e: EngineState, event: KeyEvent, bindings: seq<Binding>, env: Env): Turn {
    var e1 := e.(maskOwed := false, resync := e.resync.Event(event.vk, true));
    var t := match event.direction
             case Down => OnKeyDown(e1.(keys := e1.keys.ClearReleased(env.keyDown, event.vk, ALL)), event.vk, bindings, env)
             case Up => OnKeyUp(e1, event.vk, env);
    Turn(t.e, t.d.(mask := t.d.mask || e.maskOwed))
  }

  // ----- timers -----

  function OnTimer(e: EngineState, token: TimerToken): Turn {
    if token.generation != e.generation then Turn(e, Nothing)
    else
      match token.slot
      case GestureSlot(vk) =>
        var (gestures, fired) := TimerOf(e.gestures, vk, token.id);
        Turn(e.(gestures := gestures), Nothing.(fire := fired))
      case ChordSlot => Turn(e.(chords := Chords.ExpireChord(e.chords, token.id)), Nothing)
      case SequenceSlot => Turn(e.(sequences := Sequences.ExpireSequence(e.sequences, token.id)), Nothing)
  }

  predicate IsLive(e: EngineState, token: TimerToken) {
    && token.generation == e.generation
    && match token.slot
       case GestureSlot(vk) => IsLiveIn(e.gestures, vk, token.id)
       case ChordSlot => Chords.IsChordLive(e.chords, token.id)
       case SequenceSlot => Sequences.IsSequenceLive(e.sequences, token.id)
  }

  function ForgetTimer(e: EngineState, token: TimerToken): (EngineState, bool) {
    if token.generation != e.generation || !token.slot.GestureSlot? then (e, false)
    else
      var (gestures, dropped) := ForgetOf(e.gestures, token.slot.vk, token.id);
      (e.(gestures := gestures), dropped)
  }

  function Pruned(e: EngineState, queue: seq<TimerRequest>): seq<TimerRequest> {
    RetainLive(queue, token => IsLive(e, token))
  }

  datatype Started = Started(e: EngineState, queue: seq<TimerRequest>, dropped: nat)

  /** Hands requests to a scheduler that takes those `accepts` says. */
  function StartEach(e: EngineState, timers: seq<TimerRequest>, queue: seq<TimerRequest>, accepts: TimerRequest -> bool, dropped: nat)
    : Started
    decreases |timers|
  {
    if timers == [] then Started(e, queue, dropped)
    else if accepts(timers[0]) then StartEach(e, timers[1..], queue + [timers[0]], accepts, dropped)
    else
      var (forgotten, hold) := ForgetTimer(e, timers[0].token);
      StartEach(forgotten, timers[1..], queue, accepts, if hold then dropped + 1 else dropped)
  }

  function StartTimers(e: EngineState, timers: seq<TimerRequest>, queue: seq<TimerRequest>, accepts: TimerRequest -> bool): Started {
    if timers == [] then Started(e, queue, 0)
    else StartEach(e, timers, Pruned(e, queue), accepts, 0)
  }

  /** The queue after a scheduler that refuses nothing took the timers. */
  function Queued(e: EngineState, timers: seq<TimerRequest>, queue: seq<TimerRequest>): seq<TimerRequest> {
    if timers == [] then queue else Pruned(e, queue) + timers
  }

  lemma {:induction false} NothingRefused(e: EngineState, timers: seq<TimerRequest>, queue: seq<TimerRequest>, accepts: TimerRequest -> bool, dropped: nat)
    requires forall request :: request in timers ==> accepts(request)
    ensures StartEach(e, timers, queue, accepts, dropped) == Started(e, queue + timers, dropped)
  {
    if timers == [] {
      assert queue + timers == queue;
    } else {
      NothingRefused(e, timers[1..], queue + [timers[0]], accepts, dropped);
      assert queue + [timers[0]] + timers[1..] == queue + timers;
    }
  }

  // ----- between events -----

  function Reset(e: EngineState, env: Env, reason: ResetReason): EngineState {
    var cleared := e.(gestures := NoGestures(), chords := [], sequences := [], maskOwed := false,
                      generation := e.generation + 1);
    match reason
    case RemappingSwitched =>
      cleared.(keys := e.keys.ResyncFromOs(env.keyDown), resync := e.resync.ReadEverything())
    case HookReinstalled =>
      cleared.(keys := e.keys.ResyncFromOs(env.keyDown), resync := e.resync.ReadEverything())
    case Reloaded => cleared
    case InputLeft => cleared.(keys := e.keys.ReleaseAll(), resync := e.resync.InputLeft())
  }

  function ResyncIfDue(e: EngineState, env: Env, notes: nat): EngineState {
    var (resync, which) := e.resync.Plan(notes);
    if which == {} then e.(resync := resync)
    else e.(resync := resync, keys := e.keys.ResyncModifiers(env.keyDown, which))
  }

  function OnForegroundChanged(e: EngineState): EngineState {
    e.(resync := e.resync.Bump())
  }

  function InputReturned(e: EngineState): EngineState {
    e.(resync := e.resync.InputReturned())
  }

  function TrackInjected(e: EngineState, event: KeyEvent): EngineState {
    e.(keys := e.keys.TrackInjected(event.vk, event.direction.Down?), resync := e.resync.Event(event.vk, false))
  }

  // ----- runs -----

  /** Everything that can happen to an engine. */
  datatype EngineOp =
    | KeyOp(event: KeyEvent, bindings: seq<Binding>, env: Env)
    | TimerOp(token: TimerToken)
    | ForgetOp(token: TimerToken)
    | ResetOp(reason: ResetReason, env: Env)
    | DrainOp(notes: nat, env: Env)
    | ForegroundOp
    | ReturnedOp
    | InjectedOp(event: KeyEvent)

  function Step(e: EngineState, op: EngineOp): Turn {
    match op
    case KeyOp(event, bindings, env) => OnKey(e, event, bindings, env)
    case TimerOp(token) => OnTimer(e, token)
    case ForgetOp(token) => Turn(ForgetTimer(e, token).0, Nothing)
    case ResetOp(reason, env) => Turn(Reset(e, env, reason), Nothing)
    case DrainOp(notes, env) => Turn(ResyncIfDue(e, env, notes), Nothing)
    case ForegroundOp => Turn(OnForegroundChanged(e), Nothing)
    case ReturnedOp => Turn(InputReturned(e), Nothing)
    case InjectedOp(event) => Turn(TrackInjected(e, event), Nothing)
  }

  function RunOps(e: EngineState, ops: seq<EngineOp>): EngineState
    decreases |ops|
  {
    if ops == [] then e else RunOps(Step(e, ops[0]).e, ops[1..])
  }
}
