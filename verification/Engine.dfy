/** The decision core in place: every method carries out the step of the same
    name in `EngineStates`. */
module Engines {
  import opened Options
  import opened Modifiers
  import opened KeySpecs
  import opened Conditions
  import opened Bindings
  import opened KeyTables
  import opened Matching
  import opened Winners
  import opened GestureTables
  import opened Timers
  import opened Resyncs
  import opened EngineStates
  import Chords = ChordTables
  import Sequences = SequenceTables

  class Engine {
    const keys: KeyState
    const gestures: Gestures<Action>
    const chords: Chords.Chords
    const sequences: Sequences.Sequences
    const resync: Resync
    var maskOwed: bool
    var generation: nat
    var lastId: nat

    ghost predicate Valid() {
      keys.Valid()
    }

    ghost function Repr(): set<object> {
      {this, keys.active, keys.lastDown, gestures, chords, sequences, resync}
    }

    ghost function View(): EngineState
      requires Valid()
      reads Repr()
    {
      EngineState(keys.View(), gestures.View(), chords.pending, sequences.pending, maskOwed, generation, lastId,
                  resync.View())
    }

    constructor ()
      ensures Valid() && fresh(Repr())
      ensures View() == NewEngine
    {
      keys := new KeyState();
      gestures := new Gestures<Action>();
      chords := new Chords.Chords();
      sequences := new Sequences.Sequences();
      resync := new Resync();
      maskOwed, generation, lastId := false, 0, 0;
    }

    method NextId() returns (id: nat)
      requires Valid()
      modifies this`lastId
      ensures id == old(lastId) + 1 && View() == old(View()).(lastId := id)
    {
      lastId := lastId + 1;
      id := lastId;
    }

    method Request(slot: TimerSlot, id: nat, due: nat) returns (request: TimerRequest)
      requires Valid()
      ensures request == View().Request(slot, id, due)
    {
      request := TimerRequest(TimerToken(generation, slot, id), due);
    }

    method MarkCompletedKeys(codes: seq<Vk>)
      requires Valid()
      modifies keys.lastDown
      ensures View() == old(View()).(keys := MarkAll(old(View()).keys, codes))
    {
      ghost var rest := codes;
      for n := 0 to |codes|
        invariant rest == codes[n..]
        invariant MarkAll(keys.View(), rest) == MarkAll(old(keys.View()), codes)
      {
        keys.MarkCompleted(codes[n]);
        rest := rest[1..];
      }
    }

    method ArmGroup(group: Option<GroupArming<Action>>, vk: Vk, now: nat) returns (d: Decision)
      requires Valid()
      modifies Repr()
      ensures Turn(View(), d) == EngineStates.ArmGroup(old(View()), group, vk, now)
    {
      hide Kept, EndedTaps, PressOf, KeyTable.IsPassed;
      ghost var e := View();
      var ended := gestures.OtherKeyDown(vk, keys, now);
      ghost var kept := e.gestures.(presses := Kept(e.gestures.presses, vk, e.keys, now));
      assert View() == e.(gestures := kept);
      var id := NextId();
      var fired, holdDue := gestures.PressKey(vk, group, now, id);
      ghost var pressed := PressOf(kept, vk, group, now, id);
      assert View() == e.(gestures := pressed.table, lastId := id);
      d := Decision(group.Some? && group.value.block, ended + fired, [], false);
      if holdDue.Some? {
        var request := Request(GestureSlot(vk), id, holdDue.value);
        d := d.(timers := [request]);
      }
    }

    method FeedSequence(d: Decision, b: Binding, press: KeyDown, now: nat) returns (d': Decision)
      requires Valid() && b.kind.Sequence?
      modifies Repr()
      ensures Turn(View(), d') == VisitSequence(Turn(old(View()), d), b, press, now)
    {
      d' := d;
      var id := NextId();
      var outcome := sequences.OnKeyDown(
        Sequences.SequenceFeed(press.held, b.action, b.kind.steps, b.kind.maxGap, now, id));
      match outcome
      case NotMatching =>
      case Advanced(due) =>
        var request := Request(SequenceSlot, id, due);
        d' := d'.(suppress := true, timers := d'.timers + [request]);
      case Finished(action, codes) =>
        d' := d'.(suppress := true, fire := d'.fire + [action]);
        MarkCompletedKeys(codes);
    }

    method FeedChord(d: Decision, b: Binding, press: KeyDown, now: nat) returns (d': Decision)
      requires Valid() && b.kind.Chord?
      modifies Repr()
      ensures Turn(View(), d') == VisitChord(Turn(old(View()), d), b, press, now)
    {
      d' := d;
      var id := NextId();
      var outcome := chords.OnKeyDown(Chords.ChordFeed(press.vk, b.action, b.kind.keys, b.kind.window, now, id));
      match outcome
      case NotInChord =>
      case Pending => d' := d'.(suppress := true);
      case Started(due) =>
        var request := Request(ChordSlot, id, due);
        d' := d'.(suppress := true, timers := d'.timers + [request]);
      case Completed(action, codes) =>
        d' := d'.(suppress := true, fire := d'.fire + [action]);
        MarkCompletedKeys(codes);
    }

    method Visit(d: Decision, bindings: seq<Binding>, i: nat, winner: Option<nat>, wasRepeat: bool, press: KeyDown, env: Env)
      returns (d': Decision)
      requires Valid() && i < |bindings| && (winner.Some? ==> winner.value < |bindings|)
      modifies Repr()
      ensures Turn(View(), d') == VisitBinding(Turn(old(View()), d), bindings, i, winner, wasRepeat, press, env)
    {
      d' := d;
      var binding := bindings[i];
      match binding.kind
      case Combo(combo) =>
        if binding.autoBlocker.Some? {
          if BlockerMatches(combo, press.vk, press.held, env.keyDown) && binding.condition.Evaluate(env.foreground) {
            if binding.autoBlocker.value.Swallow? {
              d' := d'.(suppress := true);
            } else if !wasRepeat {
              d' := d'.(mask := true);
              maskOwed := true;
            }
          }
        } else if winner.Some? && Admits(bindings, winner.value, i, press) {
          if binding.trigger.Immediate? {
            if !wasRepeat || binding.repeat {
              d' := d'.(fire := d'.fire + [binding.action]);
            }
            if binding.blockDefault {
              d' := d'.(suppress := true);
            }
          }
        }
      case Sequence(_, _) =>
        if !wasRepeat && binding.condition.Evaluate(env.foreground) {
          d' := FeedSequence(d, binding, press, env.now);
        }
      case Chord(_, _) =>
        if !wasRepeat && binding.condition.Evaluate(env.foreground) {
          d' := FeedChord(d, binding, press, env.now);
        }
    }

    method OnKeyDown(vk: Vk, bindings: seq<Binding>, env: Env) returns (d: Decision)
      requires Valid()
      modifies Repr()
      ensures Turn(View(), d) == EngineStates.OnKeyDown(old(View()), vk, bindings, env)
    {
      var wasRepeat := keys.Press(vk);
      ghost var held := View();
      var press := KeyDown(vk, keys.active[..], env.foreground);
      var winner := Elect(bindings, press);
      d := Nothing;
      if !wasRepeat {
        var group := None;
        if winner.Some? {
          group := DeferredGroup(bindings, winner.value, press);
        }
        d := ArmGroup(group, vk, env.now);
      }
      ghost var start := if wasRepeat then Turn(held, Nothing)
                         else EngineStates.ArmGroup(held, GroupOf(bindings, winner, press), vk, env.now);
      assert Turn(View(), d) == start;
      for i := 0 to |bindings|
        invariant VisitFrom(Turn(View(), d), bindings, i, winner, wasRepeat, press, env)
               == VisitFrom(start, bindings, 0, winner, wasRepeat, press, env)
      {
        d := Visit(d, bindings, i, winner, wasRepeat, press, env);
      }
      d := Record(d, vk, wasRepeat);
      d := Mask(d);
    }

    method Record(d: Decision, vk: Vk, wasRepeat: bool) returns (d': Decision)
      requires Valid()
      modifies Repr()
      ensures Turn(View(), d') == RecordDown(Turn(old(View()), d), vk, wasRepeat)
    {
      d' := d;
      if wasRepeat && vk < 256 && keys.lastDown[vk] == Suppressed {
        d' := d'.(suppress := true);
      } else if wasRepeat && vk < 256 && keys.lastDown[vk] == Passed {
        d' := d'.(suppress := false);
      } else if d.suppress {
        keys.Mark(vk, if wasRepeat then RepeatSuppressed else Suppressed);
      } else {
        keys.Mark(vk, Passed);
      }
    }

    method Mask(d: Decision) returns (d': Decision)
      requires Valid()
      ensures Turn(View(), d') == MaskIfSwallowed(Turn(View(), d))
    {
      d' := d;
      if d.suppress {
        var menu := keys.AltOrWinDownInWindows();
        if menu {
          d' := d'.(mask := true);
        }
      }
    }

    method ResolvePress(vk: Vk, now: nat) returns (d: Decision, gestureBound: bool)
      requires Valid()
      modifies Repr()
      ensures (Turn(View(), d), gestureBound) == EngineStates.ResolvePress(old(View()), vk, now)
    {
      var wasPassed := vk < 256 && keys.lastDown[vk] == Passed;
      var id := NextId();
      var released := gestures.ReleaseKey(vk, now, wasPassed, id);
      gestureBound := released.gestureBound;
      d := Nothing.(fire := ListOf(released.fired));
      if released.windowDue.Some? {
        var request := Request(GestureSlot(vk), id, released.windowDue.value);
        d := d.(timers := [request]);
      }
    }

    method ConsumeRecord(d: Decision, vk: Vk, gestureBound: bool, env: Env) returns (d': Decision)
      requires Valid() && !d.suppress
      modifies Repr()
      ensures Turn(View(), d') == EngineStates.ConsumeRecord(Turn(old(View()), d), vk, gestureBound, env.keyDown)
    {
      var wasPassed := vk < 256 && keys.lastDown[vk] == Passed;
      var wasBlocked := keys.TakeBlocked(vk);
      var swallow := wasBlocked || (gestureBound && !wasPassed);
      d' := d.(suppress := swallow && !env.keyDown(vk));
      if d'.suppress {
        keys.ClearReleasedModifiers(env, vk, MENU);
      }
    }

    method OnKeyUp(vk: Vk, env: Env) returns (d: Decision)
      requires Valid()
      modifies Repr()
      ensures Turn(View(), d) == EngineStates.OnKeyUp(old(View()), vk, env)
    {
      keys.Release(vk);
      var gestureBound;
      d, gestureBound := ResolvePress(vk, env.now);
      d := ConsumeRecord(d, vk, gestureBound, env);
      d := Mask(d);
    }

    method OnKey(event: KeyEvent, bindings: seq<Binding>, env: Env) returns (d: Decision)
      requires Valid()
      modifies Repr()
      ensures Turn(View(), d) == EngineStates.OnKey(old(View()), event, bindings, env)
    {
      var owed := maskOwed;
      maskOwed := false;
      resync.Event(event.vk, true);
      match event.direction {
        case Down =>
          keys.ClearReleasedModifiers(env, event.vk, ALL);
          d := OnKeyDown(event.vk, bindings, env);
        case Up =>
          d := OnKeyUp(event.vk, env);
      }
      d := d.(mask := d.mask || owed);
    }

    method OnTimer(token: TimerToken) returns (d: Decision)
      requires Valid()
      modifies Repr()
      ensures Turn(View(), d) == EngineStates.OnTimer(old(View()), token)
    {
      d := Nothing;
      if token.generation != generation {
        return;
      }
      match token.slot
      case GestureSlot(vk) =>
        var fired := gestures.OnTimer(vk, token.id);
        d := d.(fire := fired);
      case ChordSlot => chords.Expire(token.id);
      case SequenceSlot => sequences.Expire(token.id);
    }

    method IsLive(token: TimerToken) returns (live: bool)
      requires Valid()
      ensures live == EngineStates.IsLive(View(), token)
    {
      if token.generation != generation {
        return false;
      }
      match token.slot
      case GestureSlot(vk) => live := gestures.IsLive(vk, token.id);
      case ChordSlot => live := chords.IsLive(token.id);
      case SequenceSlot => live := sequences.IsLive(token.id);
    }

    method ForgetTimer(token: TimerToken) returns (dropped: bool)
      requires Valid()
      modifies Repr()
      ensures (View(), dropped) == EngineStates.ForgetTimer(old(View()), token)
    {
      if token.generation != generation {
        return false;
      }
      match token.slot
      case GestureSlot(vk) => dropped := gestures.Forget(vk, token.id);
      case ChordSlot => dropped := false;
      case SequenceSlot => dropped := false;
    }

    /** `scheduler` takes the requests that `accepts` says. */
    method StartTimers(timers: seq<TimerRequest>, scheduler: TimerQueue, accepts: TimerRequest -> bool) returns (dropped: nat)
      requires Valid() && scheduler !in Repr()
      modifies Repr(), scheduler
      ensures Started(View(), scheduler.pending, dropped)
           == EngineStates.StartTimers(old(View()), timers, old(scheduler.pending), accepts)
    {
      dropped := 0;
      if timers == [] {
        return;
      }
      Prune(scheduler);
      ghost var rest := timers;
      for n := 0 to |timers|
        invariant rest == timers[n..]
        invariant StartEach(View(), rest, scheduler.pending, accepts, dropped)
               == EngineStates.StartTimers(old(View()), timers, old(scheduler.pending), accepts)
      {
        rest := rest[1..];
        if accepts(timers[n]) {
          var _ := scheduler.Start(timers[n]);
        } else {
          var hold := ForgetTimer(timers[n].token);
          if hold {
            dropped := dropped + 1;
          }
        }
      }
    }

    /** Drops every queued timer whose token is not live. */
    method Prune(scheduler: TimerQueue)
      requires Valid() && scheduler !in Repr()
      modifies scheduler
      ensures scheduler.pending == Pruned(View(), old(scheduler.pending))
    {
      var kept: seq<TimerRequest> := [];
      ghost var rest := scheduler.pending;
      ghost var e := View();
      for n := 0 to |scheduler.pending|
        invariant scheduler.pending == old(scheduler.pending) && rest == scheduler.pending[n..]
        invariant Pruned(e, scheduler.pending) == kept + Pruned(e, rest)
      {
        var alive := IsLive(scheduler.pending[n].token);
        PrunedStep(e, rest);
        if alive {
          kept := kept + [scheduler.pending[n]];
        }
        rest := rest[1..];
      }
      scheduler.pending := kept;
    }

    method Reset(env: Env, reason: ResetReason)
      requires Valid()
      modifies Repr()
      ensures View() == EngineStates.Reset(old(View()), env, reason)
    {
      gestures.Clear();
      chords.pending := [];
      sequences.pending := [];
      maskOwed := false;
      match reason {
        case RemappingSwitched =>
          keys.ResyncFromOs(env);
          resync.ReadEverything();
        case HookReinstalled =>
          keys.ResyncFromOs(env);
          resync.ReadEverything();
        case Reloaded =>
        case InputLeft =>
          keys.ReleaseAll();
          resync.InputLeft();
      }
      generation := generation + 1;
    }

    method ResyncIfDue(env: Env, notes: nat) returns (asked: bool)
      requires Valid()
      modifies Repr()
      ensures View() == EngineStates.ResyncIfDue(old(View()), env, notes)
      ensures asked == (old(View()).resync.Plan(notes).1 != {})
    {
      var which := resync.Plan(notes);
      if which == {} {
        return false;
      }
      keys.ResyncModifiers(env, which);
      asked := true;
    }

    method OnForegroundChanged()
      requires Valid()
      modifies Repr()
      ensures View() == EngineStates.OnForegroundChanged(old(View()))
    {
      resync.Bump();
    }

    method InputReturned()
      requires Valid()
      modifies Repr()
      ensures View() == EngineStates.InputReturned(old(View()))
    {
      resync.InputReturned();
    }

    method TrackInjected(event: KeyEvent)
      requires Valid()
      modifies Repr()
      ensures View() == EngineStates.TrackInjected(old(View()), event)
    {
      keys.TrackInjected(event.vk, event.direction.Down?);
      resync.Event(event.vk, false);
    }
  }

  lemma PrunedStep(e: EngineState, queue: seq<TimerRequest>)
    requires queue != []
    ensures Pruned(e, queue) == (if EngineStates.IsLive(e, queue[0].token) then [queue[0]] else []) + Pruned(e, queue[1..])
  {}
}
