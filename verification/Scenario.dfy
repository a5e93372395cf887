/** The world in place: a script's steps change one engine, one timer queue
    and the tables of the fingers and of Windows. */
module Scenarios {
  import opened Options
  import opened Modifiers
  import opened Conditions
  import opened Bindings
  import opened Winners
  import opened Timers
  import opened EngineStates
  import opened Tokens
  import opened Worlds
  import opened WorldSafety
  import opened PressSymmetry
  import opened MaskRule
  import Engines

  /** What one key event came to, and what the checks say of it. */
  datatype KeyOutcome = KeyOutcome(d: Decision, lone: bool, uneven: bool, maskOff: bool)

  /** The checks of one event, read off the world before it. */
  ghost predicate AlarmsOf(w: World, vk: Vk, direction: Direction, outcome: KeyOutcome)
    requires vk < 256
  {
    var suppress := outcome.d.suppress;
    && outcome.lone == (w.enabled && direction.Up? && !suppress && !w.osDown[vk])
    && outcome.uneven == ((direction.Up? || w.held[vk]) && w.presses[vk].Some? && w.presses[vk].value != suppress)
    && outcome.maskOff == (outcome.d.mask != (suppress && exists menu :: menu in ALT_AND_WIN && w.osDown[menu]))
  }

  /** Each alarm is exactly a violation of its rule; the symmetry check says
      nothing of a press it has no note of. */
  lemma AlarmsAreViolations(w: World, vk: Vk, direction: Direction, outcome: KeyOutcome)
    requires IsScripted(w, Key(vk, direction))
    requires outcome.d == DecisionFor(w, vk, direction).d && AlarmsOf(w, vk, direction, outcome)
    ensures outcome.lone <==> !NoLoneKeyUp(w, Key(vk, direction))
    ensures outcome.uneven <==> !IsSymmetric(w, Key(vk, direction)) && w.presses[vk].Some?
    ensures outcome.maskOff <==> !MaskIsExact(w, Key(vk, direction))
  {
    hide DecisionFor;
  }

  class Scenario {
    const engine: Engines.Engine
    const timers: TimerQueue
    const held: array<bool>
    const osDown: array<bool>
    const presses: array<Option<bool>>
    var bindings: seq<Binding>
    var now: nat
    var foreground: ForegroundInfo
    var enabled: bool
    var notes: nat

    ghost predicate Valid() {
      && engine.Valid() && timers !in engine.Repr()
      && held.Length == 256 && osDown.Length == 256 && presses.Length == 256
      && held != osDown
      && {this, held, osDown, presses} !! engine.Repr() && {this, held, osDown, presses} !! {timers}
      && engine.keys.active !in {held, osDown}
    }

    ghost function Repr(): set<object> {
      {this, timers, held, osDown, presses} + engine.Repr()
    }

    ghost function View(): World
      requires Valid()
      reads Repr()
    {
      World(engine.View(), bindings, now, osDown[..], held[..], foreground, timers.pending, enabled, notes, presses[..])
    }

    constructor (file: seq<Binding>, foreground: ForegroundInfo, now: nat)
      ensures Valid() && fresh(Repr())
      ensures View() == StartWorld(file, foreground, now)
    {
      hide SortBySpecificity;
      held := new bool[256](_ => false);
      osDown := new bool[256](_ => false);
      presses := new Option<bool>[256](_ => None);
      timers := new TimerQueue();
      engine := new Engines.Engine();
      bindings := SortBySpecificity(file);
      this.now, this.foreground, enabled, notes := now, foreground, true, 0;
    }

    /** A scenario starts with one drain, as the daemon does. */
    static method Start(file: seq<Binding>, foreground: ForegroundInfo, now: nat) returns (scenario: Scenario)
      ensures scenario.Valid() && fresh(scenario.Repr())
      ensures scenario.View() == FirstWorld(file, foreground, now)
    {
      hide StartWorld, Drain;
      scenario := new Scenario(file, foreground, now);
      scenario.DrainModifiers();
    }

    /** The main thread's drain. */
    method DrainModifiers()
      requires Valid()
      modifies engine.Repr()
      ensures View() == Drain(old(View()))
    {
      if enabled {
        var _ := engine.ResyncIfDue(EnvAt(now, osDown[..], foreground), notes);
      }
    }

    method NoteHidden()
      requires Valid()
      modifies this`notes, engine.Repr()
      ensures View() == NoteHiddenInput(old(View()))
    {
      notes := notes + 1;
      DrainModifiers();
    }

    method ResetEngine(reason: ResetReason)
      requires Valid()
      modifies engine.Repr(), timers
      ensures View() == ResetWorld(old(View()), reason)
    {
      engine.Reset(EnvAt(now, osDown[..], foreground), reason);
      engine.Prune(timers);
    }

    /** One key event: a key-down of a key that is up starts a press; of a
        held key it is an auto-repeat. */
    method KeyEvent(vk: Vk, direction: Direction) returns (outcome: KeyOutcome)
      requires Valid() && IsPhysical(vk) && (direction.Up? ==> held[vk])
      modifies Repr()
      ensures View() == NextWorld(old(View()), Key(vk, direction))
      ensures outcome.d == DecisionFor(old(View()), vk, direction).d
      ensures AlarmsOf(old(View()), vk, direction, outcome)
    {
      hide AfterKey, Drain, ResetWorld, AfterSignal, AfterAdvance, ForgetAll, NoteHiddenInput, SortBySpecificity, OnForegroundChanged, TrackInjected, DrainTimers, DecisionFor, ReadsDown;
      var wasDown := osDown[vk];
      var d, uneven := Apply(vk, direction);
      var altOrWin := exists menu :: menu in ALT_AND_WIN && osDown[menu];
      DrainModifiers();
      var lone := enabled && direction.Up? && !d.suppress && !wasDown;
      outcome := KeyOutcome(d, lone, uneven, d.mask != (d.suppress && altOrWin));
    }

    /** The event, up to the drain that follows it. A swallowed event leaves
        Windows as it was. */
    method Apply(vk: Vk, direction: Direction) returns (d: Decision, uneven: bool)
      requires Valid() && IsPhysical(vk) && (direction.Up? ==> held[vk])
      modifies engine.Repr(), timers, held, osDown, presses
      ensures View() == AfterKey(old(View()), vk, direction)
      ensures d == DecisionFor(old(View()), vk, direction).d
      ensures d.suppress ==> View().osDown == old(View()).osDown
      ensures var w := old(View());
              uneven == ((direction.Up? || w.held[vk]) && w.presses[vk].Some? && w.presses[vk].value != d.suppress)
    {
      hide DecisionFor, Queued;
      ghost var w := View();
      d := Decide(vk, direction);
      var wasHeld := held[vk];
      Move(vk, direction, d.suppress);
      ghost var moved := View();
      assert moved == w.(engine := moved.engine, osDown := moved.osDown, held := moved.held);
      StartAll(d.timers);
      uneven := CheckPress(vk, direction, wasHeld, d.suppress);
      assert View() == AfterKey(w, vk, direction);
    }

    /** What becomes of the event: it passes unread while remapping is off. */
    method Decide(vk: Vk, direction: Direction) returns (d: Decision)
      requires Valid()
      modifies engine.Repr()
      ensures View() == old(View()).(engine := DecisionFor(old(View()), vk, direction).e)
      ensures d == DecisionFor(old(View()), vk, direction).d
    {
      hide OnKey, ReadsDown;
      d := Nothing;
      if enabled {
        ghost var e := engine.View();
        d := engine.OnKey(EngineStates.KeyEvent(vk, direction), bindings, EnvAt(now, osDown[..], foreground));
        assert Turn(engine.View(), d) == DecisionFor(old(View()), vk, direction);
      }
    }

    /** The fingers and, unless the event was swallowed, Windows follow it. */
    method Move(vk: Vk, direction: Direction, suppress: bool)
      requires Valid() && vk < 256
      modifies held, osDown
      ensures View() == old(View()).(
                osDown := if suppress then old(View()).osDown else old(View()).osDown[vk := direction.Down?],
                held := old(View()).held[vk := direction.Down?])
    {
      if !suppress {
        osDown[vk] := direction.Down?;
      }
      held[vk] := direction.Down?;
    }

    /** The symmetry check: a key-down of a key that was up starts a press, and
        its auto-repeats and its key-up must match it. */
    method CheckPress(vk: Vk, direction: Direction, wasHeld: bool, suppress: bool) returns (uneven: bool)
      requires Valid() && vk < 256
      modifies presses
      ensures var press := old(presses[vk]);
              && uneven == ((direction.Up? || wasHeld) && press.Some? && press.value != suppress)
              && View() == old(View()).(presses := old(View()).presses[vk :=
                   if direction.Up? then None else if wasHeld then press else Some(suppress)])
    {
      uneven := false;
      if direction.Down? && !wasHeld {
        presses[vk] := Some(suppress);
        return;
      }
      uneven := presses[vk].Some? && presses[vk].value != suppress;
      if direction.Up? {
        presses[vk] := None;
      }
    }

    /** Starts timers with a scheduler that refuses none. */
    method StartAll(requests: seq<TimerRequest>)
      requires Valid()
      modifies engine.Repr(), timers
      ensures View() == old(View()).(timers := Queued(old(View()).engine, requests, old(View()).timers))
      ensures requests == [] ==> View() == old(View())
    {
      NothingRefused(engine.View(), requests, Pruned(engine.View(), timers.pending), _ => true, 0);
      var _ := engine.StartTimers(requests, timers, _ => true);
    }

    method ReleaseUnseen(vk: Vk, noticed: bool)
      requires Valid() && IsPhysical(vk) && held[vk]
      modifies Repr()
      ensures View() == NextWorld(old(View()), UpHidden(vk, noticed))
    {
      hide AfterKey, Drain, ResetWorld, AfterSignal, AfterAdvance, ForgetAll, NoteHiddenInput, SortBySpecificity, OnForegroundChanged, TrackInjected, DrainTimers;
      held[vk] := false;
      osDown[vk] := false;
      presses[vk] := None;
      if noticed {
        NoteHidden();
      }
    }

    method PressUnseen(vk: Vk, noticed: bool)
      requires Valid() && IsPhysical(vk) && !held[vk]
      modifies Repr()
      ensures View() == NextWorld(old(View()), DownHidden(vk, noticed))
    {
      hide AfterKey, Drain, ResetWorld, AfterSignal, AfterAdvance, ForgetAll, NoteHiddenInput, SortBySpecificity, OnForegroundChanged, TrackInjected, DrainTimers;
      held[vk] := true;
      osDown[vk] := true;
      presses[vk] := Some(false);
      if noticed {
        NoteHidden();
      }
    }

    method ForegroundChanges()
      requires Valid() && enabled
      modifies engine.Repr()
      ensures View() == NextWorld(old(View()), ForegroundChanged)
    {
      hide AfterKey, Drain, ResetWorld, AfterSignal, AfterAdvance, ForgetAll, NoteHiddenInput, SortBySpecificity, OnForegroundChanged, TrackInjected, DrainTimers;
      engine.OnForegroundChanged();
      DrainModifiers();
    }

    method InputSignalled(signal: InputSignal)
      requires Valid() && enabled
      modifies engine.Repr(), timers
      ensures View() == NextWorld(old(View()), Signal(signal))
    {
      hide AfterKey, Drain, ResetWorld, AfterAdvance, ForgetAll, NoteHiddenInput, SortBySpecificity, OnForegroundChanged, TrackInjected, DrainTimers;
      if signal.Resets() {
        ResetEngine(InputLeft);
      }
      if signal.Returned() {
        engine.InputReturned();
      }
      DrainModifiers();
    }

    method TurnOff()
      requires Valid() && enabled
      modifies Repr()
      ensures View() == NextWorld(old(View()), RemappingOff)
    {
      hide AfterKey, Drain, ResetWorld, AfterSignal, AfterAdvance, ForgetAll, NoteHiddenInput, SortBySpecificity, OnForegroundChanged, TrackInjected, DrainTimers;
      ResetEngine(RemappingSwitched);
      enabled := false;
      forall vk | 0 <= vk < 256 {
        presses[vk] := None;
      }
    }

    method TurnOn()
      requires Valid() && !enabled
      modifies Repr()
      ensures View() == NextWorld(old(View()), RemappingOn)
    {
      hide AfterKey, Drain, ResetWorld, AfterSignal, AfterAdvance, ForgetAll, NoteHiddenInput, SortBySpecificity, OnForegroundChanged, TrackInjected, DrainTimers;
      ResetEngine(RemappingSwitched);
      enabled := true;
      DrainModifiers();
    }

    method ReinstallHook()
      requires Valid()
      modifies Repr()
      ensures View() == NextWorld(old(View()), HookReinstall)
    {
      hide AfterKey, Drain, ResetWorld, AfterSignal, AfterAdvance, ForgetAll, NoteHiddenInput, SortBySpecificity, OnForegroundChanged, TrackInjected, DrainTimers;
      ResetEngine(HookReinstalled);
      DrainModifiers();
    }

    method ReloadBindings(file: seq<Binding>)
      requires Valid()
      modifies Repr()
      ensures View() == NextWorld(old(View()), Reload(file))
    {
      hide AfterKey, Drain, ResetWorld, AfterSignal, AfterAdvance, ForgetAll, NoteHiddenInput, SortBySpecificity, OnForegroundChanged, TrackInjected, DrainTimers;
      ghost var swapped := View().(bindings := SortBySpecificity(file));
      bindings := SortBySpecificity(file);
      assert View() == swapped;
      ResetEngine(Reloaded);
      assert View() == ResetWorld(swapped, Reloaded);
      DrainModifiers();
    }

    /** Moves the clock, firing every timer that falls due, earliest first. */
    method AdvanceMs(ms: nat) returns (fired: seq<Action>)
      requires Valid()
      modifies Repr()
      ensures View() == NextWorld(old(View()), Advance(ms))
      ensures fired == DrainTimers(old(View()).engine, old(View()).timers, old(now) + ms).fire
    {
      hide AfterKey, Drain, ResetWorld, AfterSignal, ForgetAll, NoteHiddenInput, SortBySpecificity, OnForegroundChanged, TrackInjected, DrainTimers, NextPlace;
      var target, woke := now + ms, false;
      fired, woke := FireDue(target);
      now := target;
      if woke {
        DrainModifiers();
      }
    }

    method FireDue(target: nat) returns (fired: seq<Action>, woke: bool)
      requires Valid()
      modifies engine.Repr(), timers, this`now
      ensures var all := DrainTimers(old(View()).engine, old(View()).timers, target);
              fired == all.fire && View() == old(View()).(engine := all.e, timers := all.queue, now := now)
      ensures woke <==> NextPlace(old(View()).timers, target) < |old(View()).timers|
    {
      hide DrainTimers, NextPlace;
      ghost var w := View();
      ghost var all := DrainTimers(w.engine, w.timers, target);
      woke := false;
      fired := [];
      while true
        invariant View() == w.(engine := engine.View(), timers := timers.pending, now := now)
        invariant var rest := DrainTimers(engine.View(), timers.pending, target);
                  all == rest.(fire := fired + rest.fire)
        invariant if woke then NextPlace(w.timers, target) < |w.timers| else timers.pending == w.timers
        decreases |timers.pending|
      {
        var next := FireNext(target);
        if next.None? {
          break;
        }
        woke := true;
        fired := fired + next.value;
      }
    }

    /** Fires the timer due first by `target`, with the clock at its due time. */
    method FireNext(target: nat) returns (fired: Option<seq<Action>>)
      requires Valid()
      modifies engine.Repr(), timers, this`now
      ensures View() == old(View()).(engine := engine.View(), timers := timers.pending, now := now)
      ensures fired.None? <==> NextPlace(old(timers.pending), target) == |old(timers.pending)|
      ensures fired.None? ==> View() == old(View()) && DrainTimers(old(View()).engine, old(timers.pending), target) == Drained(engine.View(), timers.pending, [])
      ensures fired.Some? ==>
                && |timers.pending| < |old(timers.pending)|
                && var rest := DrainTimers(engine.View(), timers.pending, target);
                   DrainTimers(old(View()).engine, old(timers.pending), target) == rest.(fire := fired.value + rest.fire)
    {
      hide OnTimer, Queued;
      ghost var e, queue := engine.View(), timers.pending;
      var timer := timers.TakeDue(target);
      if timer.None? {
        return None;
      }
      now := if now < timer.value.due then timer.value.due else now;
      var d := engine.OnTimer(timer.value.token);
      TimersAskForNone(e, timer.value.token);
      StartAll(d.timers);
      fired := Some(d.fire);
    }

    method AdvanceStalledMs(ms: nat)
      requires Valid()
      modifies this`now
      ensures View() == NextWorld(old(View()), AdvanceStalled(ms))
    {
      hide AfterKey, Drain, ResetWorld, AfterSignal, AfterAdvance, ForgetAll, NoteHiddenInput, SortBySpecificity, OnForegroundChanged, TrackInjected, DrainTimers;
      now := now + ms;
    }

    method LoseAllTimers()
      requires Valid()
      modifies engine.Repr(), timers
      ensures View() == NextWorld(old(View()), LoseTimers)
    {
      hide AfterKey, Drain, ResetWorld, AfterSignal, AfterAdvance, NoteHiddenInput, SortBySpecificity, OnForegroundChanged, TrackInjected, DrainTimers;
      var lost := timers.pending;
      timers.pending := [];
      ghost var w, rest := View(), lost;
      for n := 0 to |lost|
        invariant rest == lost[n..]
        invariant View() == w.(engine := engine.View())
        invariant ForgetAll(engine.View(), rest) == ForgetAll(w.engine, lost)
      {
        var _ := engine.ForgetTimer(lost[n].token);
        rest := rest[1..];
      }
    }

    method DaemonInjected(vk: Vk, direction: Direction)
      requires Valid() && IsPhysical(vk)
      modifies Repr()
      ensures View() == NextWorld(old(View()), DaemonInjects(vk, direction))
    {
      hide AfterKey, Drain, ResetWorld, AfterSignal, AfterAdvance, ForgetAll, NoteHiddenInput, SortBySpecificity, OnForegroundChanged, TrackInjected, DrainTimers;
      if enabled {
        engine.TrackInjected(EngineStates.KeyEvent(vk, direction));
      }
      osDown[vk] := direction.Down?;
      held[vk] := direction.Down?;
      DrainModifiers();
    }
  }
}
