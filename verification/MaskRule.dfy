/** The menu mask goes exactly with what is swallowed under an Alt or Win key. */
module MaskRule {
  import opened Options
  import opened Modifiers
  import opened Conditions
  import opened Bindings
  import opened KeyTables
  import opened Winners
  import opened Timers
  import opened EngineStates
  import opened EngineFacts
  import opened Tokens
  import opened Worlds
  import Chords = ChordTables
  import Sequences = SequenceTables

  const ALT_AND_WIN: set<Vk> := {VK_LMENU, VK_RMENU, VK_LWIN, VK_RWIN}

  predicate NoMaskOnly(bindings: seq<Binding>) {
    forall b :: b in bindings ==> b.autoBlocker != Some(MaskOnly)
  }

  lemma SortKeepsNoMaskOnly(file: seq<Binding>)
    requires NoMaskOnly(file)
    ensures NoMaskOnly(SortBySpecificity(file))
  {
    SortIsStable(file, 0);
    forall b | b in SortBySpecificity(file) ensures b.autoBlocker != Some(MaskOnly) {
      assert b in multiset(SortBySpecificity(file));
      assert b in multiset(file);
    }
  }

  // ----- the engine -----

  /** Without a MaskOnly blocker the bindings never ask for the mask. */
  lemma VisitBindingAsksNoMask(t: Turn, bindings: seq<Binding>, i: nat, winner: Option<nat>, wasRepeat: bool, press: KeyDown, env: Env)
    requires i < |bindings| && (winner.Some? ==> winner.value < |bindings|)
    requires NoMaskOnly(bindings)
    ensures var t' := VisitBinding(t, bindings, i, winner, wasRepeat, press, env);
            t'.e.maskOwed == t.e.maskOwed && t'.d.mask == t.d.mask
  {
    hide Sequences.FeedSequence, Chords.FeedChord;
    assert bindings[i] in bindings;
  }

  lemma {:induction false} VisitFromAsksNoMask(t: Turn, bindings: seq<Binding>, i: nat, winner: Option<nat>, wasRepeat: bool, press: KeyDown, env: Env)
    requires i <= |bindings| && (winner.Some? ==> winner.value < |bindings|)
    requires NoMaskOnly(bindings)
    ensures var t' := VisitFrom(t, bindings, i, winner, wasRepeat, press, env);
            t'.e.maskOwed == t.e.maskOwed && t'.d.mask == t.d.mask
    decreases |bindings| - i
  {
    hide VisitBinding;
    if i < |bindings| {
      VisitBindingAsksNoMask(t, bindings, i, winner, wasRepeat, press, env);
      VisitFromAsksNoMask(VisitBinding(t, bindings, i, winner, wasRepeat, press, env), bindings, i + 1, winner, wasRepeat, press, env);
    }
  }

  /** The mask is then asked for exactly when the engine's own table says so. */
  lemma EngineMask(e: EngineState, event: KeyEvent, bindings: seq<Binding>, env: Env)
    requires NoMaskOnly(bindings) && !e.maskOwed
    ensures var t := OnKey(e, event, bindings, env);
            && t.d.mask == (t.d.suppress && t.e.keys.AltOrWinDownInWindows())
            && !t.e.maskOwed
  {
    hide ArmGroup, VisitBinding, ElectOf, GroupOf;
    if event.direction.Down? {
      var e1 := e.(maskOwed := false, resync := e.resync.Event(event.vk, true));
      var checked := e1.(keys := e1.keys.ClearReleased(env.keyDown, event.vk, ALL));
      var held := checked.(keys := checked.keys.Press(event.vk));
      var press := KeyDown(event.vk, held.keys.active, env.foreground);
      var winner, wasRepeat := ElectOf(bindings, press), checked.keys.Active(event.vk);
      var group := GroupOf(bindings, winner, press);
      ArmGroupAsksNoMask(held, group, event.vk, env.now);
      var start := if wasRepeat then Turn(held, Nothing) else ArmGroup(held, group, event.vk, env.now);
      VisitFromAsksNoMask(start, bindings, 0, winner, wasRepeat, press, env);
    }
  }

  lemma ArmGroupAsksNoMask(e: EngineState, group: Option<GroupArming<Action>>, vk: Vk, now: nat)
    ensures var t := ArmGroup(e, group, vk, now); t.e.maskOwed == e.maskOwed && !t.d.mask
  {}

  // ----- the world -----

  /** Key events and lost key-ups, focus changes, notes and input coming back,
      reloads without a MaskOnly blocker, timers, remapping off and on, and
      hook reinstalls. Not: a key-down the hook misses, input leaving the
      desktop, or an injected event; each of these can break the rule. */
  predicate IsCounted(step: WorldStep) {
    match step
    case Key(_, _) => true
    case UpHidden(_, _) => true
    case HiddenInputNoted => true
    case SetForeground(_) => true
    case ForegroundChanged => true
    case Signal(signal) => signal.Returned()
    case RemappingOff => true
    case RemappingOn => true
    case HookReinstall => true
    case Reload(file) => NoMaskOnly(file)
    case Advance(_) => true
    case AdvanceStalled(_) => true
    case LoseTimers => true
    case _ => false
  }

  /** The rule, read off Windows and not off the engine's records. */
  ghost predicate MaskIsExact(w: World, step: WorldStep) {
    step.Key? ==>
      var d := DecisionFor(w, step.vk, step.direction).d;
      d.mask == (d.suppress && exists key :: key in ALT_AND_WIN && w.osDown[key])
  }

  /** What Windows has down was seen and passed, and what the engine holds was
      decided, for one Alt or Win key. */
  ghost predicate MenuKeyKnown(w: World, vk: Vk)
    requires vk < 256
  {
    && (w.osDown[vk] ==> w.engine.keys.active[vk] && w.engine.keys.last[vk] == Passed)
    && (w.engine.keys.active[vk] ==> w.engine.keys.last[vk] in {Passed, Suppressed})
  }

  ghost predicate Known(w: World) {
    && NoMaskOnly(w.bindings) && !w.engine.maskOwed
    && (w.enabled ==> !w.engine.keys.active[VK_MENU] && forall vk :: vk in ALT_AND_WIN ==> MenuKeyKnown(w, vk))
  }

  /** After its decision, the engine's table and Windows agree on whether an
      Alt or Win key is down that Windows saw. */
  lemma TableAgreesWithWindows(w: World, k: KeyTable)
    requires !k.active[VK_MENU]
    requires forall vk :: vk in ALT_AND_WIN ==> (w.osDown[vk] <==> k.active[vk] && k.last[vk] != Suppressed)
    ensures k.AltOrWinDownInWindows() <==> exists key :: key in ALT_AND_WIN && w.osDown[key]
  {
    if key :| key in ALT_AND_WIN && w.osDown[key] {
      assert key in MENU && k.active[key] && k.last[key] != Suppressed;
    }
    if key :| key in MENU && k.active[key] && k.last[key] != Suppressed {
      assert key in ALT_AND_WIN && w.osDown[key];
    }
  }

  lemma KeyDownMask(w: World, vk: Vk)
    requires Known(w) && w.enabled && IsPhysical(vk)
    ensures MaskIsExact(w, Key(vk, Down))
    ensures var w' := AfterKey(w, vk, Down); !w'.engine.keys.active[VK_MENU] && forall m :: m in ALT_AND_WIN ==> MenuKeyKnown(w', m)
  {
    hide OnKey, Queued;
    var env := EnvOf(w);
    DecidedKey(w.engine, KeyEvent(vk, Down), w.bindings, env);
    EngineMask(w.engine, KeyEvent(vk, Down), w.bindings, env);
    var t := DecisionFor(w, vk, Down);
    forall m | m in ALT_AND_WIN
      ensures MenuKeyKnown(AfterKey(w, vk, Down), m)
      ensures t.d.suppress ==> (w.osDown[m] <==> t.e.keys.active[m] && t.e.keys.last[m] != Suppressed)
    {
      assert MenuKeyKnown(w, m);
      assert env.keyDown(m) == w.osDown[m];
    }
    if t.d.suppress {
      TableAgreesWithWindows(w, t.e.keys);
    }
  }

  lemma KeyUpMask(w: World, vk: Vk)
    requires Known(w) && w.enabled && IsPhysical(vk)
    ensures MaskIsExact(w, Key(vk, Up))
    ensures var w' := AfterKey(w, vk, Up); !w'.engine.keys.active[VK_MENU] && forall m :: m in ALT_AND_WIN ==> MenuKeyKnown(w', m)
  {
    hide OnKey, Queued;
    var env := EnvOf(w);
    DecidedKey(w.engine, KeyEvent(vk, Up), w.bindings, env);
    EngineMask(w.engine, KeyEvent(vk, Up), w.bindings, env);
    var t := DecisionFor(w, vk, Up);
    assert env.keyDown(vk) == w.osDown[vk];
    forall m | m in ALT_AND_WIN
      ensures MenuKeyKnown(AfterKey(w, vk, Up), m)
      ensures t.d.suppress ==> (w.osDown[m] <==> t.e.keys.active[m] && t.e.keys.last[m] != Suppressed)
    {
      assert MenuKeyKnown(w, m);
      assert env.keyDown(m) == w.osDown[m];
    }
    if t.d.suppress {
      TableAgreesWithWindows(w, t.e.keys);
    }
  }

  lemma KeyMask(w: World, vk: Vk, direction: Direction)
    requires Known(w) && IsScripted(w, Key(vk, direction))
    ensures MaskIsExact(w, Key(vk, direction)) && Known(AfterKey(w, vk, direction))
  {
    hide OnKey, Queued;
    if w.enabled {
      EngineMask(w.engine, KeyEvent(vk, direction), w.bindings, EnvOf(w));
      if direction.Down? {
        KeyDownMask(w, vk);
      } else {
        KeyUpMask(w, vk);
      }
    }
  }

  lemma DrainKnown(w: World)
    requires Known(w)
    ensures Known(Drain(w))
  {
    var env := EnvOf(w);
    forall m | m in ALT_AND_WIN && w.enabled ensures MenuKeyKnown(Drain(w), m) {
      assert MenuKeyKnown(w, m);
      assert env.keyDown(m) == w.osDown[m];
    }
  }

  /** A read of the whole key state makes Windows and the table agree. */
  lemma OsReadKnown(w: World, reason: ResetReason, enabled: bool)
    requires NoMaskOnly(w.bindings) && (reason.RemappingSwitched? || reason.HookReinstalled?)
    ensures Known(ResetWorld(w, reason).(enabled := enabled))
  {
    hide Pruned;
    var env, w' := EnvOf(w), ResetWorld(w, reason).(enabled := enabled);
    forall m | m in ALT_AND_WIN ensures MenuKeyKnown(w', m) {
      assert env.keyDown(m) == w.osDown[m];
    }
  }

  lemma QuietKnown(w: World, w': World)
    requires Known(w) && w'.engine.keys == w.engine.keys && w'.engine.maskOwed == w.engine.maskOwed
    requires w'.enabled == w.enabled && NoMaskOnly(w'.bindings)
    requires forall vk :: 0 <= vk < 256 && w'.osDown[vk] ==> w.osDown[vk]
    ensures Known(w') && Known(Drain(w'))
  {
    forall m | m in ALT_AND_WIN && w.enabled ensures MenuKeyKnown(w', m) {
      assert MenuKeyKnown(w, m);
    }
    DrainKnown(w');
  }

  lemma ReloadKnown(w: World, file: seq<Binding>)
    requires Known(w) && NoMaskOnly(file)
    ensures Known(Drain(ResetWorld(w.(bindings := SortBySpecificity(file)), Reloaded)))
  {
    hide Pruned, SortBySpecificity, Drain;
    SortKeepsNoMaskOnly(file);
    var reset := ResetWorld(w.(bindings := SortBySpecificity(file)), Reloaded);
    forall m | m in ALT_AND_WIN && w.enabled ensures MenuKeyKnown(reset, m) {
      assert MenuKeyKnown(w, m);
    }
    DrainKnown(reset);
  }

  lemma KeyStepKnown(w: World, vk: Vk, direction: Direction)
    requires Known(w) && IsScripted(w, Key(vk, direction))
    ensures MaskIsExact(w, Key(vk, direction)) && Known(NextWorld(w, Key(vk, direction)))
  {
    hide AfterKey, Drain, Known, MaskIsExact;
    KeyMask(w, vk, direction);
    DrainKnown(AfterKey(w, vk, direction));
  }

  /** Steps between the events that leave the engine's keys alone. */
  lemma QuietStepKnown(w: World, step: WorldStep)
    requires Known(w) && IsScripted(w, step) && IsCounted(step)
    requires step.UpHidden? || step.HiddenInputNoted? || step.SetForeground? || step.ForegroundChanged? || step.Signal? || step.AdvanceStalled?
    ensures Known(NextWorld(w, step))
  {
    hide AfterKey, ResetWorld, Drain, AfterAdvance, ForgetAll, SortBySpecificity, ForgetTimer, TrackInjected;
    match step
    case UpHidden(vk, noticed) =>
      var up := w.(held := w.held[vk := false], osDown := w.osDown[vk := false], presses := w.presses[vk := None]);
      QuietKnown(w, if noticed then up.(notes := up.notes + 1) else up);
    case HiddenInputNoted => QuietKnown(w, w.(notes := w.notes + 1));
    case SetForeground(foreground) => QuietKnown(w, w.(foreground := foreground));
    case ForegroundChanged => QuietKnown(w, w.(engine := OnForegroundChanged(w.engine)));
    case Signal(signal) => QuietKnown(w, w.(engine := InputReturned(w.engine)));
    case AdvanceStalled(ms) => QuietKnown(w, w.(now := w.now + ms));
  }

  lemma TimerStepKnown(w: World, step: WorldStep)
    requires Known(w) && (step.Advance? || step.LoseTimers?)
    ensures Known(NextWorld(w, step))
  {
    hide AfterKey, ResetWorld, Drain, DrainTimers, ForgetAll, SortBySpecificity, TrackInjected, NextPlace;
    match step
    case Advance(ms) =>
      DrainTimersKeepsKeys(w.engine, w.timers, w.now + ms);
      var drained := DrainTimers(w.engine, w.timers, w.now + ms);
      QuietKnown(w, w.(engine := drained.e, timers := drained.queue, now := w.now + ms));
    case LoseTimers =>
      ForgetAllKeepsKeys(w.engine, w.timers);
      QuietKnown(w, w.(engine := ForgetAll(w.engine, w.timers), timers := []));
  }

  lemma ResetStepKnown(w: World, step: WorldStep)
    requires Known(w) && IsScripted(w, step) && IsCounted(step)
    requires step.RemappingOff? || step.RemappingOn? || step.HookReinstall? || step.Reload?
    ensures Known(NextWorld(w, step))
  {
    hide AfterKey, ResetWorld, Drain, AfterAdvance, ForgetAll, SortBySpecificity, TrackInjected;
    match step
    case RemappingOff => ClosedKnown(w);
    case RemappingOn =>
      OsReadKnown(w, RemappingSwitched, true);
      DrainKnown(ResetWorld(w, RemappingSwitched).(enabled := true));
    case HookReinstall =>
      ResetKeepsEnabled(w, HookReinstalled);
      OsReadKnown(w, HookReinstalled, w.enabled);
      DrainKnown(ResetWorld(w, HookReinstalled));
    case Reload(file) => ReloadKnown(w, file);
  }

  /** Remapping off: the press notes are forgotten too. */
  lemma ClosedKnown(w: World)
    requires Known(w)
    ensures Known(ResetWorld(w, RemappingSwitched).(enabled := false, presses := seq(256, _ => None)))
  {
    hide ResetWorld;
    OsReadKnown(w, RemappingSwitched, false);
  }

  lemma StepKnown(w: World, step: WorldStep)
    requires Known(w) && IsCounted(step) && IsScripted(w, step)
    ensures MaskIsExact(w, step) && Known(NextWorld(w, step))
  {
    hide NextWorld, Known;
    match step
    case Key(vk, direction) => KeyStepKnown(w, vk, direction);
    case Advance(_) => TimerStepKnown(w, step);
    case LoseTimers => TimerStepKnown(w, step);
    case RemappingOff => ResetStepKnown(w, step);
    case RemappingOn => ResetStepKnown(w, step);
    case HookReinstall => ResetStepKnown(w, step);
    case Reload(_) => ResetStepKnown(w, step);
    case _ => QuietStepKnown(w, step);
  }

  lemma ResetKeepsEnabled(w: World, reason: ResetReason)
    ensures ResetWorld(w, reason) == ResetWorld(w, reason).(enabled := w.enabled)
  {}

  lemma {:induction false} RunKnown(w: World, script: seq<WorldStep>)
    requires Known(w) && IsScript(w, script) && forall step :: step in script ==> IsCounted(step)
    ensures EveryStep(w, script, MaskIsExact) && Known(RunWorld(w, script))
    decreases |script|
  {
    hide NextWorld, Known, IsScripted, MaskIsExact, IsCounted;
    if script != [] {
      StepKnown(w, script[0]);
      RunKnown(NextWorld(w, script[0]), script[1..]);
    }
  }

  /** In every such run with no MaskOnly blocker: every key event asks for the
      menu mask if and only if it is swallowed while Windows has an Alt or Win
      key down; and at the end, with remapping on, the engine holds each Alt and
      Win key that Windows has down. */
  lemma ExactMenuMask(file: seq<Binding>, foreground: ForegroundInfo, now: nat, script: seq<WorldStep>)
    requires NoMaskOnly(file)
    requires IsScript(FirstWorld(file, foreground, now), script)
    requires forall step :: step in script ==> IsCounted(step)
    ensures EveryStep(FirstWorld(file, foreground, now), script, MaskIsExact)
    ensures var end := RunWorld(FirstWorld(file, foreground, now), script);
            end.enabled ==> forall key :: key in ALT_AND_WIN && end.osDown[key] ==> end.engine.keys.active[key]
  {
    hide MaskIsExact;
    FirstIsKnown(file, foreground, now);
    RunKnown(FirstWorld(file, foreground, now), script);
  }

  lemma FirstIsKnown(file: seq<Binding>, foreground: ForegroundInfo, now: nat)
    requires NoMaskOnly(file)
    ensures Known(FirstWorld(file, foreground, now))
  {
    hide Drain, SortBySpecificity;
    SortKeepsNoMaskOnly(file);
    var w := StartWorld(file, foreground, now);
    assert Known(w);
    DrainKnown(w);
  }
}
