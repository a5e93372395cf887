/** Each press is treated as a whole. */
module PressSymmetry {
  import opened Options
  import opened Modifiers
  import opened Conditions
  import opened Bindings
  import opened KeyTables
  import opened Winners
  import opened Timers
  import opened EngineStates
  import opened EngineFacts
  import opened Tokens
  import opened Worlds

  /** No event is hidden or injected, input stays, remapping stays on and the
      hook in place; the config may be reloaded and timers lost. */
  predicate IsWhole(step: WorldStep) {
    match step
    case Key(_, _) => true
    case HiddenInputNoted => true
    case SetForeground(_) => true
    case ForegroundChanged => true
    case Signal(signal) => signal.Returned()
    case Reload(_) => true
    case Advance(_) => true
    case AdvanceStalled(_) => true
    case LoseTimers => true
    case _ => false
  }

  /** Every auto-repeat and the key-up of a press are swallowed exactly when
      its key-down was. */
  ghost predicate IsSymmetric(w: World, step: WorldStep) {
    step.Key? && step.vk < 256 && w.held[step.vk] ==>
      w.presses[step.vk] == Some(DecisionFor(w, step.vk, step.direction).d.suppress)
  }

  /** The engine, Windows, the fingers and the press record agree on each key. */
  ghost predicate KeyAgrees(w: World, vk: Vk)
    requires vk < 256
  {
    var record := w.engine.keys.last[vk];
    && w.engine.keys.active[vk] == w.held[vk]
    && (w.held[vk] ==> record in {Passed, Suppressed})
    && w.osDown[vk] == (w.held[vk] && record == Passed)
    && w.presses[vk] == (if w.held[vk] then Some(record == Suppressed) else None)
    && (vk in GENERIC ==> !w.held[vk])
  }

  ghost predicate Agrees(w: World) {
    w.enabled && forall vk :: 0 <= vk < 256 ==> KeyAgrees(w, vk)
  }

  /** Windows is no news about a key whose press was decided. */
  lemma ReadsAsHeld(w: World, vk: Vk)
    requires Agrees(w) && vk < 256 && vk !in GENERIC
    ensures EnvOf(w).keyDown(vk) == (w.held[vk] && w.engine.keys.last[vk] == Passed)
  {
    assert KeyAgrees(w, vk);
  }

  lemma ClearChangesNothing(w: World, own: Vk)
    requires Agrees(w)
    ensures w.engine.keys.ClearReleased(EnvOf(w).keyDown, own, ALL) == w.engine.keys
  {
    var k := w.engine.keys;
    forall vk | 0 <= vk < 256 ensures k.ClearReleased(EnvOf(w).keyDown, own, ALL).active[vk] == k.active[vk] {
      assert KeyAgrees(w, vk);
      if vk !in GENERIC {
        ReadsAsHeld(w, vk);
      }
    }
  }

  lemma KeyDownAgrees(w: World, vk: Vk)
    requires Agrees(w) && IsPhysical(vk)
    ensures IsSymmetric(w, Key(vk, Down)) && Agrees(AfterKey(w, vk, Down))
  {
    hide OnKey;
    ClearChangesNothing(w, vk);
    DecidedKey(w.engine, KeyEvent(vk, Down), w.bindings, EnvOf(w));
    var w' := AfterKey(w, vk, Down);
    assert KeyAgrees(w, vk);
    forall c | 0 <= c < 256 ensures KeyAgrees(w', c) {
      assert KeyAgrees(w, c);
    }
  }

  lemma KeyUpAgrees(w: World, vk: Vk)
    requires Agrees(w) && IsPhysical(vk) && w.held[vk]
    ensures IsSymmetric(w, Key(vk, Up)) && Agrees(AfterKey(w, vk, Up))
  {
    hide OnKey;
    DecidedKey(w.engine, KeyEvent(vk, Up), w.bindings, EnvOf(w));
    ReadsAsHeld(w, vk);
    assert KeyAgrees(w, vk);
    var k, k', suppress := w.engine.keys, DecisionFor(w, vk, Up).e.keys, DecisionFor(w, vk, Up).d.suppress;
    assert suppress == (k.last[vk] == Suppressed);
    forall c | 0 <= c < 256 && c != vk ensures k'.active[c] == k.active[c] {
      assert KeyAgrees(w, c);
      if c !in GENERIC {
        ReadsAsHeld(w, c);
      }
    }
    var w' := AfterKey(w, vk, Up);
    forall c | 0 <= c < 256 ensures KeyAgrees(w', c) {
      assert KeyAgrees(w, c);
    }
  }

  lemma DrainAgrees(w: World)
    requires Agrees(w)
    ensures Agrees(Drain(w))
  {
    var w' := Drain(w);
    forall vk | 0 <= vk < 256 ensures KeyAgrees(w', vk) {
      assert KeyAgrees(w, vk);
      if vk !in GENERIC {
        ReadsAsHeld(w, vk);
      }
    }
  }

  /** Steps that touch no key. */
  lemma QuietAgrees(w: World, w': World)
    requires Agrees(w) && w'.engine.keys == w.engine.keys && w'.osDown == w.osDown && w'.held == w.held
    requires w'.presses == w.presses && w'.enabled
    ensures Agrees(w')
  {
    forall vk | 0 <= vk < 256 ensures KeyAgrees(w', vk) {
      assert KeyAgrees(w, vk);
    }
  }

  lemma QuietThenDrainAgrees(w: World, w': World)
    requires Agrees(w) && w'.engine.keys == w.engine.keys && w'.osDown == w.osDown && w'.held == w.held
    requires w'.presses == w.presses && w'.enabled
    ensures Agrees(w') && Agrees(Drain(w'))
  {
    QuietAgrees(w, w');
    DrainAgrees(w');
  }

  lemma StepAgrees(w: World, step: WorldStep)
    requires Agrees(w) && IsWhole(step) && IsScripted(w, step)
    ensures IsSymmetric(w, step) && Agrees(NextWorld(w, step))
  {
    hide AfterKey, Drain, DrainTimers, ForgetAll, Pruned, SortBySpecificity, Agrees;
    match step
    case Key(vk, direction) =>
      if direction.Down? {
        KeyDownAgrees(w, vk);
      } else {
        KeyUpAgrees(w, vk);
      }
      DrainAgrees(AfterKey(w, vk, direction));
    case HiddenInputNoted => EnabledWhenAgreed(w); QuietThenDrainAgrees(w, w.(notes := w.notes + 1));
    case SetForeground(foreground) => EnabledWhenAgreed(w); QuietAgrees(w, w.(foreground := foreground));
    case ForegroundChanged => QuietThenDrainAgrees(w, w.(engine := OnForegroundChanged(w.engine)));
    case Signal(signal) => QuietThenDrainAgrees(w, w.(engine := InputReturned(w.engine)));
    case Reload(file) =>
      EnabledWhenAgreed(w);
      QuietThenDrainAgrees(w, ResetWorld(w.(bindings := SortBySpecificity(file)), Reloaded));
    case Advance(ms) =>
      EnabledWhenAgreed(w);
      DrainTimersKeepsKeys(w.engine, w.timers, w.now + ms);
      var drained := DrainTimers(w.engine, w.timers, w.now + ms);
      QuietThenDrainAgrees(w, w.(engine := drained.e, timers := drained.queue, now := w.now + ms));
    case AdvanceStalled(ms) => EnabledWhenAgreed(w); QuietAgrees(w, w.(now := w.now + ms));
    case LoseTimers =>
      EnabledWhenAgreed(w);
      ForgetAllKeepsKeys(w.engine, w.timers);
      QuietAgrees(w, w.(engine := ForgetAll(w.engine, w.timers), timers := []));
  }

  lemma EnabledWhenAgreed(w: World)
    requires Agrees(w)
    ensures w.enabled
  {}

  lemma {:induction false} RunAgrees(w: World, script: seq<WorldStep>)
    requires Agrees(w) && IsScript(w, script) && forall step :: step in script ==> IsWhole(step)
    ensures EveryStep(w, script, IsSymmetric) && Agrees(RunWorld(w, script))
    decreases |script|
  {
    hide NextWorld, Agrees, IsScripted, IsSymmetric, IsWhole;
    if script != [] {
      StepAgrees(w, script[0]);
      RunAgrees(NextWorld(w, script[0]), script[1..]);
    }
  }

  /** In every run with no lost, hidden or injected event, across focus changes,
      drains, lost timers and reloads that swap the bindings at will: every
      auto-repeat and the key-up of a press are swallowed exactly when its
      first key-down was. At the end the engine holds exactly the keys that the
      fingers hold, and Windows exactly those of them whose press was passed. */
  lemma WholePressSymmetry(file: seq<Binding>, foreground: ForegroundInfo, now: nat, script: seq<WorldStep>)
    requires IsScript(FirstWorld(file, foreground, now), script)
    requires forall step :: step in script ==> IsWhole(step)
    ensures EveryStep(FirstWorld(file, foreground, now), script, IsSymmetric)
    ensures var end := RunWorld(FirstWorld(file, foreground, now), script);
            forall vk :: 0 <= vk < 256 ==>
              && end.engine.keys.active[vk] == end.held[vk]
              && end.osDown[vk] == (end.held[vk] && end.presses[vk] == Some(false))
  {
    hide IsSymmetric;
    var w := StartWorld(file, foreground, now);
    assert Agrees(w);
    DrainAgrees(w);
    RunAgrees(FirstWorld(file, foreground, now), script);
    var end := RunWorld(FirstWorld(file, foreground, now), script);
    forall vk | 0 <= vk < 256
      ensures end.engine.keys.active[vk] == end.held[vk]
      ensures end.osDown[vk] == (end.held[vk] && end.presses[vk] == Some(false))
    {
      assert KeyAgrees(end, vk);
    }
  }
}
