/** Which keys the engine holds after each of its steps, and what it has on record of them. */
module KeyRules {
  import opened Options
  import opened Modifiers
  import opened Bindings
  import opened KeyTables
  import opened Timers
  import opened Resyncs
  import opened EngineStates
  import EngineFacts
  import Worlds

  /** A held key that the check of a key event leaves: it is no modifier, its
      press was swallowed, or Windows has it down. */
  ghost predicate PassesTheCheck(k: KeyTable, keyDown: Vk -> bool, c: Vk)
    requires c < 256
  {
    k.active[c] && (c !in ALL || k.last[c] == Suppressed || keyDown(c))
  }

  /** A code a keyboard sends: no mouse button, and no code for either side. */
  predicate IsKeyboardCode(c: Vk) {
    0 < c < 255 && c !in {0x01, 0x02, 0x04, 0x05, 0x06} && c !in {0x10, 0x11, 0x12}
  }

  /** Whether the engine holds `c` after a step that `swallowed` its key event
      or not. */
  ghost predicate HoldsAfter(e: EngineState, op: EngineOp, swallowed: bool, c: Vk)
    requires c < 256
  {
    var k := e.keys;
    match op
    case KeyOp(event, _, env) =>
      if event.direction.Down? then c == event.vk || PassesTheCheck(k, env.keyDown, c)
      else c != event.vk && k.active[c] && (swallowed && c in MENU ==> k.last[c] == Suppressed || env.keyDown(c))
    case ResetOp(reason, env) =>
      (match reason
       case RemappingSwitched => IsKeyboardCode(c) && env.keyDown(c)
       case HookReinstalled => IsKeyboardCode(c) && env.keyDown(c)
       case Reloaded => k.active[c]
       case InputLeft => false)
    case DrainOp(notes, env) =>
      if c in e.resync.Plan(notes).1 && c in ALL && k.last[c] != Suppressed
      then env.keyDown(c) && (c in SIDED || k.active[c])
      else k.active[c]
    case InjectedOp(event) =>
      if c == event.vk && c in ALL && k.last[c] != Suppressed then event.direction.Down? else k.active[c]
    case _ => k.active[c]
  }

  /** What every step does to the keys held: a key event holds or releases its
      own key and drops only modifiers that Windows has up and whose press it
      did not swallow; resets take the keyboard's keys from Windows, keep them,
      or release them; a drain reads the planned modifiers; and an injected
      event moves the flag of its modifier, unless that press was swallowed. */
  lemma HeldAfterStep(e: EngineState, op: EngineOp, c: Vk)
    requires c < 256
    ensures Step(e, op).e.keys.active[c] <==> HoldsAfter(e, op, Step(e, op).d.suppress, c)
  {
    hide OnKey, OnTimer, ForgetTimer, SIDED, GENERIC, MENU, ALL;
    match op
    case KeyOp(event, bindings, env) => HeldAfterKey(e, event, bindings, env, c);
    case TimerOp(token) => TimersKeepKeys(e, token);
    case ForgetOp(token) => TimersKeepKeys(e, token);
    case ResetOp(reason, env) => HeldAfterReset(e, reason, env, c);
    case _ =>
  }

  lemma TimersKeepKeys(e: EngineState, token: TimerToken)
    ensures OnTimer(e, token).e.keys == e.keys && ForgetTimer(e, token).0.keys == e.keys
  {}

  lemma HeldAfterReset(e: EngineState, reason: ResetReason, env: Env, c: Vk)
    requires c < 256
    ensures Reset(e, env, reason).keys.active[c] <==> HoldsAfter(e, ResetOp(reason, env), false, c)
  {
    hide KeyTable.SeededFromOs, IsKeyboardCode;
    SeededIsTheKeyboard(c);
  }

  lemma SeededIsTheKeyboard(c: Vk)
    ensures KeyTable.SeededFromOs(c) <==> IsKeyboardCode(c)
  {}

  lemma MenuKeysAreModifiers(c: Vk)
    ensures c in MENU ==> c in ALL
  {}

  lemma HeldAfterKey(e: EngineState, event: KeyEvent, bindings: seq<Binding>, env: Env, c: Vk)
    requires c < 256
    ensures var t := OnKey(e, event, bindings, env);
            t.e.keys.active[c] <==> HoldsAfter(e, KeyOp(event, bindings, env), t.d.suppress, c)
  {
    hide OnKey, ALL, MENU;
    MenuKeysAreModifiers(c);
    if event.vk < 256 {
      Worlds.DecidedKey(e, event, bindings, env);
    } else {
      OutsideTheTable(e, event, bindings, env);
    }
  }

  /** An event of a code past the table, which no record stands for. */
  lemma OutsideTheTable(e: EngineState, event: KeyEvent, bindings: seq<Binding>, env: Env)
    requires event.vk >= 256
    ensures var t := OnKey(e, event, bindings, env);
            t.e.keys.active == if event.direction.Down? then e.keys.ClearReleased(env.keyDown, event.vk, ALL).active
                               else if t.d.suppress then e.keys.ClearReleased(env.keyDown, event.vk, MENU).active
                               else e.keys.active
  {
    hide EngineStates.OnKeyDown, ResolvePress, KeyTable.ClearReleased, KeyTable.AltOrWinDownInWindows;
    var e1 := e.(maskOwed := false, resync := e.resync.Event(event.vk, true));
    if event.direction.Down? {
      EngineFacts.KeyDownOutside(e1.(keys := e1.keys.ClearReleased(env.keyDown, event.vk, ALL)), event.vk, bindings, env);
    } else {
      ResolvingKeepsKeys(e1.(keys := e1.keys.Release(event.vk)), event.vk, env.now);
    }
  }

  lemma ResolvingKeepsKeys(e: EngineState, vk: Vk, now: nat)
    ensures ResolvePress(e, vk, now).0.e.keys == e.keys && !ResolvePress(e, vk, now).0.d.suppress
  {}
}
