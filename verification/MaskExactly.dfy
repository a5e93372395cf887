/** When a key event asks for the menu mask, and exactly when that meets the rule. */
module MaskExactly {
  import opened Options
  import opened Modifiers
  import opened Conditions
  import opened Bindings
  import opened KeyTables
  import opened Winners
  import opened Timers
  import opened EngineStates
  import opened EngineFacts
  import opened Tokens
  import opened Worlds
  import opened MaskRule
  import Chords = ChordTables
  import Sequences = SequenceTables

  // ----- the keys of what a key-down completes -----

  /** The codes of the sequence or chord that the key-down completes at this
      binding. */
  function CodesAt(t: Turn, b: Binding, wasRepeat: bool, press: KeyDown, env: Env): seq<Vk> {
    if wasRepeat || !b.condition.Evaluate(env.foreground) then []
    else
      match b.kind
      case Combo(_) => []
      case Sequence(_, _) =>
        var outcome := Sequences.FeedSequence(t.e.sequences, SequenceFeedOf(t, b, press, env.now)).1;
        if outcome.Finished? then outcome.lastStepKeys else []
      case Chord(_, _) =>
        var outcome := Chords.FeedChord(t.e.chords, ChordFeedOf(t, b, press, env.now)).1;
        if outcome.Completed? then outcome.keys else []
  }

  function CodesFrom(t: Turn, bindings: seq<Binding>, i: nat, winner: Option<nat>, wasRepeat: bool, press: KeyDown, env: Env): seq<Vk>
    requires i <= |bindings| && (winner.Some? ==> winner.value < |bindings|)
    decreases |bindings| - i
  {
    if i == |bindings| then []
    else
      var next := VisitBinding(t, bindings, i, winner, wasRepeat, press, env);
      CodesAt(t, bindings[i], wasRepeat, press, env) + CodesFrom(next, bindings, i + 1, winner, wasRepeat, press, env)
  }

  /** The codes of every sequence and chord that a key event completes. */
  function CompletedCodes(e: EngineState, event: KeyEvent, bindings: seq<Binding>, env: Env): seq<Vk> {
    if event.direction.Up? then []
    else
      var e1 := e.(maskOwed := false, resync := e.resync.Event(event.vk, true), keys := e.keys.ClearReleased(env.keyDown, event.vk, ALL));
      var held := e1.(keys := e1.keys.Press(event.vk));
      var press := KeyDown(event.vk, held.keys.active, env.foreground);
      var winner, wasRepeat := ElectOf(bindings, press), e1.keys.Active(event.vk);
      var start := if wasRepeat then Turn(held, Nothing) else ArmGroup(held, GroupOf(bindings, winner, press), event.vk, env.now);
      CodesFrom(start, bindings, 0, winner, wasRepeat, press, env)
  }

  lemma {:induction false} MarkAllMore(k: KeyTable, codes: seq<Vk>, more: seq<Vk>)
    ensures MarkAll(MarkAll(k, codes), more) == MarkAll(k, codes + more)
    decreases |codes|
  {
    if codes == [] {
      assert codes + more == more;
    } else {
      assert (codes + more)[1..] == codes[1..] + more;
      MarkAllMore(k.MarkCompleted(codes[0]), codes[1..], more);
    }
  }

  /** A held key whose key-down is not known to have passed is marked; no other
      is. */
  lemma {:induction false} MarkAllMarks(k: KeyTable, codes: seq<Vk>, c: Vk)
    requires c < 256
    ensures MarkAll(k, codes).last[c] == if k.active[c] && k.last[c] != Passed && c in codes then Suppressed else k.last[c]
    decreases |codes|
  {
    if codes != [] {
      MarkAllMarks(k.MarkCompleted(codes[0]), codes[1..], c);
      assert codes == [codes[0]] + codes[1..];
    }
  }

  lemma VisitMarks(t: Turn, bindings: seq<Binding>, i: nat, winner: Option<nat>, wasRepeat: bool, press: KeyDown, env: Env)
    requires i < |bindings| && (winner.Some? ==> winner.value < |bindings|)
    ensures VisitBinding(t, bindings, i, winner, wasRepeat, press, env).e.keys
         == MarkAll(t.e.keys, CodesAt(t, bindings[i], wasRepeat, press, env))
  {
    hide Sequences.FeedSequence, Chords.FeedChord;
  }

  lemma {:induction false} VisitFromMarks(t: Turn, bindings: seq<Binding>, i: nat, winner: Option<nat>, wasRepeat: bool, press: KeyDown, env: Env)
    requires i <= |bindings| && (winner.Some? ==> winner.value < |bindings|)
    ensures VisitFrom(t, bindings, i, winner, wasRepeat, press, env).e.keys
         == MarkAll(t.e.keys, CodesFrom(t, bindings, i, winner, wasRepeat, press, env))
    decreases |bindings| - i
  {
    hide VisitBinding, CodesAt;
    if i < |bindings| {
      var next := VisitBinding(t, bindings, i, winner, wasRepeat, press, env);
      VisitMarks(t, bindings, i, winner, wasRepeat, press, env);
      VisitFromMarks(next, bindings, i + 1, winner, wasRepeat, press, env);
      MarkAllMore(t.e.keys, CodesAt(t, bindings[i], wasRepeat, press, env), CodesFrom(next, bindings, i + 1, winner, wasRepeat, press, env));
    }
  }

  /** The records of the other keys after a key-down. */
  lemma KeyDownRecords(e: EngineState, vk: Vk, bindings: seq<Binding>, env: Env, c: Vk)
    requires vk < 256 && c < 256 && c != vk
    ensures var k := e.keys.ClearReleased(env.keyDown, vk, ALL);
            var marked := k.active[c] && k.last[c] != Passed && c in CompletedCodes(e, KeyEvent(vk, Down), bindings, env);
            OnKey(e, KeyEvent(vk, Down), bindings, env).e.keys.last[c] == if marked then Suppressed else k.last[c]
  {
    hide ArmGroup, VisitFrom, CodesFrom, MarkAll, ElectOf, GroupOf, KeyTable.ClearReleased;
    var e1 := e.(maskOwed := false, resync := e.resync.Event(vk, true), keys := e.keys.ClearReleased(env.keyDown, vk, ALL));
    var held := e1.(keys := e1.keys.Press(vk));
    var press := KeyDown(vk, held.keys.active, env.foreground);
    var winner, wasRepeat := ElectOf(bindings, press), e1.keys.Active(vk);
    var group := GroupOf(bindings, winner, press);
    ArmingKeepsKeys(held, group, vk, env.now);
    var start := if wasRepeat then Turn(held, Nothing) else ArmGroup(held, group, vk, env.now);
    VisitFromMarks(start, bindings, 0, winner, wasRepeat, press, env);
    MarkAllMarks(start.e.keys, CodesFrom(start, bindings, 0, winner, wasRepeat, press, env), c);
  }

  lemma ArmingKeepsKeys(e: EngineState, group: Option<GroupArming<Action>>, vk: Vk, now: nat)
    ensures ArmGroup(e, group, vk, now).e.keys == e.keys
  {}

  // ----- what the mask counts -----

  /** The engine counts another Alt or Win code: it holds it, Windows reads it
      down, and its record does not say swallowed, before the event or by what
      the event completes. */
  ghost predicate IsCountedKey(w: World, vk: Vk, direction: Direction, m: Vk) {
    && m in MENU && m != vk
    && w.engine.keys.active[m] && ReadsDown(w.osDown, m)
    && w.engine.keys.last[m] != Suppressed
    && (w.engine.keys.last[m] == Passed
        || m !in CompletedCodes(w.engine, KeyEvent(vk, direction), w.bindings, EnvOf(w)))
  }

  ghost predicate CountsAny(w: World, vk: Vk, direction: Direction) {
    exists m: Vk :: IsCountedKey(w, vk, direction, m)
  }

  /** The event's own key counts in an auto-repeat with no settled record. */
  ghost predicate CountsItself(w: World, vk: Vk, direction: Direction)
    requires vk < 256
  {
    direction.Down? && vk in MENU && w.engine.keys.active[vk] && w.engine.keys.last[vk] in {Unknown, RepeatSuppressed}
  }

  ghost predicate AltOrWinDown(w: World) {
    exists key :: key in ALT_AND_WIN && w.osDown[key]
  }

  /** A counted code is one that Windows has down. */
  lemma CountedIsDown(w: World, vk: Vk, direction: Direction)
    ensures CountsAny(w, vk, direction) ==> AltOrWinDown(w)
  {
    if m: Vk :| IsCountedKey(w, vk, direction, m) {
      assert m == VK_MENU ==> w.osDown[VK_LMENU] || w.osDown[VK_RMENU];
      assert m != VK_MENU ==> m in ALT_AND_WIN && w.osDown[m];
    }
  }

  /** The engine's own table after a swallowed key-down. */
  lemma CountedAfterDown(w: World, vk: Vk)
    requires vk < 256
    ensures var t := OnKey(w.engine, KeyEvent(vk, Down), w.bindings, EnvOf(w));
            t.d.suppress ==> (t.e.keys.AltOrWinDownInWindows() <==> CountsItself(w, vk, Down) || CountsAny(w, vk, Down))
  {
    hide OnKey, CompletedCodes;
    var env := EnvOf(w);
    var k' := OnKey(w.engine, KeyEvent(vk, Down), w.bindings, env).e.keys;
    DecidedKey(w.engine, KeyEvent(vk, Down), w.bindings, env);
    forall m: Vk | m in MENU && m != vk
      ensures (k'.active[m] && k'.last[m] != Suppressed) <==> IsCountedKey(w, vk, Down, m)
    {
      KeyDownRecords(w.engine, vk, w.bindings, env, m);
      assert env.keyDown(m) == ReadsDown(w.osDown, m);
    }
    FourRecords(w.engine.keys.last[vk]);
    if m: Vk :| IsCountedKey(w, vk, Down, m) {
      assert m in MENU && k'.active[m] && k'.last[m] != Suppressed;
    }
  }

  lemma FourRecords(record: LastDown)
    ensures record in {Unknown, RepeatSuppressed} <==> record !in {Passed, Suppressed}
  {
    assert record.Unknown? || record.Passed? || record.Suppressed? || record.RepeatSuppressed?;
  }

  lemma CountedAfterUp(w: World, vk: Vk)
    requires vk < 256
    ensures var t := OnKey(w.engine, KeyEvent(vk, Up), w.bindings, EnvOf(w));
            t.d.suppress ==> (t.e.keys.AltOrWinDownInWindows() <==> CountsAny(w, vk, Up))
  {
    hide OnKey;
    var env := EnvOf(w);
    var t := OnKey(w.engine, KeyEvent(vk, Up), w.bindings, env);
    DecidedKey(w.engine, KeyEvent(vk, Up), w.bindings, env);
    if t.d.suppress {
      forall m: Vk | m in MENU
        ensures (t.e.keys.active[m] && t.e.keys.last[m] != Suppressed) <==> IsCountedKey(w, vk, Up, m)
      {
        assert env.keyDown(m) == ReadsDown(w.osDown, m);
      }
      if m: Vk :| IsCountedKey(w, vk, Up, m) {
        assert m in MENU && t.e.keys.active[m] && t.e.keys.last[m] != Suppressed;
      }
    }
  }

  /** Without a MaskOnly blocker a key event asks for the mask exactly when it
      is swallowed while an Alt or Win code counts. */
  lemma MaskIsWhatCounts(w: World, vk: Vk, direction: Direction)
    requires w.enabled && NoMaskOnly(w.bindings) && !w.engine.maskOwed && vk < 256
    ensures var d := DecisionFor(w, vk, direction).d;
            d.mask == (d.suppress && (CountsItself(w, vk, direction) || CountsAny(w, vk, direction)))
  {
    hide OnKey, CountsItself, CountsAny, KeyTable.AltOrWinDownInWindows;
    EngineMask(w.engine, KeyEvent(vk, direction), w.bindings, EnvOf(w));
    match direction
    case Down => CountedAfterDown(w, vk);
    case Up =>
      CountedAfterUp(w, vk);
      NoUpCountsItself(w, vk);
  }

  lemma NoUpCountsItself(w: World, vk: Vk)
    requires vk < 256
    ensures !CountsItself(w, vk, Up)
  {}

  /** The exact condition, on the world before the event, for one that is
      swallowed: with an Alt or Win key down in Windows the engine must count
      one; with none down the event must not count its own key. */
  ghost predicate CountsAsWindows(w: World, vk: Vk, direction: Direction)
    requires vk < 256
  {
    if AltOrWinDown(w) then CountsItself(w, vk, direction) || CountsAny(w, vk, direction)
    else !CountsItself(w, vk, direction)
  }

  /** The rule holds of an event iff it passes or the condition holds. */
  ghost predicate ExactlyWhenCounted(w: World, step: WorldStep) {
    step.Key? && step.vk < 256 ==>
      (MaskIsExact(w, step) <==>
         !DecisionFor(w, step.vk, step.direction).d.suppress || CountsAsWindows(w, step.vk, step.direction))
  }

  lemma KeyIsExactlyWhenCounted(w: World, step: WorldStep)
    requires NoMaskOnly(w.bindings) && !w.engine.maskOwed
    ensures ExactlyWhenCounted(w, step)
  {
    hide OnKey, CountsItself, CountsAny;
    if step.Key? && step.vk < 256 {
      if w.enabled {
        MaskIsWhatCounts(w, step.vk, step.direction);
        CountedIsDown(w, step.vk, step.direction);
      }
    }
  }

  /** For an event of another key, with every Alt and Win key that is held on
      record as passed or swallowed, the condition is that of the keys Windows
      has down one is held and on record as passed. */
  lemma DecidedRecordsCount(w: World, vk: Vk, direction: Direction)
    requires vk < 256 && vk !in MENU && !w.engine.keys.active[VK_MENU]
    requires forall m :: m in ALT_AND_WIN && w.engine.keys.active[m] ==> w.engine.keys.last[m] in {Passed, Suppressed}
    ensures CountsAsWindows(w, vk, direction) <==>
            (AltOrWinDown(w) ==>
               exists m :: m in ALT_AND_WIN && w.osDown[m] && w.engine.keys.active[m] && w.engine.keys.last[m] == Passed)
  {
    hide CompletedCodes;
    if m: Vk :| m in ALT_AND_WIN && w.osDown[m] && w.engine.keys.active[m] && w.engine.keys.last[m] == Passed {
      assert IsCountedKey(w, vk, direction, m);
    }
  }

  // ----- whole runs -----

  /** No step is ruled out; only a reload may not bring a MaskOnly blocker. */
  predicate NoMaskOnlyLoaded(step: WorldStep) {
    step.Reload? ==> NoMaskOnly(step.file)
  }

  ghost predicate NoMaskOwed(w: World) {
    NoMaskOnly(w.bindings) && !w.engine.maskOwed
  }

  lemma KeyOwesNoMask(w: World, vk: Vk, direction: Direction)
    requires NoMaskOwed(w) && vk < 256
    ensures NoMaskOwed(Drain(AfterKey(w, vk, direction)))
  {
    hide OnKey, Queued;
    if w.enabled {
      EngineMask(w.engine, KeyEvent(vk, direction), w.bindings, EnvOf(w));
    }
  }

  lemma StepOwesNoMask(w: World, step: WorldStep)
    requires NoMaskOwed(w) && NoMaskOnlyLoaded(step) && IsScripted(w, step)
    ensures NoMaskOwed(NextWorld(w, step))
  {
    hide AfterKey, DrainTimers, ForgetAll, SortBySpecificity, Pruned, NoMaskOnly, NextPlace;
    match step
    case Key(vk, direction) => KeyOwesNoMask(w, vk, direction);
    case Reload(file) => SortKeepsNoMaskOnly(file);
    case Advance(ms) => DrainTimersKeepsKeys(w.engine, w.timers, w.now + ms);
    case LoseTimers => ForgetAllKeepsKeys(w.engine, w.timers);
    case _ =>
  }

  lemma {:induction false} RunIsExactlyWhenCounted(w: World, script: seq<WorldStep>)
    requires NoMaskOwed(w) && IsScript(w, script) && forall step :: step in script ==> NoMaskOnlyLoaded(step)
    ensures EveryStep(w, script, ExactlyWhenCounted) && NoMaskOwed(RunWorld(w, script))
    decreases |script|
  {
    hide NextWorld, IsScripted, NoMaskOnlyLoaded, ExactlyWhenCounted, NoMaskOnly;
    if script != [] {
      KeyIsExactlyWhenCounted(w, script[0]);
      StepOwesNoMask(w, script[0]);
      RunIsExactlyWhenCounted(NextWorld(w, script[0]), script[1..]);
    }
  }

  /** At every key event of every run with no MaskOnly blocker, hidden
      key-downs, locks, desktop switches and injected events included, and for
      every key: the menu mask is right if and only if the event passes, or the
      engine's records count an Alt or Win key as Windows has one down. */
  lemma MaskRuleHoldsExactlyWhenCounted(file: seq<Binding>, foreground: ForegroundInfo, now: nat, script: seq<WorldStep>)
    requires NoMaskOnly(file)
    requires IsScript(FirstWorld(file, foreground, now), script)
    requires forall step :: step in script ==> NoMaskOnlyLoaded(step)
    ensures EveryStep(FirstWorld(file, foreground, now), script, ExactlyWhenCounted)
    ensures !RunWorld(FirstWorld(file, foreground, now), script).engine.maskOwed
  {
    hide ExactlyWhenCounted, NextWorld, SortBySpecificity;
    SortKeepsNoMaskOnly(file);
    RunIsExactlyWhenCounted(FirstWorld(file, foreground, now), script);
  }
}
