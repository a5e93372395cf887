/** A first key-down in full: the winner, the blockers, and one machine for each sequence and chord. */
module EngineMachines {
  import opened Options
  import opened Modifiers
  import opened Conditions
  import opened Bindings
  import opened KeyTables
  import opened Winners
  import opened GestureTables
  import opened Timers
  import opened EngineStates
  import opened KeyDowns
  import EngineFacts
  import Matching
  import MaskExactly
  import Chords = ChordTables
  import Sequences = SequenceTables
  import CR = ChordRuns
  import CM = ChordMachines
  import SR = SequenceRuns
  import SM = SequenceMachines

  /** Every key-down fed to the sequences and to the chords since the last
      reset, in order. */
  datatype Histories = Histories(sequences: seq<Sequences.SequenceFeed>, chords: seq<Chords.ChordFeed>)

  const NoHistories: Histories := Histories([], [])

  /** The engine's tables mirror the machines of these histories. */
  ghost predicate Mirrored(e: EngineState, h: Histories, now: nat) {
    && SM.MirrorsAll(SR.SequenceRun(e.sequences, h.sequences), now)
    && CM.MirrorsAll(CR.ChordRun(e.chords, h.chords), now)
  }

  /** What the loader guarantees of a sequence's steps and a chord's keys. */
  ghost predicate IsLoadable(b: Binding) {
    match b.kind
    case Combo(_) => true
    case Sequence(steps, _) => SR.Loadable(steps) && steps != []
    case Chord(keys, _) => CR.Loadable(keys)
  }

  ghost predicate AllLoadable(bindings: seq<Binding>) {
    forall b :: b in bindings ==> IsLoadable(b)
  }

  // ----- what the bindings tell the engine -----

  /** What the bindings visited so far asked for, and the histories by then. */
  datatype Telling = Telling(
    histories: Histories,
    lastId: nat,
    fire: seq<Action>,
    swallow: bool,
    masks: bool,
    timers: seq<TimerRequest>,
    codes: seq<Vk>)

  ghost function TellSequence(s: Telling, b: Binding, press: KeyDown, now: nat, generation: nat): Telling
    requires b.kind.Sequence?
  {
    var f := Sequences.SequenceFeed(press.held, b.action, b.kind.steps, b.kind.maxGap, now, s.lastId + 1);
    var fed := s.(histories := s.histories.(sequences := s.histories.sequences + [f]), lastId := f.id);
    match SM.React(SM.ProgressOn(s.histories.sequences, f.steps), f).1
    case NotMatching => fed
    case Advanced(due) =>
      fed.(swallow := true, timers := s.timers + [TimerRequest(TimerToken(generation, SequenceSlot, f.id), due)])
    case Finished(action, codes) => fed.(swallow := true, fire := s.fire + [action], codes := s.codes + codes)
  }

  ghost function TellChord(s: Telling, b: Binding, press: KeyDown, now: nat, generation: nat): Telling
    requires b.kind.Chord?
  {
    var f := Chords.ChordFeed(press.vk, b.action, b.kind.keys, b.kind.window, now, s.lastId + 1);
    var fed := s.(histories := s.histories.(chords := s.histories.chords + [f]), lastId := f.id);
    match CM.React(CM.GatheredOn(s.histories.chords, f.chordKeys), f).1
    case NotInChord => fed
    case Pending => fed.(swallow := true)
    case Started(due) =>
      fed.(swallow := true, timers := s.timers + [TimerRequest(TimerToken(generation, ChordSlot, f.id), due)])
    case Completed(action, codes) => fed.(swallow := true, fire := s.fire + [action], codes := s.codes + codes)
  }

  /** One binding: the winner and the blockers speak for themselves, a sequence
      or chord whose `when:` holds says what its machine says. */
  ghost function TellOne(s: Telling, bindings: seq<Binding>, i: nat, winner: Option<nat>, press: KeyDown, env: Env, generation: nat): Telling
    requires i < |bindings| && IsElected(bindings, winner)
  {
    var b := bindings[i];
    match b.kind
    case Combo(_) =>
      var own := if winner == Some(i) then Immediately(bindings, i, winner) else None;
      s.(fire := s.fire + FiredBy(own, false),
         swallow := s.swallow || IsActing(b, Swallow, press, env) || (own.Some? && own.value.blockDefault),
         masks := s.masks || IsActing(b, MaskOnly, press, env))
    case Sequence(_, _) =>
      if b.condition.Evaluate(env.foreground) then TellSequence(s, b, press, env.now, generation) else s
    case Chord(_, _) =>
      if b.condition.Evaluate(env.foreground) then TellChord(s, b, press, env.now, generation) else s
  }

  /** All of them, in the order of the list. */
  ghost function Tell(s: Telling, bindings: seq<Binding>, i: nat, winner: Option<nat>, press: KeyDown, env: Env, generation: nat): Telling
    requires i <= |bindings| && IsElected(bindings, winner)
    decreases |bindings| - i
  {
    if i == |bindings| then s
    else Tell(TellOne(s, bindings, i, winner, press, env, generation), bindings, i + 1, winner, press, env, generation)
  }

  // ----- the engine does what it is told -----

  /** The turn `t` is the turn `start` with what was told since. */
  ghost predicate Obeys(start: Turn, t: Turn, s: Telling, now: nat) {
    && t.d.fire == start.d.fire + s.fire && t.d.timers == start.d.timers + s.timers
    && t.d.suppress == (start.d.suppress || s.swallow)
    && t.d.mask == (start.d.mask || s.masks) && t.e.maskOwed == (start.e.maskOwed || s.masks)
    && t.e.keys == MarkAll(start.e.keys, s.codes)
    && t.e.gestures == start.e.gestures && t.e.resync == start.e.resync
    && t.e.generation == start.e.generation && t.e.lastId == s.lastId
    && Mirrored(t.e, s.histories, now)
  }

  lemma SequenceObeys(start: Turn, t: Turn, s: Telling, b: Binding, press: KeyDown, now: nat)
    requires b.kind.Sequence? && IsLoadable(b) && Obeys(start, t, s, now)
    ensures Obeys(start, VisitSequence(t, b, press, now), TellSequence(s, b, press, now, start.e.generation), now)
  {
    hide SM.MirrorsAll, CM.MirrorsAll, SM.React, SM.ProgressOn, Sequences.FeedSequence, MarkAll, SR.Loadable;
    var f := SequenceFeedOf(t, b, press, now);
    var r := SR.SequenceRun(t.e.sequences, s.histories.sequences);
    SM.FeedMirrors(r, f);
    var outcome := Sequences.FeedSequence(t.e.sequences, f).1;
    if outcome.Finished? {
      MaskExactly.MarkAllMore(start.e.keys, s.codes, outcome.lastStepKeys);
    }
  }

  lemma ChordObeys(start: Turn, t: Turn, s: Telling, b: Binding, press: KeyDown, now: nat)
    requires b.kind.Chord? && IsLoadable(b) && Obeys(start, t, s, now)
    ensures Obeys(start, VisitChord(t, b, press, now), TellChord(s, b, press, now, start.e.generation), now)
  {
    hide SM.MirrorsAll, CM.MirrorsAll, CM.React, CM.GatheredOn, Chords.FeedChord, MarkAll, CR.Loadable;
    var f := ChordFeedOf(t, b, press, now);
    var r := CR.ChordRun(t.e.chords, s.histories.chords);
    CM.FeedMirrors(r, f);
    var outcome := Chords.FeedChord(t.e.chords, f).1;
    if outcome.Completed? {
      MaskExactly.MarkAllMore(start.e.keys, s.codes, outcome.keys);
    }
  }

  lemma ComboObeys(start: Turn, t: Turn, s: Telling, bindings: seq<Binding>, i: nat, winner: Option<nat>, press: KeyDown, env: Env)
    requires i < |bindings| && IsElected(bindings, winner) && bindings[i].kind.Combo?
    requires Obeys(start, t, s, env.now)
    ensures Obeys(start, VisitBinding(t, bindings, i, winner, false, press, env),
                  TellOne(s, bindings, i, winner, press, env, start.e.generation), env.now)
  {
    hide SM.MirrorsAll, CM.MirrorsAll, Matching.BlockerMatches, Matching.ComboMatches, MarkAll;
  }

  lemma {:induction false} VisitsObey(start: Turn, t: Turn, s: Telling, bindings: seq<Binding>, i: nat, winner: Option<nat>, press: KeyDown, env: Env)
    requires i <= |bindings| && IsElected(bindings, winner) && AllLoadable(bindings)
    requires Obeys(start, t, s, env.now)
    ensures Obeys(start, VisitFrom(t, bindings, i, winner, false, press, env),
                  Tell(s, bindings, i, winner, press, env, start.e.generation), env.now)
    decreases |bindings| - i
  {
    hide Obeys, IsLoadable, VisitSequence, VisitChord, TellSequence, TellChord, VisitBlocker, VisitWinner, IsActing;
    if i < |bindings| {
      var b := bindings[i];
      assert b in bindings;
      match b.kind {
        case Combo(_) => ComboObeys(start, t, s, bindings, i, winner, press, env);
        case Sequence(_, _) => if b.condition.Evaluate(env.foreground) { SequenceObeys(start, t, s, b, press, env.now); }
        case Chord(_, _) => if b.condition.Evaluate(env.foreground) { ChordObeys(start, t, s, b, press, env.now); }
      }
      VisitsObey(start, VisitBinding(t, bindings, i, winner, false, press, env),
                 TellOne(s, bindings, i, winner, press, env, start.e.generation), bindings, i + 1, winner, press, env);
    }
  }

  /** A first key-down with any loadable bindings, in an engine whose tables
      mirror the machines. It fires the waiting Taps of other keys it ends,
      what its own press resolves, and then in file order the immediate winner
      and each sequence and chord that its own machine completes. It is
      swallowed iff one of these, a blocker or the armed group asks. The keys
      of what is completed are marked, and the tables mirror the machines
      afterwards. */
  lemma FirstKeyDownByMachines(e: EngineState, h: Histories, vk: Vk, bindings: seq<Binding>, env: Env)
    requires !e.keys.Active(vk) && AllLoadable(bindings) && Mirrored(e, h, env.now)
    ensures var held := e.keys.Press(vk);
            var press := KeyDown(vk, held.active, env.foreground);
            var winner := ElectOf(bindings, press);
            var group := GroupOf(bindings, winner, press);
            var kept := e.gestures.(presses := Kept(e.gestures.presses, vk, held, env.now));
            var pressed := PressOf(kept, vk, group, env.now, e.lastId + 1);
            var t := EngineStates.OnKeyDown(e, vk, bindings, env);
            && IsElected(bindings, winner)
            && var told := Tell(Telling(h, e.lastId + 1, [], false, false, [], []), bindings, 0, winner, press, env, e.generation);
               && t.d.fire == EndedTaps(e.gestures.presses, vk, held, env.now) + pressed.fired + told.fire
               && t.d.suppress == ((group.Some? && group.value.block) || told.swallow)
               && t.d.timers == (if pressed.holdDue.Some? then [e.Request(GestureSlot(vk), e.lastId + 1, pressed.holdDue.value)] else []) + told.timers
               && t.e.gestures == pressed.table
               && t.e.maskOwed == (e.maskOwed || told.masks)
               && t.e.keys == MarkAll(held, told.codes).WithRecord(vk, if t.d.suppress then Suppressed else Passed)
               && Mirrored(t.e, told.histories, env.now)
  {
    hide PressOf, Kept, EndedTaps, ElectOf, GroupOf, Tell, VisitFrom, Mirrored, IsElected, MarkAll, KeyTable.AltOrWinDownInWindows;
    var held := e.(keys := e.keys.Press(vk));
    var press := KeyDown(vk, held.keys.active, env.foreground);
    var winner := ElectOf(bindings, press);
    ElectionElects(bindings, press);
    var start := ArmGroup(held, GroupOf(bindings, winner, press), vk, env.now);
    var s := Telling(h, e.lastId + 1, [], false, false, [], []);
    MarkNothing(start.e.keys);
    MirroredTables(e, start.e, h, env.now);
    assert start.d.fire + s.fire == start.d.fire && start.d.timers + s.timers == start.d.timers;
    VisitsObey(start, start, s, bindings, 0, winner, press, env);
    MirroredTables(VisitFrom(start, bindings, 0, winner, false, press, env).e, EngineStates.OnKeyDown(e, vk, bindings, env).e,
                   Tell(s, bindings, 0, winner, press, env, e.generation).histories, env.now);
  }

  lemma MarkNothing(k: KeyTable)
    ensures MarkAll(k, []) == k
  {}

  /** Only the two tables matter. */
  lemma MirroredTables(e: EngineState, e': EngineState, h: Histories, now: nat)
    ensures e'.chords == e.chords && e'.sequences == e.sequences && Mirrored(e, h, now) ==> Mirrored(e', h, now)
  {}

  // ----- every run keeps the mirror -----

  datatype TimedOp = At(op: EngineOp, now: nat)

  /** Time does not run backwards, the bindings are loadable, and a timer comes
      at its entry's deadline or later. */
  ghost predicate IsInTime(e: EngineState, op: TimedOp, now: nat) {
    && now <= op.now
    && (op.op.KeyOp? ==> op.op.env.now == op.now && AllLoadable(op.op.bindings))
    && (op.op.TimerOp? ==> forall due: nat :: EngineFacts.IsWaiting(e, TimerRequest(op.op.token, due)) ==> due <= op.now)
  }

  ghost predicate InTime(e: EngineState, ops: seq<TimedOp>, now: nat)
    decreases |ops|
  {
    ops == [] || (IsInTime(e, ops[0], now) && InTime(Step(e, ops[0].op).e, ops[1..], ops[0].now))
  }

  /** The histories after a step: a reset forgets them, and a first key-down
      adds what it feeds. */
  ghost function HistoriesAfter(e: EngineState, h: Histories, op: EngineOp): Histories {
    match op
    case KeyOp(event, bindings, env) =>
      var held := e.keys.ClearReleased(env.keyDown, event.vk, ALL);
      if event.direction.Up? || held.Active(event.vk) then h
      else
        var press := KeyDown(event.vk, held.Press(event.vk).active, env.foreground);
        var winner := ElectOf(bindings, press);
        if !IsElected(bindings, winner) then h
        else Tell(Telling(h, e.lastId + 1, [], false, false, [], []), bindings, 0, winner, press, env, e.generation).histories
    case ResetOp(_, _) => NoHistories
    case _ => h
  }

  ghost function RunTimed(e: EngineState, h: Histories, ops: seq<TimedOp>): (EngineState, Histories)
    decreases |ops|
  {
    if ops == [] then (e, h) else RunTimed(Step(e, ops[0].op).e, HistoriesAfter(e, h, ops[0].op), ops[1..])
  }

  lemma LaterMirrored(e: EngineState, h: Histories, now: nat, later: nat)
    requires Mirrored(e, h, now) && now <= later
    ensures Mirrored(e, h, later)
  {
    hide SM.MirrorsAll, CM.MirrorsAll;
    SM.LaterMirrorsAll(SR.SequenceRun(e.sequences, h.sequences), now, later);
    CM.LaterMirrorsAll(CR.ChordRun(e.chords, h.chords), now, later);
  }

  lemma KeyMirrors(e: EngineState, h: Histories, event: KeyEvent, bindings: seq<Binding>, env: Env)
    requires Mirrored(e, h, env.now) && AllLoadable(bindings)
    ensures var op := KeyOp(event, bindings, env); Mirrored(Step(e, op).e, HistoriesAfter(e, h, op), env.now)
  {
    hide Mirrored, Tell, AllLoadable, ElectOf, GroupOf, MarkAll, PressOf, Kept, EndedTaps, EngineStates.OnKeyDown, ResolvePress, KeyTable.ClearReleased;
    var op := KeyOp(event, bindings, env);
    match event.direction
    case Up =>
      KeyUpLeavesTables(e, event.vk, bindings, env);
      MirroredTables(e, Step(e, op).e, h, env.now);
    case Down =>
      var e1 := e.(maskOwed := false, resync := e.resync.Event(event.vk, true), keys := e.keys.ClearReleased(env.keyDown, event.vk, ALL));
      MirroredTables(e, e1, h, env.now);
      if e1.keys.Active(event.vk) {
        RepeatsOnlyRepeat(e1, event.vk, bindings, env);
        MirroredTables(e1, Step(e, op).e, h, env.now);
      } else {
        FirstKeyDownByMachines(e1, h, event.vk, bindings, env);
        MirroredTables(EngineStates.OnKeyDown(e1, event.vk, bindings, env).e, Step(e, op).e, HistoriesAfter(e, h, op), env.now);
      }
  }

  lemma KeyUpLeavesTables(e: EngineState, vk: Vk, bindings: seq<Binding>, env: Env)
    ensures var e' := Step(e, KeyOp(KeyEvent(vk, Up), bindings, env)).e; e'.chords == e.chords && e'.sequences == e.sequences
  {
    hide ReleaseOf, KeyTable.ClearReleased, KeyTable.AltOrWinDownInWindows;
  }

  lemma TimerMirrors(e: EngineState, h: Histories, token: TimerToken, now: nat)
    requires Mirrored(e, h, now)
    requires forall due: nat :: EngineFacts.IsWaiting(e, TimerRequest(token, due)) ==> due <= now
    ensures Mirrored(OnTimer(e, token).e, h, now)
  {
    hide SM.MirrorsAll, CM.MirrorsAll, TimerOf;
    if token.generation == e.generation {
      match token.slot
      case GestureSlot(vk) =>
      case ChordSlot =>
        forall p | p in e.chords && p.id == token.id ensures p.expiresAt <= now {
          assert EngineFacts.IsWaiting(e, TimerRequest(token, p.expiresAt));
        }
        CM.TimerMirrors(CR.ChordRun(e.chords, h.chords), token.id, now);
      case SequenceSlot =>
        forall p | p in e.sequences && p.id == token.id ensures p.expiresAt <= now {
          assert EngineFacts.IsWaiting(e, TimerRequest(token, p.expiresAt));
        }
        SM.TimerMirrors(SR.SequenceRun(e.sequences, h.sequences), token.id, now);
    }
  }

  lemma NothingMirrored(e: EngineState, now: nat)
    requires e.chords == [] && e.sequences == []
    ensures Mirrored(e, NoHistories, now)
  {}

  lemma StepMirrors(e: EngineState, h: Histories, op: TimedOp, now: nat)
    requires Mirrored(e, h, now) && IsInTime(e, op, now)
    ensures Mirrored(Step(e, op.op).e, HistoriesAfter(e, h, op.op), op.now)
  {
    hide Mirrored, AllLoadable, OnKey, OnTimer;
    LaterMirrored(e, h, now, op.now);
    match op.op
    case KeyOp(event, bindings, env) => KeyMirrors(e, h, event, bindings, env);
    case TimerOp(token) => TimerMirrors(e, h, token, op.now);
    case ResetOp(reason, env) => NothingMirrored(Step(e, op.op).e, op.now);
    case _ => MirroredTables(e, Step(e, op.op).e, h, op.now);
  }

  function EndOf(ops: seq<TimedOp>, now: nat): nat {
    if ops == [] then now else EndOf(ops[1..], ops[0].now)
  }

  lemma {:induction false} RunMirrors(e: EngineState, h: Histories, ops: seq<TimedOp>, now: nat)
    requires Mirrored(e, h, now) && InTime(e, ops, now)
    ensures var (e', h') := RunTimed(e, h, ops); Mirrored(e', h', EndOf(ops, now))
    decreases |ops|
  {
    hide Mirrored, Step, HistoriesAfter, IsInTime;
    if ops != [] {
      StepMirrors(e, h, ops[0], now);
      RunMirrors(Step(e, ops[0].op).e, HistoriesAfter(e, h, ops[0].op), ops[1..], ops[0].now);
    }
  }

  /** In every run of the engine in time order, across key events, timers
      handed back or refused, resets and drains, the tables mirror one machine
      for each sequence and chord; so each first key-down of the run is as
      `FirstKeyDownByMachines` says. */
  lemma EveryRunMirrorsItsMachines(ops: seq<TimedOp>)
    requires InTime(NewEngine, ops, 0)
    ensures var (e, h) := RunTimed(NewEngine, NoHistories, ops); Mirrored(e, h, EndOf(ops, 0))
  {
    hide Mirrored;
    NothingMirrored(NewEngine, 0);
    RunMirrors(NewEngine, NoHistories, ops, 0);
  }
}
