/** Conservation of presses in runs of the engine, whose steps are gesture operations. */
module GestureMarks {
  import opened Options
  import opened Modifiers
  import opened Bindings
  import opened KeyTables
  import opened Winners
  import opened Seqs
  import opened GestureTables
  import opened GestureFacts
  import opened GestureFates
  import opened PlainGestures
  import opened RipeGestures
  import opened Timers
  import opened EngineStates
  import EngineFacts
  import ChordTables
  import SequenceTables

  // ----- the engine's steps -----

  /** The gesture operations of one step of the engine, in order. */
  function GestureOpsOf(e: EngineState, op: EngineOp): seq<GestureOp<Action>> {
    match op
    case KeyOp(event, bindings, env) =>
      if event.direction.Up? then
        [Releasing(event.vk, env.now, e.keys.IsPassed(event.vk), e.lastId + 1)]
      else
        var checked := e.keys.ClearReleased(env.keyDown, event.vk, ALL);
        if checked.Active(event.vk) then []
        else
          var held := checked.Press(event.vk);
          var press := KeyDown(event.vk, held.active, env.foreground);
          var group := GroupOf(bindings, ElectOf(bindings, press), press);
          [OtherKey(event.vk, held, env.now), Pressing(event.vk, group, env.now, e.lastId + 1)]
    case TimerOp(token) =>
      if token.generation == e.generation && token.slot.GestureSlot? then [TimerRuns(token.slot.vk, token.id)] else []
    case ForgetOp(token) =>
      if token.generation == e.generation && token.slot.GestureSlot? then [TimerRefused(token.slot.vk, token.id)] else []
    case ResetOp(_, _) => [Clearing]
    case _ => []
  }

  function ApplyAll<A>(g: GestureTable<A>, ops: seq<GestureOp<A>>): (GestureTable<A>, seq<A>)
    decreases |ops|
  {
    if ops == [] then (g, [])
    else
      var (table, fired) := Apply(g, ops[0]);
      var (end, rest) := ApplyAll(table, ops[1..]);
      (end, fired + rest)
  }

  /** What the gestures fire in a step. */
  function GesturesFire(e: EngineState, op: EngineOp): seq<Action> {
    ApplyAll(e.gestures, GestureOpsOf(e, op)).1
  }

  ghost predicate StartsWith(whole: seq<Action>, part: seq<Action>) {
    |part| <= |whole| && whole[..|part|] == part
  }

  lemma {:induction false} VisitFromAppends(t: Turn, bindings: seq<Binding>, i: nat, winner: Option<nat>, wasRepeat: bool, press: KeyDown, env: Env)
    requires i <= |bindings| && (winner.Some? ==> winner.value < |bindings|)
    ensures StartsWith(VisitFrom(t, bindings, i, winner, wasRepeat, press, env).d.fire, t.d.fire)
    ensures t.e.lastId <= VisitFrom(t, bindings, i, winner, wasRepeat, press, env).e.lastId
    decreases |bindings| - i
  {
    hide VisitBinding;
    if i < |bindings| {
      VisitAppends(t, bindings, i, winner, wasRepeat, press, env);
      VisitFromAppends(VisitBinding(t, bindings, i, winner, wasRepeat, press, env), bindings, i + 1, winner, wasRepeat, press, env);
    }
  }

  lemma VisitAppends(t: Turn, bindings: seq<Binding>, i: nat, winner: Option<nat>, wasRepeat: bool, press: KeyDown, env: Env)
    requires i < |bindings| && (winner.Some? ==> winner.value < |bindings|)
    ensures StartsWith(VisitBinding(t, bindings, i, winner, wasRepeat, press, env).d.fire, t.d.fire)
    ensures t.e.lastId <= VisitBinding(t, bindings, i, winner, wasRepeat, press, env).e.lastId
  {
    hide SequenceTables.FeedSequence, ChordTables.FeedChord;
  }

  lemma ApplyOne<A>(g: GestureTable<A>, op: GestureOp<A>)
    ensures ApplyAll(g, [op]) == Apply(g, op)
  {
    hide Apply;
    assert [op][1..] == [];
    assert ApplyAll(Apply(g, op).0, [op][1..]) == (Apply(g, op).0, []);
    assert Apply(g, op).1 + [] == Apply(g, op).1;
  }

  lemma ApplyTwo<A>(g: GestureTable<A>, a: GestureOp<A>, b: GestureOp<A>)
    ensures var (table, fired) := Apply(g, a);
            ApplyAll(g, [a, b]) == (Apply(table, b).0, fired + Apply(table, b).1)
  {
    hide Apply;
    assert [a, b][1..] == [b];
    ApplyOne(Apply(g, a).0, b);
  }

  /** The step takes an arming number for a gesture. */
  predicate Numbers(e: EngineState, op: EngineOp) {
    op.KeyOp? && GestureOpsOf(e, op) != []
  }

  /** A step changes the gestures by exactly its operations, and what these fire
      is fired first. */
  lemma StepIsGestureOps(e: EngineState, op: EngineOp)
    ensures ApplyAll(e.gestures, GestureOpsOf(e, op)).0 == Step(e, op).e.gestures
    ensures StartsWith(Step(e, op).d.fire, GesturesFire(e, op))
    ensures e.lastId + (if Numbers(e, op) then 1 else 0) <= Step(e, op).e.lastId
    ensures !op.KeyOp? || op.event.direction.Up? ==> Step(e, op).d.fire == GesturesFire(e, op)
  {
    hide PressOf, ReleaseOf, TimerOf, ForgetOf, Kept, EndedTaps, ElectOf, GroupOf, OnKey, KeyTable.ClearReleased;
    match op
    case KeyOp(event, bindings, env) =>
      if event.direction.Up? {
        UpIsGestureOps(e, event.vk, bindings, env);
      } else {
        DownIsGestureOps(e, event.vk, bindings, env);
      }
    case TimerOp(token) =>
      if token.generation == e.generation && token.slot.GestureSlot? {
        ApplyOne(e.gestures, TimerRuns(token.slot.vk, token.id));
      }
    case ForgetOp(token) =>
      if token.generation == e.generation && token.slot.GestureSlot? {
        ApplyOne(e.gestures, TimerRefused(token.slot.vk, token.id));
      }
    case ResetOp(reason, env) => ApplyOne(e.gestures, Clearing);
    case _ =>
  }

  lemma UpIsGestureOps(e: EngineState, vk: Vk, bindings: seq<Binding>, env: Env)
    ensures var op := KeyOp(KeyEvent(vk, Up), bindings, env);
            && ApplyAll(e.gestures, GestureOpsOf(e, op)) == (Step(e, op).e.gestures, Step(e, op).d.fire)
            && Step(e, op).e.lastId == e.lastId + 1
  {
    hide ReleaseOf, KeyTable.ClearReleased, KeyTable.AltOrWinDownInWindows;
    ApplyOne(e.gestures, Releasing(vk, env.now, e.keys.IsPassed(vk), e.lastId + 1));
  }

  lemma DownIsGestureOps(e: EngineState, vk: Vk, bindings: seq<Binding>, env: Env)
    ensures var op := KeyOp(KeyEvent(vk, Down), bindings, env);
            && ApplyAll(e.gestures, GestureOpsOf(e, op)).0 == Step(e, op).e.gestures
            && StartsWith(Step(e, op).d.fire, GesturesFire(e, op))
            && e.lastId + (if Numbers(e, op) then 1 else 0) <= Step(e, op).e.lastId
  {
    hide PressOf, Kept, EndedTaps, ElectOf, GroupOf, VisitFrom, KeyTable.ClearReleased, RecordDown, MaskIfSwallowed;
    var e1 := e.(maskOwed := false, resync := e.resync.Event(vk, true), keys := e.keys.ClearReleased(env.keyDown, vk, ALL));
    var held := e1.(keys := e1.keys.Press(vk));
    var press := KeyDown(vk, held.keys.active, env.foreground);
    var winner, wasRepeat := ElectOf(bindings, press), e1.keys.Active(vk);
    var group := GroupOf(bindings, winner, press);
    var start := if wasRepeat then Turn(held, Nothing) else ArmGroup(held, group, vk, env.now);
    if !wasRepeat {
      ApplyTwo(e.gestures, OtherKey(vk, held.keys, env.now), Pressing(vk, group, env.now, e.lastId + 1));
    }
    EngineFacts.VisitFromMarksOnly(start, bindings, 0, winner, wasRepeat, press, env);
    VisitFromAppends(start, bindings, 0, winner, wasRepeat, press, env);
    RecordingFiresNothing(VisitFrom(start, bindings, 0, winner, wasRepeat, press, env), vk, wasRepeat);
  }

  lemma RecordingFiresNothing(t: Turn, vk: Vk, wasRepeat: bool)
    ensures var t' := MaskIfSwallowed(RecordDown(t, vk, wasRepeat));
            t'.d.fire == t.d.fire && t'.e.gestures == t.e.gestures && t'.e.lastId == t.e.lastId
  {}

  // ----- whole runs of the engine -----

  function GestureRun(e: EngineState, ops: seq<EngineOp>): seq<GestureOp<Action>>
    decreases |ops|
  {
    if ops == [] then [] else GestureOpsOf(e, ops[0]) + GestureRun(Step(e, ops[0]).e, ops[1..])
  }

  /** What the gestures fire in a run, step by step the first that is fired. */
  function GesturesFired(e: EngineState, ops: seq<EngineOp>): seq<Action>
    decreases |ops|
  {
    if ops == [] then [] else GesturesFire(e, ops[0]) + GesturesFired(Step(e, ops[0]).e, ops[1..])
  }

  lemma {:induction false} ApplyAllConcat<A>(g: GestureTable<A>, a: seq<GestureOp<A>>, b: seq<GestureOp<A>>)
    ensures var (table, fired) := ApplyAll(g, a);
            ApplyAll(g, a + b) == (ApplyAll(table, b).0, fired + ApplyAll(table, b).1)
    decreases |a|
  {
    hide Apply;
    if a == [] {
      assert a + b == b;
      assert [] + ApplyAll(g, b).1 == ApplyAll(g, b).1;
    } else {
      assert (a + b)[0] == a[0] && (a + b)[1..] == a[1..] + b;
      var table := Apply(g, a[0]).0;
      ApplyAllConcat(table, a[1..], b);
      Regroup(Apply(g, a[0]).1, ApplyAll(table, a[1..]).1, ApplyAll(ApplyAll(table, a[1..]).0, b).1);
    }
  }

  lemma {:induction false} RunIsGestureRun(e: EngineState, ops: seq<EngineOp>)
    ensures ApplyAll(e.gestures, GestureRun(e, ops)) == (RunOps(e, ops).gestures, GesturesFired(e, ops))
    decreases |ops|
  {
    hide Apply, Step, GestureOpsOf;
    if ops != [] {
      StepIsGestureOps(e, ops[0]);
      RunIsGestureRun(Step(e, ops[0]).e, ops[1..]);
      ApplyAllConcat(e.gestures, GestureOpsOf(e, ops[0]), GestureRun(Step(e, ops[0]).e, ops[1..]));
    }
  }

  // ----- marking a run -----

  function MarkGesture<A>(t: Option<Gesture<A>>, n: nat): Option<Gesture<Tagged<A>>> {
    if t.Some? then Some(Gesture(t.value.term, Tagged(n, t.value.action))) else None
  }

  function MarkGroup<A>(group: Option<GroupArming<A>>, n: nat): Option<GroupArming<Tagged<A>>> {
    if group.None? then None
    else
      var g := group.value;
      Some(GroupArming(g.keys, g.condition, MarkGesture(g.tap, n), MarkGesture(g.hold, n), MarkGesture(g.doubleTap, n), g.block))
  }

  /** Each press's gestures get its number. */
  function Mark<A>(op: GestureOp<A>): GestureOp<Tagged<A>> {
    match op
    case Pressing(vk, group, now, id) => Pressing(vk, MarkGroup(group, id), now, id)
    case Releasing(vk, now, passed, id) => Releasing(vk, now, passed, id)
    case OtherKey(vk, keys, now) => OtherKey(vk, keys, now)
    case TimerRuns(vk, id) => TimerRuns(vk, id)
    case TimerRefused(vk, id) => TimerRefused(vk, id)
    case Clearing => Clearing
  }

  function MarkAllOps<A>(ops: seq<GestureOp<A>>): seq<GestureOp<Tagged<A>>> {
    if ops == [] then [] else [Mark(ops[0])] + MarkAllOps(ops[1..])
  }

  lemma MarkIsPlain<A>(op: GestureOp<A>)
    ensures PlainOp(Mark(op)) == op
  {}

  /** The books of a marked run, with the marks rubbed out, are the run. */
  lemma {:induction false} MarkedRunIsTheRun<A>(l: Ledger<A>, ops: seq<GestureOp<A>>)
    ensures var end := Books(l, MarkAllOps(ops));
            var (table, fired) := ApplyAll(PlainTable(l.table), ops);
            PlainTable(end.table) == table && PlainActions(end.fired) == PlainActions(l.fired) + fired
    decreases |ops|
  {
    hide Apply, Mark, PlainOp, PlainPresses, PlainHolds, PlainActions, DroppedArms, ArmedArms;
    if ops != [] {
      var op := Mark(ops[0]);
      MarkIsPlain(ops[0]);
      PlainApply(l.table, op);
      PlainActionsConcat(l.fired, Apply(l.table, op).1);
      MarkedRunIsTheRun(Book(l, op), ops[1..]);
      assert MarkAllOps(ops)[1..] == MarkAllOps(ops[1..]);
    }
  }

  lemma {:induction false} NumberedConcat<A>(a: seq<GestureOp<Tagged<A>>>, b: seq<GestureOp<Tagged<A>>>, lastId: nat)
    requires NumberedRun(a, lastId) && NumberedRun(b, NumberAfter(a, lastId))
    ensures NumberedRun(a + b, lastId)
  {
    hide Numbered;
    if a == [] {
      assert a + b == b;
    } else {
      assert (a + b)[1..] == a[1..] + b;
      NumberedConcat(a[1..], b, NumberOf(a[0], lastId));
    }
  }

  lemma {:induction false} MarkConcat<A>(a: seq<GestureOp<A>>, b: seq<GestureOp<A>>)
    ensures MarkAllOps(a + b) == MarkAllOps(a) + MarkAllOps(b)
  {
    hide Mark;
    if a == [] {
      assert a + b == b;
    } else {
      assert (a + b)[1..] == a[1..] + b;
      MarkConcat(a[1..], b);
    }
  }

  lemma NumberedOne<A>(op: GestureOp<Tagged<A>>, lastId: nat)
    requires Numbered(op, lastId)
    ensures NumberedRun([op], lastId) && NumberAfter([op], lastId) == NumberOf(op, lastId)
  {
    hide Numbered;
    assert [op][1..] == [];
  }

  lemma NumberedTwo<A>(a: GestureOp<Tagged<A>>, b: GestureOp<Tagged<A>>, lastId: nat)
    requires Numbered(a, lastId) && Numbered(b, NumberOf(a, lastId))
    ensures NumberedRun([a, b], lastId) && NumberAfter([a, b], lastId) == NumberOf(b, NumberOf(a, lastId))
  {
    hide Numbered;
    assert [a, b][1..] == [b];
    NumberedOne(b, NumberOf(a, lastId));
  }

  lemma MarkFew<A>(a: GestureOp<A>, b: GestureOp<A>)
    ensures MarkAllOps([a]) == [Mark(a)] && MarkAllOps([a, b]) == [Mark(a), Mark(b)]
  {
    hide Mark;
    assert [a][1..] == [] && [a, b][1..] == [b];
    assert MarkAllOps([a]) == [Mark(a)] + MarkAllOps([a][1..]);
    assert MarkAllOps([b]) == [Mark(b)] + MarkAllOps([b][1..]);
    assert MarkAllOps([a, b]) == [Mark(a)] + MarkAllOps([a, b][1..]);
  }

  /** A step's presses and key-ups take numbers the engine has not used. */
  lemma StepIsNumbered(e: EngineState, op: EngineOp, lastId: nat)
    requires lastId <= e.lastId
    ensures var ops := MarkAllOps(GestureOpsOf(e, op));
            NumberedRun(ops, lastId) && NumberAfter(ops, lastId) <= e.lastId + if Numbers(e, op) then 1 else 0
  {
    hide ElectOf, GroupOf, KeyTable.ClearReleased, MarkAllOps;
    var plain := GestureOpsOf(e, op);
    if |plain| == 2 {
      MarkFew(plain[0], plain[1]);
      NumberedTwo(Mark(plain[0]), Mark(plain[1]), lastId);
      assert plain == [plain[0], plain[1]];
    } else if plain != [] {
      MarkFew(plain[0], plain[0]);
      NumberedOne(Mark(plain[0]), lastId);
      assert plain == [plain[0]];
    } else {
      MarkNone<Action>();
    }
  }

  lemma MarkNone<A>()
    ensures MarkAllOps<A>([]) == []
  {}

  lemma {:induction false} RunIsNumbered(e: EngineState, ops: seq<EngineOp>, lastId: nat)
    requires lastId <= e.lastId
    ensures NumberedRun(MarkAllOps(GestureRun(e, ops)), lastId)
    decreases |ops|
  {
    hide Step, GestureOpsOf, Numbered, Mark;
    if ops != [] {
      var first := GestureOpsOf(e, ops[0]);
      StepIsGestureOps(e, ops[0]);
      StepIsNumbered(e, ops[0], lastId);
      RunIsNumbered(Step(e, ops[0]).e, ops[1..], NumberAfter(MarkAllOps(first), lastId));
      MarkConcat(first, GestureRun(Step(e, ops[0]).e, ops[1..]));
      NumberedConcat(MarkAllOps(first), MarkAllOps(GestureRun(Step(e, ops[0]).e, ops[1..])), lastId);
    }
  }

  /** In every run of the engine, of key events, timers handed back or refused,
      resets and drains: the engine's gestures are those of the books, what
      they fired is what the books say, and each arming, numbered as its press
      is, is exactly one of fired once, dropped once and still pending. No key
      has two pending presses. */
  lemma EngineArmingsEndOnce(ops: seq<EngineOp>, n: nat)
    ensures var books := Books(NewLedger<Action>(), MarkAllOps(GestureRun(NewEngine, ops)));
            && PlainTable(books.table) == RunOps(NewEngine, ops).gestures
            && PlainActions(books.fired) == GesturesFired(NewEngine, ops)
            && Count(FiredArms(books.fired), n) + Count(books.dropped, n) + Pending(books.table, n) == (if n in books.armed then 1 else 0)
            && DistinctPresses(books.table.presses)
  {
    hide Step, Books, GestureRun, GesturesFired, MarkAllOps, NumberedRun;
    var run := GestureRun(NewEngine, ops);
    RunIsGestureRun(NewEngine, ops);
    RunIsNumbered(NewEngine, ops, 0);
    MarkedRunIsTheRun(NewLedger<Action>(), run);
    EveryPressEndsOnce(MarkAllOps(run), n);
    PlainNothing<Action>();
  }
}
