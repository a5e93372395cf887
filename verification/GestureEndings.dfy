/** When another key ends a pending gesture, told by records and times. */
module GestureEndings {
  import opened Options
  import opened Modifiers
  import opened KeySpecs
  import opened Conditions
  import opened Bindings
  import opened KeyTables
  import opened Winners
  import opened GestureTables
  import opened GestureFacts
  import opened GestureFates
  import opened GestureTimeline
  import opened GestureMarks
  import opened Timers
  import opened EngineStates
  import EngineFacts

  /** A press outlives the first key-down of another key with `code` at `now`,
      where `record` is what became of its own key-down. While its key is held
      only a press that passed is ended, and not once its Hold is due. A press
      that waits for its second outlives a key of its own group, and any key if
      it was swallowed and no Tap waits with it. */
  predicate Outlives<A>(phase: Phase<A>, code: Vk, record: LastDown, now: nat) {
    match phase
    case Held(_, hold, _) => record != Passed || (hold.Some? && hold.value.due <= now)
    case AwaitSecond(window, tap, passed) =>
      (exists key :: key in window.group.keys.keys && key.Accepts(code)) || (tap.None? && !passed)
  }

  /** The Taps that wait with presses of other keys the key-down of `code` ends. */
  function TapsLetGo<A>(ps: seq<Press<A>>, code: Vk, keys: KeyTable, now: nat): seq<A> {
    if ps == [] then []
    else
      var p := ps[0];
      (if p.phase.AwaitSecond? && p.phase.deferredTap.Some? && p.vk != code && !Outlives(p.phase, code, keys.Record(p.vk), now)
       then [p.phase.deferredTap.value] else [])
      + TapsLetGo(ps[1..], code, keys, now)
  }

  lemma {:induction false} EndedTapsAreLetGo<A>(ps: seq<Press<A>>, code: Vk, keys: KeyTable, now: nat)
    ensures EndedTaps(ps, code, keys, now) == TapsLetGo(ps, code, keys, now)
  {
    if ps != [] {
      EndedTapsAreLetGo(ps[1..], code, keys, now);
    }
  }

  lemma {:induction false} TapsLetGoByRecords<A>(ps: seq<Press<A>>, code: Vk, k: KeyTable, k': KeyTable, now: nat)
    requires k.last == k'.last
    ensures TapsLetGo(ps, code, k, now) == TapsLetGo(ps, code, k', now)
  {
    if ps != [] {
      TapsLetGoByRecords(ps[1..], code, k, k', now);
    }
  }

  /** A first key-down of a key ends exactly the presses of other keys that do
      not outlive it, and first of all fires the Taps that waited with them. */
  lemma AnotherKeyEnds(e: EngineState, p: Press<Action>, code: Vk, bindings: seq<Binding>, env: Env)
    requires p.vk != code && !e.keys.Active(code)
    ensures var t := OnKey(e, KeyEvent(code, Down), bindings, env);
            && (p in t.e.gestures.presses <==>
                p in e.gestures.presses && Outlives(p.phase, code, e.keys.Record(p.vk), env.now))
            && StartsWith(t.d.fire, TapsLetGo(e.gestures.presses, code, e.keys, env.now))
  {
    hide PressOf, ElectOf, GroupOf, OnKey, EndedTaps, TapsLetGo, Kept;
    var op := KeyOp(KeyEvent(code, Down), bindings, env);
    DownIsGestureOps(e, code, bindings, env);
    var held := e.keys.ClearReleased(env.keyDown, code, ALL).Press(code);
    var press := KeyDown(code, held.active, env.foreground);
    var group := GroupOf(bindings, ElectOf(bindings, press), press);
    var kept := e.gestures.(presses := Kept(e.gestures.presses, code, held, env.now));
    ApplyTwo(e.gestures, OtherKey(code, held, env.now), Pressing(code, group, env.now, e.lastId + 1));
    KeptMembers(e.gestures.presses, code, held, env.now);
    if p in e.gestures.presses {
      KeptExactly(e.gestures.presses, p, code, held, env.now);
    }
    OthersArePressed(kept, p, code, group, env.now, e.lastId + 1);
    EndedTapsAreLetGo(e.gestures.presses, code, held, env.now);
    TapsLetGoByRecords(e.gestures.presses, code, held, e.keys, env.now);
  }

  lemma OthersArePressed<A>(g: GestureTable<A>, p: Press<A>, vk: Vk, group: Option<GroupArming<A>>, now: nat, id: nat)
    requires p.vk != vk
    ensures p in PressOf(g, vk, group, now, id).table.presses <==> p in g.presses
  {
    hide Find, Without;
    if p in g.presses {
      WithoutLeavesOthers(g.presses, OfKey(vk), p);
    }
  }

  // ----- what a timer ends -----

  /** Its Tap waits for a DoubleTap window that has closed by `at`. */
  predicate ClosedBy<A>(p: Press<A>, at: nat) {
    p.phase.AwaitSecond? && p.phase.deferredTap.Some? && p.phase.window.due <= at
  }

  /** The Taps whose windows have closed, but that of the timer itself. */
  function TapsClosed<A>(ps: seq<Press<A>>, vk: Vk, id: nat, at: nat): seq<A> {
    if ps == [] then []
    else (if ClosedBy(ps[0], at) && !(ps[0].vk == vk && ps[0].id == id) then [ps[0].phase.deferredTap.value] else [])
         + TapsClosed(ps[1..], vk, id, at)
  }

  lemma {:induction false} OpenOnesStay<A>(ps: seq<Press<A>>, at: nat)
    ensures forall q :: q in StillOpen(ps, at) <==> q in ps && !ClosedBy(q, at)
  {
    if ps != [] {
      OpenOnesStay(ps[1..], at);
    }
  }

  lemma {:induction false} ClosedOnesFire<A>(ps: seq<Press<A>>, vk: Vk, id: nat, at: nat)
    requires forall q :: q in ps ==> !(q.vk == vk && q.id == id)
    ensures ClosedTaps(ps, at) == TapsClosed(ps, vk, id, at)
  {
    if ps != [] {
      ClosedOnesFire(ps[1..], vk, id, at);
    }
  }

  lemma {:induction false} OthersFireWithout<A>(ps: seq<Press<A>>, p: Press<A>, at: nat)
    requires DistinctPresses(ps) && Find(ps, WaitingAs(p.vk, p.id)) == Some(p)
    ensures TapsClosed(Without(ps, WaitingAs(p.vk, p.id)), p.vk, p.id, at) == TapsClosed(ps, p.vk, p.id, at)
  {
    if !Fits(WaitingAs(p.vk, p.id), ps[0]) {
      OthersFireWithout(ps[1..], p, at);
      assert Without(ps, WaitingAs(p.vk, p.id))[1..] == Without(ps[1..], WaitingAs(p.vk, p.id));
    }
  }

  /** A timer that some entry waits for ends that entry and every press whose
      Tap waits for a window closed by the timer's due time, and no other; it
      fires these Taps in order and then its own action, last. */
  lemma TimerClosesWindows<A>(g: GestureTable<A>, vk: Vk, id: nat, due: nat, lastId: nat)
    requires TableInv(g, lastId) && IsWait(g, vk, id, due)
    ensures var (table, fired) := TimerOf(g, vk, id);
            && fired != [] && fired[..|fired| - 1] == TapsClosed(g.presses, vk, id, due)
            && (forall q :: q in table.presses <==> q in g.presses && !(q.vk == vk && q.id == id) && !ClosedBy(q, due))
  {
    hide Find, Without, DistinctPresses, DistinctHolds, StillOpen, ClosedTaps, TapsClosed, WithoutHold, ClosedBy;
    if h :| h in g.dueHolds && h.vk == vk && h.id == id && h.due == due {
      OnlyHoldFound(g.dueHolds, h);
      OpenOnesStay(g.presses, due);
      ClosedOnesFire(g.presses, vk, id, due);
    } else {
      var p :| p in g.presses && p.vk == vk && p.id == id && p.phase.TimerDue() == Some(due);
      var want := WaitingAs(vk, id);
      OnlyPressFound(g.presses, want, p);
      NoHoldOfThatNumber(g, p, lastId);
      var rest := Without(g.presses, want);
      forall q | q in g.presses ensures q in rest <==> !(q.vk == vk && q.id == id) {
        if q.vk == vk {
          OnlyPressOfItsKey(g.presses, p, q);
        } else {
          WithoutLeavesTheRest(g.presses, want, q);
        }
      }
      OpenOnesStay(rest, due);
      ClosedOnesFire(rest, vk, id, due);
      OthersFireWithout(g.presses, p, due);
    }
  }

  // ----- a Tap, from its key-down to its key-up -----

  /** A press that waits for its key-up alone: it has a Tap and no Hold. */
  predicate IsTapPress<A>(p: Press<A>) {
    p.phase.Held? && p.phase.tap.Some? && p.phase.hold.None?
  }

  lemma {:induction false} WithoutLeavesTheRest<A>(ps: seq<Press<A>>, want: Want, p: Press<A>)
    requires p in ps && !Fits(want, p)
    ensures p in Without(ps, want)
  {
    if p != ps[0] && !Fits(want, ps[0]) {
      WithoutLeavesTheRest(ps[1..], want, p);
    }
  }

  lemma {:induction false} StillOpenLeavesHeld<A>(ps: seq<Press<A>>, p: Press<A>, now: nat)
    requires p in ps && p.phase.Held?
    ensures p in StillOpen(ps, now)
  {
    if p != ps[0] {
      StillOpenLeavesHeld(ps[1..], p, now);
    }
  }

  lemma {:induction false} ReplacedLeavesTheRest<A>(ps: seq<Press<A>>, want: Want, p: Press<A>, other: Press<A>)
    requires p in ps && (!Fits(want, p) || (Find(ps, want) == Some(p) && other == p))
    ensures p in Replaced(ps, want, other)
  {
    if p != ps[0] && !Fits(want, ps[0]) {
      ReplacedLeavesTheRest(ps[1..], want, p, other);
    }
  }

  lemma {:induction false} ReplacedMembers<A>(ps: seq<Press<A>>, want: Want, other: Press<A>)
    ensures forall q :: q in Replaced(ps, want, other) ==> q in ps || (q == other && exists f :: f in ps && Fits(want, f))
  {
    if ps != [] {
      ReplacedMembers(ps[1..], want, other);
    }
  }

  /** A timer of any key, run or refused, leaves a Tap press as it is. */
  lemma TimersLeaveATap<A>(g: GestureTable<A>, p: Press<A>, vk: Vk, id: nat)
    requires DistinctPresses(g.presses) && p in g.presses && IsTapPress(p)
    ensures p in TimerOf(g, vk, id).0.presses
    ensures p in ForgetOf(g, vk, id).0.presses
  {
    hide Find, Without, StillOpen, Replaced, FindHold, WithoutHold, WithoutHolds;
    WithoutLeavesTheRest(g.presses, WaitingAs(vk, id), p);
    if Resolved(g, vk, id).Some? {
      var (rest, timed) := Resolved(g, vk, id).value;
      StillOpenLeavesHeld(rest.presses, p, timed.due);
    }
    var want := ArmedAs(vk, id);
    if Fits(want, p) {
      OnlyPressFound(g.presses, want, p);
      assert p.(phase := p.phase.(hold := None)) == p;
      ReplacedLeavesTheRest(g.presses, want, p, p);
    } else {
      WithoutLeavesTheRest(g.presses, want, p);
      if Find(g.presses, want).Some? {
        var q := Find(g.presses, want).value;
        ReplacedLeavesTheRest(g.presses, want, p, q.(phase := if q.phase.Held? then q.phase.(hold := None) else q.phase));
      }
    }
  }

  lemma TimersPressNothing<A>(g: GestureTable<A>, vk: Vk, id: nat, key: Vk)
    requires NonePending(g, key)
    ensures NonePending(TimerOf(g, vk, id).0, key)
    ensures NonePending(ForgetOf(g, vk, id).0, key)
  {
    hide Find, Without, StillOpen, Replaced, FindHold, WithoutHold, WithoutHolds;
    if Resolved(g, vk, id).Some? {
      var (rest, timed) := Resolved(g, vk, id).value;
      StillOpenIsSublist(rest.presses, timed.due);
      SublistMembers(StillOpen(rest.presses, timed.due), rest.presses);
    }
    var want := ArmedAs(vk, id);
    if Find(g.presses, want).Some? {
      var q := Find(g.presses, want).value;
      ReplacedMembers(g.presses, want, q.(phase := if q.phase.Held? then q.phase.(hold := None) else q.phase));
    }
  }

  /** An event of the key itself. */
  predicate IsOf(op: EngineOp, vk: Vk) {
    op.KeyOp? && op.event.vk == vk
  }

  /** A step that ends a Tap press whose key-down passed, or did not: a reset
      ends both, the first key-down of another key one that passed. */
  predicate Interrupts(e: EngineState, op: EngineOp, passed: bool) {
    || op.ResetOp?
    || (passed && op.KeyOp? && op.event.direction.Down? && !e.keys.Active(op.event.vk))
  }

  predicate Interrupted(e: EngineState, ops: seq<EngineOp>, passed: bool)
    decreases |ops|
  {
    ops != [] && (Interrupts(e, ops[0], passed) || Interrupted(Step(e, ops[0]).e, ops[1..], passed))
  }

  lemma {:induction false} OnlyPressOfItsKey<A>(ps: seq<Press<A>>, p: Press<A>, q: Press<A>)
    requires DistinctPresses(ps) && p in ps && q in ps && p.vk == q.vk
    ensures p == q
  {
    if p != ps[0] && q != ps[0] {
      OnlyPressOfItsKey(ps[1..], p, q);
    }
  }

  lemma TapOutlives<A>(p: Press<A>, code: Vk, record: LastDown, now: nat)
    requires IsTapPress(p)
    ensures Outlives(p.phase, code, record, now) <==> record != Passed
  {}

  lemma NoOps(g: GestureTable<Action>)
    ensures ApplyAll(g, []) == (g, [])
  {}

  /** Key events of another key and a Tap press. */
  lemma OtherEventAndATap(e: EngineState, p: Press<Action>, op: EngineOp)
    requires DistinctPresses(e.gestures.presses) && p in e.gestures.presses && IsTapPress(p) && op.KeyOp? && !IsOf(op, p.vk)
    ensures var after := Step(e, op).e.gestures;
            if Interrupts(e, op, e.keys.Record(p.vk) == Passed) then NonePending(after, p.vk) else p in after.presses
  {
    hide OnKey, PressOf, ReleaseOf, ElectOf, GroupOf, Outlives, ApplyAll, EndedTaps, Kept, DistinctPresses;
    var event, env := op.event, op.env;
    StepIsGestureOps(e, op);
    if event.direction.Up? {
      var up := Releasing(event.vk, env.now, e.keys.IsPassed(event.vk), e.lastId + 1);
      ApplyOne(e.gestures, up);
      OthersLeaveIt(e.gestures, p, event.vk, None, env.now, e.keys.IsPassed(event.vk), e.lastId + 1, e.keys);
    } else if e.keys.Active(event.vk) {
      NoOps(e.gestures);
    } else {
      AnotherKeyEnds(e, p, event.vk, op.bindings, env);
      TapOutlives(p, event.vk, e.keys.Record(p.vk), env.now);
      forall q | q in Step(e, op).e.gestures.presses && q.vk == p.vk ensures q == p {
        AnotherKeyEnds(e, q, event.vk, op.bindings, env);
        OnlyPressOfItsKey(e.gestures.presses, p, q);
      }
    }
  }

  /** A step that is no event of the key leaves its Tap press, unless it
      interrupts it. Then no press of the key is left. */
  lemma StepAndATap(e: EngineState, p: Press<Action>, op: EngineOp)
    requires EngineFacts.EngineInv(e) && p in e.gestures.presses && IsTapPress(p) && !IsOf(op, p.vk)
    ensures var after := Step(e, op).e.gestures;
            if Interrupts(e, op, e.keys.Record(p.vk) == Passed) then NonePending(after, p.vk) else p in after.presses
  {
    hide OnKey, TimerOf, ForgetOf, Reset, DistinctPresses;
    match op
    case KeyOp(_, _, _) => OtherEventAndATap(e, p, op);
    case TimerOp(token) => if token.slot.GestureSlot? { TimersLeaveATap(e.gestures, p, token.slot.vk, token.id); }
    case ForgetOp(token) => if token.slot.GestureSlot? { TimersLeaveATap(e.gestures, p, token.slot.vk, token.id); }
    case ResetOp(reason, env) => ResetEmpties(e, env, reason);
    case _ =>
  }

  lemma ResetEmpties(e: EngineState, env: Env, reason: ResetReason)
    ensures Reset(e, env, reason).gestures == NoGestures()
  {}

  /** No step but an event of the key gives it a press. */
  lemma StepPressesNothing(e: EngineState, vk: Vk, op: EngineOp)
    requires NonePending(e.gestures, vk) && !IsOf(op, vk)
    ensures NonePending(Step(e, op).e.gestures, vk)
  {
    hide OnKey, TimerOf, ForgetOf, Reset, NonePending, GroupOf, ElectOf, PressOf, ReleaseOf, Kept, EndedTaps, ApplyAll;
    match op
    case KeyOp(event, bindings, env) =>
      StepIsGestureOps(e, op);
      var ops := GestureOpsOf(e, op);
      if event.direction.Up? {
        ApplyOne(e.gestures, ops[0]);
        ReleasePressesNothing(e.gestures, event.vk, env.now, e.keys.IsPassed(event.vk), e.lastId + 1, vk);
      } else if e.keys.Active(event.vk) {
        NoOps(e.gestures);
      } else {
        ApplyTwo(e.gestures, ops[0], ops[1]);
        KeyDownPressesNothing(e.gestures, ops[0].keys, event.vk, ops[1].group, env.now, e.lastId + 1, vk);
      }
    case TimerOp(token) => if token.slot.GestureSlot? { TimersPressNothing(e.gestures, token.slot.vk, token.id, vk); }
    case ForgetOp(token) => if token.slot.GestureSlot? { TimersPressNothing(e.gestures, token.slot.vk, token.id, vk); }
    case ResetOp(reason, env) =>
      ResetEmpties(e, env, reason);
      NonePendingInNone(vk);
    case _ =>
  }

  lemma NonePendingInNone(vk: Vk)
    ensures NonePending(NoGestures<Action>(), vk)
  {}

  lemma ReleasePressesNothing<A>(g: GestureTable<A>, vk: Vk, now: nat, passed: bool, id: nat, key: Vk)
    requires NonePending(g, key) && vk != key
    ensures NonePending(ReleaseOf(g, vk, now, passed, id).0, key)
  {}

  lemma KeyDownPressesNothing<A>(g: GestureTable<A>, keys: KeyTable, vk: Vk, group: Option<GroupArming<A>>, now: nat, id: nat, key: Vk)
    requires NonePending(g, key) && vk != key
    ensures NonePending(PressOf(g.(presses := Kept(g.presses, vk, keys, now)), vk, group, now, id).table, key)
  {
    KeptMembers(g.presses, vk, keys, now);
  }

  /** A step that is no event of the key and no reset leaves it to what became
      of the key's key-down whether that passed. */
  lemma StepLeavesPassed(e: EngineState, vk: Vk, op: EngineOp)
    requires !IsOf(op, vk) && !op.ResetOp?
    ensures Step(e, op).e.keys.Record(vk) == Passed <==> e.keys.Record(vk) == Passed
  {
    hide OnTimer, ForgetTimer;
    match op
    case KeyOp(event, bindings, env) => KeyLeavesPassed(e, vk, event, bindings, env);
    case TimerOp(token) => TimersLeaveKeys(e, token);
    case ForgetOp(token) => TimersLeaveKeys(e, token);
    case _ =>
  }

  lemma TimersLeaveKeys(e: EngineState, token: TimerToken)
    ensures OnTimer(e, token).e.keys == e.keys && ForgetTimer(e, token).0.keys == e.keys
  {
    hide TimerOf, ForgetOf;
  }

  lemma KeyLeavesPassed(e: EngineState, vk: Vk, event: KeyEvent, bindings: seq<Binding>, env: Env)
    requires event.vk != vk
    ensures OnKey(e, event, bindings, env).e.keys.Record(vk) == Passed <==> e.keys.Record(vk) == Passed
  {
    hide EngineStates.OnKeyDown, EngineStates.OnKeyUp, KeyTable.AltOrWinDownInWindows;
    var e1 := e.(maskOwed := false, resync := e.resync.Event(event.vk, true));
    if event.direction.Down? {
      var checked := e1.(keys := e1.keys.ClearReleased(env.keyDown, event.vk, ALL));
      if event.vk < 256 {
        EngineFacts.KeyDownVerdict(checked, event.vk, bindings, env);
      } else {
        EngineFacts.KeyDownOutside(checked, event.vk, bindings, env);
      }
    } else if event.vk < 256 {
      EngineFacts.KeyUpVerdict(e1, event.vk, env);
    } else {
      KeyUpOutside(e1, event.vk, env);
    }
  }

  lemma KeyUpOutside(e: EngineState, vk: Vk, env: Env)
    requires vk >= 256
    ensures EngineStates.OnKeyUp(e, vk, env).e.keys.last == e.keys.last
  {
    hide ReleaseOf;
  }

  lemma {:induction false} RunPressesNothing(e: EngineState, vk: Vk, ops: seq<EngineOp>)
    requires NonePending(e.gestures, vk) && forall op :: op in ops ==> !IsOf(op, vk)
    ensures NonePending(RunOps(e, ops).gestures, vk)
    decreases |ops|
  {
    hide Step, NonePending;
    if ops != [] {
      StepPressesNothing(e, vk, ops[0]);
      RunPressesNothing(Step(e, ops[0]).e, vk, ops[1..]);
    }
  }

  lemma {:induction false} RunAndATap(e: EngineState, p: Press<Action>, ops: seq<EngineOp>)
    requires EngineFacts.EngineInv(e) && p in e.gestures.presses && IsTapPress(p)
    requires forall op :: op in ops ==> !IsOf(op, p.vk)
    ensures var after := RunOps(e, ops).gestures;
            if Interrupted(e, ops, e.keys.Record(p.vk) == Passed) then NonePending(after, p.vk) else p in after.presses
    decreases |ops|
  {
    hide Step, EngineFacts.EngineInv, NonePending, Interrupts, IsTapPress, IsOf;
    if ops != [] {
      assert ops[0] in ops;
      EngineFacts.StepInv(e, ops[0]);
      StepAndATap(e, p, ops[0]);
      var next, passed := Step(e, ops[0]).e, e.keys.Record(p.vk) == Passed;
      if Interrupts(e, ops[0], passed) {
        RunPressesNothing(next, p.vk, ops[1..]);
      } else {
        NoReset(e, ops[0], passed);
        StepLeavesPassed(e, p.vk, ops[0]);
        RunAndATap(next, p, ops[1..]);
      }
    }
  }

  lemma NoReset(e: EngineState, op: EngineOp, passed: bool)
    requires !Interrupts(e, op, passed)
    ensures !op.ResetOp?
  {}

  /** A Tap from a press on, whatever other keys, timers and drains come before
      the key-up. One whose key-down passed fires at the key-up iff no other
      key went down first and the term is not over; a swallowed one fires iff
      the term is not over. No key-up fires a Tap of before a reset, and a
      DoubleTap whose window is open keeps the Tap waiting. */
  lemma TapFiresUnlessInterrupted(e: EngineState, p: Press<Action>, ops: seq<EngineOp>, bindings: seq<Binding>, env: Env)
    requires EngineFacts.EngineInv(e) && p in e.gestures.presses && IsTapPress(p)
    requires forall op :: op in ops ==> !IsOf(op, p.vk)
    ensures var up := OnKey(RunOps(e, ops), KeyEvent(p.vk, Up), bindings, env);
            var tap, double := p.phase.tap.value, p.phase.double;
            up.d.fire == (if !Interrupted(e, ops, e.keys.Record(p.vk) == Passed) && env.now < tap.due
                             && !(double.Some? && env.now < double.value.due)
                          then [tap.action] else [])
  {
    hide OnKey, ReleaseOf, RunOps, Interrupted, NonePending, EngineFacts.HeldRecorded, TableInv, Apply;
    var end := RunOps(e, ops);
    RunAndATap(e, p, ops);
    EngineFacts.RunInv(e, ops);
    UpIsGestureOps(end, p.vk, bindings, env);
    ApplyOne(end.gestures, Releasing(p.vk, env.now, end.keys.IsPassed(p.vk), end.lastId + 1));
    TapAtItsKeyUp(end.gestures, p, env.now, end.keys.IsPassed(p.vk), end.lastId + 1, end.lastId);
  }

  lemma TapAtItsKeyUp<A>(g: GestureTable<A>, p: Press<A>, now: nat, passed: bool, id: nat, lastId: nat)
    requires TableInv(g, lastId) && IsTapPress(p)
    ensures var fired := Apply(g, Releasing(p.vk, now, passed, id)).1;
            && (NonePending(g, p.vk) ==> fired == [])
            && (p in g.presses ==>
                  fired == (if now < p.phase.tap.value.due && !(p.phase.double.Some? && now < p.phase.double.value.due)
                            then [p.phase.tap.value.action] else []))
  {
    hide Find, Without, DistinctPresses;
    if p in g.presses {
      OnlyPressFound(g.presses, HeldOf(p.vk), p);
    }
  }
}
