/** Gestures with their marks rubbed out.

    The conservation law follows presses by marking each arming's actions with
    its number. Marking changes nothing else: every operation on marked presses
    is the operation on plain ones, because a gesture table stores actions and
    fires them and never looks at one. */
module PlainGestures {
  import opened Options
  import opened Modifiers
  import opened KeyTables
  import opened Winners
  import opened GestureTables
  import opened GestureFates

  // ----- rubbing out -----

  function PlainTimed<A>(t: Option<Timed<Tagged<A>>>): Option<Timed<A>> {
    if t.Some? then Some(Timed(t.value.due, t.value.action.action)) else None
  }

  function PlainAction<A>(t: Option<Tagged<A>>): Option<A> {
    if t.Some? then Some(t.value.action) else None
  }

  function PlainWindow<A>(w: Window<Tagged<A>>): Window<A> {
    Window(w.due, w.action.action, w.group)
  }

  function PlainPress<A>(p: Press<Tagged<A>>): Press<A> {
    Press(p.vk, p.id,
          match p.phase
          case Held(tap, hold, double) =>
            Held(PlainTimed(tap), PlainTimed(hold), if double.Some? then Some(PlainWindow(double.value)) else None)
          case AwaitSecond(window, tap, passed) => AwaitSecond(PlainWindow(window), PlainAction(tap), passed))
  }

  function PlainHold<A>(h: DueHold<Tagged<A>>): DueHold<A> {
    DueHold(h.vk, h.id, h.due, h.action.action)
  }

  function PlainPresses<A>(ps: seq<Press<Tagged<A>>>): seq<Press<A>> {
    if ps == [] then [] else [PlainPress(ps[0])] + PlainPresses(ps[1..])
  }

  function PlainHolds<A>(hs: seq<DueHold<Tagged<A>>>): seq<DueHold<A>> {
    if hs == [] then [] else [PlainHold(hs[0])] + PlainHolds(hs[1..])
  }

  function PlainActions<A>(fired: seq<Tagged<A>>): seq<A> {
    if fired == [] then [] else [fired[0].action] + PlainActions(fired[1..])
  }

  function PlainTable<A>(g: GestureTable<Tagged<A>>): GestureTable<A> {
    GestureTable(PlainPresses(g.presses), PlainHolds(g.dueHolds))
  }

  function PlainGesture<A>(t: Option<Gesture<Tagged<A>>>): Option<Gesture<A>> {
    if t.Some? then Some(Gesture(t.value.term, t.value.action.action)) else None
  }

  function PlainGroup<A>(group: Option<GroupArming<Tagged<A>>>): Option<GroupArming<A>> {
    if group.None? then None
    else
      var g := group.value;
      Some(GroupArming(g.keys, g.condition, PlainGesture(g.tap), PlainGesture(g.hold), PlainGesture(g.doubleTap), g.block))
  }

  function PlainOp<A>(op: GestureOp<Tagged<A>>): GestureOp<A> {
    match op
    case Pressing(vk, group, now, id) => Pressing(vk, PlainGroup(group), now, id)
    case Releasing(vk, now, passed, id) => Releasing(vk, now, passed, id)
    case OtherKey(vk, keys, now) => OtherKey(vk, keys, now)
    case TimerRuns(vk, id) => TimerRuns(vk, id)
    case TimerRefused(vk, id) => TimerRefused(vk, id)
    case Clearing => Clearing
  }

  // ----- lists -----

  lemma {:induction false} PlainPressesConcat<A>(a: seq<Press<Tagged<A>>>, b: seq<Press<Tagged<A>>>)
    ensures PlainPresses(a + b) == PlainPresses(a) + PlainPresses(b)
  {
    if a == [] {
      assert a + b == b;
    } else {
      assert (a + b)[1..] == a[1..] + b;
      PlainPressesConcat(a[1..], b);
    }
  }

  lemma {:induction false} PlainHoldsConcat<A>(a: seq<DueHold<Tagged<A>>>, b: seq<DueHold<Tagged<A>>>)
    ensures PlainHolds(a + b) == PlainHolds(a) + PlainHolds(b)
  {
    if a == [] {
      assert a + b == b;
    } else {
      assert (a + b)[1..] == a[1..] + b;
      PlainHoldsConcat(a[1..], b);
    }
  }

  lemma {:induction false} PlainActionsConcat<A>(a: seq<Tagged<A>>, b: seq<Tagged<A>>)
    ensures PlainActions(a + b) == PlainActions(a) + PlainActions(b)
  {
    if a == [] {
      assert a + b == b;
    } else {
      assert (a + b)[1..] == a[1..] + b;
      PlainActionsConcat(a[1..], b);
    }
  }

  lemma OnePlainPress<A>(p: Press<Tagged<A>>)
    ensures PlainPresses([p]) == [PlainPress(p)]
  {
    assert PlainPresses([p]) == [PlainPress(p)] + PlainPresses([p][1..]);
  }

  lemma OnePlainHold<A>(h: DueHold<Tagged<A>>)
    ensures PlainHolds([h]) == [PlainHold(h)]
  {
    assert PlainHolds([h]) == [PlainHold(h)] + PlainHolds([h][1..]);
  }

  lemma OnePlainAction<A>(x: Tagged<A>)
    ensures PlainActions([x]) == [x.action]
  {
    assert PlainActions([x]) == [x.action] + PlainActions([x][1..]);
  }

  lemma PlainFits<A>(want: Want, p: Press<Tagged<A>>)
    ensures Fits(want, PlainPress(p)) == Fits(want, p)
    ensures PlainPress(p).phase.TimerDue() == p.phase.TimerDue()
    ensures PlainPress(p).phase.TimerAction() == PlainAction(p.phase.TimerAction())
  {}

  lemma {:induction false} PlainFind<A>(ps: seq<Press<Tagged<A>>>, want: Want, other: Press<Tagged<A>>)
    ensures Find(PlainPresses(ps), want) == (if Find(ps, want).Some? then Some(PlainPress(Find(ps, want).value)) else None)
    ensures Without(PlainPresses(ps), want) == PlainPresses(Without(ps, want))
    ensures Replaced(PlainPresses(ps), want, PlainPress(other)) == PlainPresses(Replaced(ps, want, other))
  {
    hide Fits, PlainPress;
    if ps != [] {
      PlainFits(want, ps[0]);
      PlainFind(ps[1..], want, other);
      assert PlainPresses(ps)[1..] == PlainPresses(ps[1..]);
      if !Fits(want, ps[0]) {
        assert Without(ps, want)[1..] == Without(ps[1..], want);
      }
      assert Replaced(ps, want, other)[1..] == if Fits(want, ps[0]) then ps[1..] else Replaced(ps[1..], want, other);
    }
  }

  lemma {:induction false} PlainFindHold<A>(hs: seq<DueHold<Tagged<A>>>, vk: Vk, id: nat)
    ensures FindHold(PlainHolds(hs), vk, id)
         == (if FindHold(hs, vk, id).Some? then Some(PlainHold(FindHold(hs, vk, id).value)) else None)
    ensures WithoutHold(PlainHolds(hs), vk, id) == PlainHolds(WithoutHold(hs, vk, id))
    ensures WithoutHolds(PlainHolds(hs), vk, id) == PlainHolds(WithoutHolds(hs, vk, id))
  {
    if hs != [] {
      PlainFindHold(hs[1..], vk, id);
      assert PlainHolds(hs)[1..] == PlainHolds(hs[1..]);
      if IsHold(hs[0], vk, id) {
        assert WithoutHolds(hs, vk, id) == WithoutHolds(hs[1..], vk, id);
      } else {
        assert WithoutHold(hs, vk, id)[1..] == WithoutHold(hs[1..], vk, id);
        assert WithoutHolds(hs, vk, id)[1..] == WithoutHolds(hs[1..], vk, id);
      }
    }
  }

  lemma PlainEnds<A>(p: Press<Tagged<A>>, vk: Vk, keys: KeyTable, now: nat)
    ensures IsEndedBy(PlainPress(p), vk, keys, now) == IsEndedBy(p, vk, keys, now)
    ensures IsClosed(PlainPress(p), now) == IsClosed(p, now)
    ensures DeferredTap(PlainPress(p)) == PlainActions(DeferredTap(p))
  {
    if p.phase.AwaitSecond? && p.phase.deferredTap.Some? {
      OnePlainAction(p.phase.deferredTap.value);
    }
  }

  lemma {:induction false} PlainKept<A>(ps: seq<Press<Tagged<A>>>, vk: Vk, keys: KeyTable, now: nat)
    ensures Kept(PlainPresses(ps), vk, keys, now) == PlainPresses(Kept(ps, vk, keys, now))
    ensures EndedTaps(PlainPresses(ps), vk, keys, now) == PlainActions(EndedTaps(ps, vk, keys, now))
  {
    hide IsEndedBy, DeferredTap, PlainPress, IsClosed;
    if ps != [] {
      var rest := ps[1..];
      PlainKept(rest, vk, keys, now);
      PlainEnds(ps[0], vk, keys, now);
      assert PlainPresses(ps)[1..] == PlainPresses(rest);
      if IsEndedBy(ps[0], vk, keys, now) {
        PlainActionsConcat(DeferredTap(ps[0]), EndedTaps(rest, vk, keys, now));
        assert Kept(ps, vk, keys, now) == Kept(rest, vk, keys, now);
      } else {
        assert EndedTaps(ps, vk, keys, now) == EndedTaps(rest, vk, keys, now);
        assert Kept(ps, vk, keys, now)[1..] == Kept(rest, vk, keys, now);
      }
    }
  }

  lemma {:induction false} PlainStillOpen<A>(ps: seq<Press<Tagged<A>>>, due: nat)
    ensures StillOpen(PlainPresses(ps), due) == PlainPresses(StillOpen(ps, due))
    ensures ClosedTaps(PlainPresses(ps), due) == PlainActions(ClosedTaps(ps, due))
  {
    hide IsEndedBy, DeferredTap, PlainPress, IsClosed;
    if ps != [] {
      var rest := ps[1..];
      PlainStillOpen(rest, due);
      PlainEnds(ps[0], ps[0].vk, EmptyTable, due);
      assert PlainPresses(ps)[1..] == PlainPresses(rest);
      if IsClosed(ps[0], due) {
        PlainActionsConcat(DeferredTap(ps[0]), ClosedTaps(rest, due));
        assert StillOpen(ps, due) == StillOpen(rest, due);
      } else {
        assert ClosedTaps(ps, due) == ClosedTaps(rest, due);
        assert StillOpen(ps, due)[1..] == StillOpen(rest, due);
      }
    }
  }

  // ----- the operations -----

  lemma PlainHoldLeft<A>(p: Press<Tagged<A>>, now: nat)
    ensures HoldLeft(PlainPress(p), now) == PlainHolds(HoldLeft(p, now))
  {
    if HoldLeft(p, now) != [] {
      OnePlainHold(HoldLeft(p, now)[0]);
    }
  }

  lemma PlainListOf<A>(x: Option<Tagged<A>>)
    ensures ListOf(PlainAction(x)) == PlainActions(ListOf(x))
  {
    if x.Some? {
      OnePlainAction(x.value);
    }
  }

  lemma PlainEndEarlier<A>(g: GestureTable<Tagged<A>>, vk: Vk, group: Option<GroupArming<Tagged<A>>>, now: nat)
    ensures var ended, plain := EndEarlier(g, vk, group, now), EndEarlier(PlainTable(g), vk, PlainGroup(group), now);
            plain.table == PlainTable(ended.table) && plain.fired == PlainActions(ended.fired) && plain.completes == ended.completes
  {
    match Find(g.presses, OfKey(vk))
    case None => NoOther(g.presses, OfKey(vk));
    case Some(p) =>
      hide Find, Without, HoldLeft, PlainPresses, PlainHolds, PlainActions, ListOf, PlainPress, PlainGroup, Completes;
      PlainPhase(p);
      PlainCompletes(p, group, now);
      PlainFind(g.presses, OfKey(vk), p);
      PlainHoldLeft(p, now);
      PlainHoldsConcat(g.dueHolds, HoldLeft(p, now));
      match p.phase {
        case AwaitSecond(window, tap, _) =>
          PlainListOf(tap);
          OnePlainAction(window.action);
          PlainNothing<A>();
        case Held(_, _, _) => PlainNothing<A>();
      }
  }

  lemma PlainCompletes<A>(p: Press<Tagged<A>>, group: Option<GroupArming<Tagged<A>>>, now: nat)
    ensures p.phase.AwaitSecond? ==>
              Completes(PlainWindow(p.phase.window), PlainGroup(group), now) == Completes(p.phase.window, group, now)
  {}

  lemma NoOther<A>(ps: seq<Press<Tagged<A>>>, want: Want)
    requires Find(ps, want).None?
    ensures Find(PlainPresses(ps), want).None?
    ensures PlainActions<A>([]) == []
  {
    if ps != [] {
      PlainFind(ps, want, ps[0]);
    }
  }

  lemma PlainNothing<A>()
    ensures PlainActions<A>([]) == [] && PlainPresses<A>([]) == [] && PlainHolds<A>([]) == []
  {}

  lemma PlainArmed<A>(vk: Vk, group: GroupArming<Tagged<A>>, now: nat, id: nat)
    ensures PlainPress(Armed(vk, group, now, id)) == Armed(vk, PlainGroup(Some(group)).value, now, id)
  {}

  lemma PlainPressing<A>(g: GestureTable<Tagged<A>>, vk: Vk, group: Option<GroupArming<Tagged<A>>>, now: nat, id: nat)
    ensures var r, plain := PressOf(g, vk, group, now, id), PressOf(PlainTable(g), vk, PlainGroup(group), now, id);
            plain.table == PlainTable(r.table) && plain.fired == PlainActions(r.fired) && plain.holdDue == r.holdDue
  {
    hide EndEarlier, Armed, PlainPresses;
    PlainEndEarlier(g, vk, group, now);
    var ended := EndEarlier(g, vk, group, now);
    if !ended.completes && group.Some? {
      var press := Armed(vk, group.value, now, id);
      PlainArmed(vk, group.value, now, id);
      PlainPressesConcat(ended.table.presses, [press]);
      OnePlainPress(press);
      PlainFits(OfKey(vk), press);
    }
  }

  lemma PlainTimes<A>(p: Press<Tagged<A>>, now: nat)
    requires p.phase.Held?
    ensures PlainPress(p).phase.Held?
    ensures TapInTime(PlainPress(p).phase, now) == PlainAction(TapInTime(p.phase, now))
    ensures WindowOpens(PlainPress(p).phase, now) == WindowOpens(p.phase, now)
  {}

  lemma PlainReleasing<A>(g: GestureTable<Tagged<A>>, vk: Vk, now: nat, passed: bool, id: nat)
    ensures var (table, released) := ReleaseOf(g, vk, now, passed, id);
            var (plainTable, plainReleased) := ReleaseOf(PlainTable(g), vk, now, passed, id);
            && plainTable == PlainTable(table)
            && plainReleased == Released(PlainAction(released.fired), released.gestureBound, released.windowDue)
  {
    match Find(g.presses, HeldOf(vk))
    case None => NoOther(g.presses, HeldOf(vk));
    case Some(p) =>
      hide Find, Without, HoldLeft, PlainPresses, PlainHolds, TapInTime, WindowOpens;
      PlainFind(g.presses, HeldOf(vk), p);
      PlainHoldLeft(p, now);
      PlainHoldsConcat(g.dueHolds, HoldLeft(p, now));
      PlainHoldsSize(HoldLeft(p, now));
      PlainTimes(p, now);
      if HoldLeft(p, now) == [] && WindowOpens(p.phase, now) {
        WindowIsThere(p.phase, now);
        var waiting := Press(vk, id, AwaitSecond(p.phase.double.value, TapInTime(p.phase, now), passed));
        PlainPressesConcat(Without(g.presses, HeldOf(vk)), [waiting]);
        OnePlainPress(waiting);
        PlainFits(OfKey(vk), waiting);
      }
  }

  lemma WindowIsThere<A>(p: Phase<A>, now: nat)
    requires p.Held? && WindowOpens(p, now)
    ensures p.double.Some?
  {}

  lemma PlainHoldsSize<A>(hs: seq<DueHold<Tagged<A>>>)
    ensures PlainHolds(hs) == [] <==> hs == []
  {}

  lemma PlainTimer<A>(g: GestureTable<Tagged<A>>, vk: Vk, id: nat)
    ensures var (table, fired) := TimerOf(g, vk, id);
            TimerOf(PlainTable(g), vk, id) == (PlainTable(table), PlainActions(fired))
  {
    PlainFindHold(g.dueHolds, vk, id);
    match FindHold(g.dueHolds, vk, id)
    case Some(h) => PlainResolved(g.(dueHolds := WithoutHold(g.dueHolds, vk, id)), Timed(h.due, h.action));
    case None =>
      match Find(g.presses, WaitingAs(vk, id)) {
        case None => NoOther(g.presses, WaitingAs(vk, id));
        case Some(p) =>
          PlainFind(g.presses, WaitingAs(vk, id), p);
          PlainFits(WaitingAs(vk, id), p);
          PlainResolved(g.(presses := Without(g.presses, WaitingAs(vk, id))), Timed(p.phase.TimerDue().value, p.phase.TimerAction().value));
      }
      PlainNothing<A>();
  }

  lemma PlainResolved<A>(rest: GestureTable<Tagged<A>>, timed: Timed<Tagged<A>>)
    ensures StillOpen(PlainTable(rest).presses, timed.due) == PlainPresses(StillOpen(rest.presses, timed.due))
    ensures ClosedTaps(PlainTable(rest).presses, timed.due) + [timed.action.action]
         == PlainActions(ClosedTaps(rest.presses, timed.due) + [timed.action])
  {
    PlainStillOpen(rest.presses, timed.due);
    PlainActionsConcat(ClosedTaps(rest.presses, timed.due), [timed.action]);
    OnePlainAction(timed.action);
  }

  lemma PlainPhase<A>(p: Press<Tagged<A>>)
    ensures PlainPress(p).vk == p.vk && PlainPress(p).id == p.id
    ensures match p.phase
            case Held(tap, hold, double) =>
              && PlainPress(p).phase.Held?
              && (PlainPress(p).phase.tap.None? <==> tap.None?) && (PlainPress(p).phase.hold.None? <==> hold.None?)
              && (PlainPress(p).phase.double.None? <==> double.None?)
              && PlainPress(p.(phase := p.phase.(hold := None))) == PlainPress(p).(phase := PlainPress(p).phase.(hold := None))
            case AwaitSecond(window, tap, passed) =>
              PlainPress(p).phase == AwaitSecond(PlainWindow(window), PlainAction(tap), passed)
  {}

  lemma PlainRefused<A>(g: GestureTable<Tagged<A>>, vk: Vk, id: nat)
    ensures ForgetOf(PlainTable(g), vk, id) == (PlainTable(ForgetOf(g, vk, id).0), ForgetOf(g, vk, id).1)
  {
    PlainFindHold(g.dueHolds, vk, id);
    if FindHold(g.dueHolds, vk, id).None? {
      match Find(g.presses, ArmedAs(vk, id))
      case None => NoOther(g.presses, ArmedAs(vk, id));
      case Some(p) =>
        hide Find, Without, Replaced, PlainPresses, PlainHolds, FindHold, WithoutHolds, PlainPress;
        PlainPhase(p);
        PlainFind(g.presses, ArmedAs(vk, id), if p.phase.Held? then p.(phase := p.phase.(hold := None)) else p);
    }
  }

  /** Every operation on marked presses is the operation on plain ones. */
  lemma PlainApply<A>(g: GestureTable<Tagged<A>>, op: GestureOp<Tagged<A>>)
    ensures var (table, fired) := Apply(g, op);
            Apply(PlainTable(g), PlainOp(op)) == (PlainTable(table), PlainActions(fired))
  {
    hide PressOf, ReleaseOf, TimerOf, ForgetOf, Kept, EndedTaps, PlainActions, PlainPresses, PlainHolds, ListOf;
    match op
    case Pressing(vk, group, now, id) => PlainPressing(g, vk, group, now, id);
    case Releasing(vk, now, passed, id) =>
      PlainReleasing(g, vk, now, passed, id);
      PlainListOf(ReleaseOf(g, vk, now, passed, id).1.fired);
    case OtherKey(vk, keys, now) => PlainKept(g.presses, vk, keys, now);
    case TimerRuns(vk, id) => PlainTimer(g, vk, id);
    case TimerRefused(vk, id) =>
      PlainRefused(g, vk, id);
      PlainNothing<A>();
    case Clearing => PlainNothing<A>();
  }
}
