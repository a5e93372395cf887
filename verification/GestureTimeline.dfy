/** Which gesture a press becomes, told by its term and times alone. */
module GestureTimeline {
  import opened Options
  import opened Modifiers
  import opened KeyTables
  import opened Winners
  import opened GestureTables
  import opened GestureFacts

  /** What the key-up of a press decides. */
  datatype Fate<A> =
    | HeldLong(action: A)            // the Hold has the press; its timer fires it
    | TappedNow(action: A)           // the Tap fires at the key-up
    | MayDouble(until: nat, double: A, tap: Option<A>) // a second press may complete it
    | Spent                          // too late for every gesture left

  predicate Within<A>(gesture: Option<Gesture<A>>, lasted: nat) {
    gesture.Some? && lasted < gesture.value.term
  }

  /** The rule, for a press of `group` that began at `began` and lasted
      `lasted`: a Hold whose term is over has it; else an open DoubleTap
      window, in which a Tap in time waits; else a Tap in time. */
  function FateOf<A>(group: GroupArming<A>, began: nat, lasted: nat): Fate<A> {
    if group.hold.Some? && !Within(group.hold, lasted) then HeldLong(group.hold.value.action)
    else
      var tap := if Within(group.tap, lasted) then Some(group.tap.value.action) else None;
      if Within(group.doubleTap, lasted)
      then MayDouble(began + group.doubleTap.value.term, group.doubleTap.value.action, tap)
      else if tap.Some? then TappedNow(tap.value)
      else Spent
  }

  ghost predicate NonePending<A>(g: GestureTable<A>, vk: Vk) {
    forall p :: p in g.presses ==> p.vk != vk
  }

  /** The waiting half of a press that may still become a DoubleTap. */
  function Waiting<A>(group: GroupArming<A>, vk: Vk, id: nat, fate: Fate<A>, passed: bool): Press<A>
    requires fate.MayDouble?
  {
    Press(vk, id, AwaitSecond(Window(fate.until, fate.double, GroupKey(group.keys, group.condition)), fate.tap, passed))
  }

  ghost predicate FiresLast<A>(fired: seq<A>, action: A) {
    fired != [] && fired[|fired| - 1] == action
  }

  /** Looking up the only press of a key. */
  lemma {:induction false} OnlyPressFound<A>(ps: seq<Press<A>>, want: Want, p: Press<A>)
    requires DistinctPresses(ps) && p in ps && Fits(want, p)
    ensures Find(ps, want) == Some(p)
    ensures forall q :: q in Without(ps, want) ==> q.vk != p.vk
  {
    if ps[0] != p {
      OnlyPressFound(ps[1..], want, p);
    }
  }

  /** A press arms its group's gestures, and is the only one of its key. */
  lemma PressArms<A>(g: GestureTable<A>, vk: Vk, group: GroupArming<A>, now: nat, id: nat, lastId: nat)
    requires TableInv(g, lastId) && lastId < id
    requires !EndEarlier(g, vk, Some(group), now).completes
    ensures var pressed := PressOf(g, vk, Some(group), now, id);
            && TableInv(pressed.table, id)
            && Armed(vk, group, now, id) in pressed.table.presses
            && (pressed.holdDue.Some? <==> group.hold.Some?)
            && (group.hold.Some? ==> pressed.holdDue.value == now + group.hold.value.term)
  {
    PressInv(g, vk, Some(group), now, id, lastId);
  }

  /** The key-up of a press that is still pending, whatever happened to other
      keys meanwhile. */
  lemma KeyUpDecides<A>(g: GestureTable<A>, vk: Vk, group: GroupArming<A>, began: nat, id: nat, lasted: nat, passed: bool, newId: nat, lastId: nat)
    requires TableInv(g, lastId) && Armed(vk, group, began, id) in g.presses
    ensures var (table, released) := ReleaseOf(g, vk, began + lasted, passed, newId);
            var fate := FateOf(group, began, lasted);
            && released.fired == (if fate.TappedNow? then Some(fate.action) else None)
            && released.windowDue == (if fate.MayDouble? && fate.tap.Some? then Some(fate.until) else None)
            && released.gestureBound == (group.hold.Some? || Within(group.tap, lasted))
            && (if fate.MayDouble? then Waiting(group, vk, newId, fate, passed) in table.presses else NonePending(table, vk))
            && (fate.HeldLong? ==> DueHold(vk, id, began + group.hold.value.term, fate.action) in table.dueHolds)
            && (!fate.HeldLong? ==> table.dueHolds == g.dueHolds)
  {
    hide Find, Without, DistinctPresses, DistinctHolds;
    OnlyPressFound(g.presses, HeldOf(vk), Armed(vk, group, began, id));
  }

  lemma {:induction false} KeptExactly<A>(ps: seq<Press<A>>, p: Press<A>, vk: Vk, keys: KeyTable, now: nat)
    requires p in ps
    ensures p in Kept(ps, vk, keys, now) <==> !IsEndedBy(p, vk, keys, now)
  {
    hide IsEndedBy;
    if p in ps[1..] {
      KeptExactly(ps[1..], p, vk, keys, now);
    } else {
      KeptMembers(ps[1..], vk, keys, now);
    }
  }

  lemma {:induction false} KeptMembers<A>(ps: seq<Press<A>>, vk: Vk, keys: KeyTable, now: nat)
    ensures forall p :: p in Kept(ps, vk, keys, now) ==> p in ps
  {
    hide IsEndedBy;
    if ps != [] {
      KeptMembers(ps[1..], vk, keys, now);
    }
  }

  lemma {:induction false} WithoutLeavesOthers<A>(ps: seq<Press<A>>, want: Want, p: Press<A>)
    requires p in ps && p.vk != want.vk
    ensures p in Without(ps, want)
  {
    if p != ps[0] && !Fits(want, ps[0]) {
      WithoutLeavesOthers(ps[1..], want, p);
    }
  }

  /** Presses and key-ups of another key leave a pending press as it is; its
      first key-down ends the press exactly by the rule for other keys. */
  lemma OthersLeaveIt<A>(g: GestureTable<A>, p: Press<A>, vk: Vk, group: Option<GroupArming<A>>, now: nat, passed: bool, id: nat, keys: KeyTable)
    requires p in g.presses && p.vk != vk
    ensures p in PressOf(g, vk, group, now, id).table.presses
    ensures p in ReleaseOf(g, vk, now, passed, id).0.presses
    ensures p in Kept(g.presses, vk, keys, now) <==> !IsEndedBy(p, vk, keys, now)
  {
    hide Find, Without, IsEndedBy, Kept;
    WithoutLeavesOthers(g.presses, OfKey(vk), p);
    WithoutLeavesOthers(g.presses, HeldOf(vk), p);
    KeptExactly(g.presses, p, vk, keys, now);
  }

  /** The Hold's timer while the key is held: the Hold fires, and the press is
      gone. */
  lemma HoldFires<A>(g: GestureTable<A>, vk: Vk, group: GroupArming<A>, began: nat, id: nat, lastId: nat)
    requires TableInv(g, lastId) && Armed(vk, group, began, id) in g.presses && group.hold.Some?
    ensures var (table, fired) := TimerOf(g, vk, id);
            FiresLast(fired, group.hold.value.action) && NonePending(table, vk)
  {
    var p := Armed(vk, group, began, id);
    OnlyPressFound(g.presses, WaitingAs(vk, id), p);
    NoHoldOfThatNumber(g, p, lastId);
    var rest := g.(presses := Without(g.presses, WaitingAs(vk, id)));
    assert Resolved(g, vk, id) == Some((rest, Timed(began + group.hold.value.term, group.hold.value.action)));
    StillOpenIsSublist(rest.presses, began + group.hold.value.term);
    SublistMembers(StillOpen(rest.presses, began + group.hold.value.term), rest.presses);
  }

  lemma NoHoldOfThatNumber<A>(g: GestureTable<A>, p: Press<A>, lastId: nat)
    requires TableInv(g, lastId) && p in g.presses
    ensures FindHold(g.dueHolds, p.vk, p.id) == None
  {}

  /** The Hold's timer after the key-up, however late, and whatever was pressed
      since: the Hold fires. */
  lemma LeftHoldFires<A>(g: GestureTable<A>, h: DueHold<A>, lastId: nat)
    requires TableInv(g, lastId) && h in g.dueHolds
    ensures FiresLast(TimerOf(g, h.vk, h.id).1, h.action)
  {
    OnlyHoldFound(g.dueHolds, h);
  }

  lemma {:induction false} OnlyHoldFound<A>(hs: seq<DueHold<A>>, h: DueHold<A>)
    requires DistinctHolds(hs) && h in hs
    ensures FindHold(hs, h.vk, h.id) == Some(h)
  {
    if hs[0] != h {
      OnlyHoldFound(hs[1..], h);
    }
  }

  /** A second press of the key that some group wins, or none. */
  predicate IsSecond<A>(first: GroupArming<A>, second: Option<GroupArming<A>>) {
    && second.Some? && second.value.doubleTap.Some?
    && second.value.keys.SameAs(first.keys) && second.value.condition == first.condition
  }

  /** A second press in time, of the same group, fires the DoubleTap and
      nothing else; any other press of the key fires the Tap that waited, and
      starts anew. */
  lemma SecondPressDecides<A>(g: GestureTable<A>, vk: Vk, group: GroupArming<A>, fate: Fate<A>, id: nat, passed: bool, second: Option<GroupArming<A>>, now: nat, newId: nat, lastId: nat)
    requires TableInv(g, lastId) && fate.MayDouble? && Waiting(group, vk, id, fate, passed) in g.presses
    ensures var pressed := PressOf(g, vk, second, now, newId);
            if now < fate.until && IsSecond(group, second)
            then pressed.fired == [fate.double] && NonePending(pressed.table, vk) && pressed.holdDue.None?
            else pressed.fired == ListOf(fate.tap)
                 && (second.Some? ==> Armed(vk, second.value, now, newId) in pressed.table.presses)
                 && (second.None? ==> NonePending(pressed.table, vk))
  {
    hide Find, Without, DistinctPresses;
    OnlyPressFound(g.presses, OfKey(vk), Waiting(group, vk, id, fate, passed));
  }

  /** The window's timer, due at its end: the Tap that waited fires. */
  lemma WaitingTapFires<A>(g: GestureTable<A>, vk: Vk, group: GroupArming<A>, fate: Fate<A>, id: nat, passed: bool, lastId: nat)
    requires TableInv(g, lastId) && fate.MayDouble? && fate.tap.Some? && Waiting(group, vk, id, fate, passed) in g.presses
    ensures var (table, fired) := TimerOf(g, vk, id);
            FiresLast(fired, fate.tap.value) && NonePending(table, vk)
  {
    var p := Waiting(group, vk, id, fate, passed);
    OnlyPressFound(g.presses, WaitingAs(vk, id), p);
    NoHoldOfThatNumber(g, p, lastId);
    var rest := g.(presses := Without(g.presses, WaitingAs(vk, id)));
    assert Resolved(g, vk, id) == Some((rest, Timed(fate.until, fate.tap.value)));
    StillOpenIsSublist(rest.presses, fate.until);
    SublistMembers(StillOpen(rest.presses, fate.until), rest.presses);
  }

  /** One press of a gesture group from its key-down on: which gesture fires,
      and when. The key-up decides; a Hold fires at its timer; and a press that
      may double waits for its second press or for its window's timer. */
  lemma PressTimeline<A>(g: GestureTable<A>, vk: Vk, group: GroupArming<A>, began: nat, lasted: nat, passed: bool,
                         second: Option<GroupArming<A>>, again: nat, lastId: nat)
    requires TableInv(g, lastId) && !EndEarlier(g, vk, Some(group), began).completes
    ensures var down := PressOf(g, vk, Some(group), began, lastId + 1).table;
            var (up, released) := ReleaseOf(down, vk, began + lasted, passed, lastId + 2);
            match FateOf(group, began, lasted)
            case HeldLong(hold) =>
              released.fired == None && FiresLast(TimerOf(up, vk, lastId + 1).1, hold)
            case TappedNow(tap) =>
              released.fired == Some(tap) && NonePending(up, vk)
            case MayDouble(until, double, tap) =>
              && released.fired == None
              && PressOf(up, vk, second, again, lastId + 3).fired
                 == (if again < until && IsSecond(group, second) then [double] else ListOf(tap))
              && (tap.Some? ==> released.windowDue == Some(until) && FiresLast(TimerOf(up, vk, lastId + 2).1, tap.value))
            case Spent =>
              released.fired == None && NonePending(up, vk)
  {
    hide PressOf, ReleaseOf, TimerOf, TableInv, EndEarlier;
    var down := PressOf(g, vk, Some(group), began, lastId + 1).table;
    var up := ReleaseOf(down, vk, began + lasted, passed, lastId + 2).0;
    var fate := FateOf(group, began, lasted);
    PressArms(g, vk, group, began, lastId + 1, lastId);
    KeyUpDecides(down, vk, group, began, lastId + 1, lasted, passed, lastId + 2, lastId + 1);
    ReleaseInv(down, vk, began + lasted, passed, lastId + 2, lastId + 1);
    if fate.HeldLong? {
      LeftHoldFires(up, DueHold(vk, lastId + 1, began + group.hold.value.term, fate.action), lastId + 2);
    } else if fate.MayDouble? {
      SecondPressDecides(up, vk, group, fate, lastId + 2, passed, second, again, lastId + 3, lastId + 2);
      if fate.tap.Some? {
        WaitingTapFires(up, vk, group, fate, lastId + 2, passed, lastId + 2);
      }
    }
  }
}
