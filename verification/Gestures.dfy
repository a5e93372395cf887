/** Pending `Tap`, `Hold` and `DoubleTap` gestures: one machine per press. The
    actions are of any type, since the machine only stores and fires them. */
module GestureTables {
  import opened Options
  import opened Modifiers
  import opened KeySpecs
  import opened Conditions
  import opened KeyTables
  import opened Winners
  import opened Seqs

  datatype Timed<A> = Timed(due: nat, action: A)

  /** The keys and `when:` of the group that opened a DoubleTap window. */
  datatype GroupKey = GroupKey(keys: KeyCombination, condition: Condition)

  datatype Window<A> = Window(due: nat, action: A, group: GroupKey)

  datatype Phase<A> =
    | Held(tap: Option<Timed<A>>, hold: Option<Timed<A>>, double: Option<Window<A>>)
    | AwaitSecond(window: Window<A>, deferredTap: Option<A>, passed: bool)
  {
    /** When the timer this phase waits for is due, if it waits for one. */
    function TimerDue(): Option<nat> {
      match this
      case Held(_, Some(hold), _) => Some(hold.due)
      case AwaitSecond(window, Some(_), _) => Some(window.due)
      case _ => None
    }

    function TimerAction(): (action: Option<A>)
      ensures action.Some? == TimerDue().Some?
    {
      match this
      case Held(_, Some(hold), _) => Some(hold.action)
      case AwaitSecond(_, Some(tap), _) => Some(tap)
      case _ => None
    }
  }

  datatype Press<A> = Press(vk: Vk, id: nat, phase: Phase<A>)

  /** A press resolved as a Hold whose timer has not run yet. */
  datatype DueHold<A> = DueHold(vk: Vk, id: nat, due: nat, action: A)

  datatype Released<A> = Released(fired: Option<A>, gestureBound: bool, windowDue: Option<nat>)

  datatype GestureTable<A> = GestureTable(presses: seq<Press<A>>, dueHolds: seq<DueHold<A>>)

  // ----- looking a press up -----

  datatype Want = OfKey(vk: Vk) | HeldOf(vk: Vk) | ArmedAs(vk: Vk, id: nat) | WaitingAs(vk: Vk, id: nat)

  predicate Fits<A>(want: Want, p: Press<A>) {
    && p.vk == want.vk
    && match want
       case OfKey(_) => true
       case HeldOf(_) => p.phase.Held?
       case ArmedAs(_, id) => p.id == id
       case WaitingAs(_, id) => p.id == id && p.phase.TimerDue().Some?
  }

  function Find<A>(ps: seq<Press<A>>, want: Want): (found: Option<Press<A>>)
    ensures found.Some? ==> Fits(want, found.value) && found.value in ps
    ensures found.None? ==> forall p :: p in ps ==> !Fits(want, p)
  {
    if ps == [] then None else if Fits(want, ps[0]) then Some(ps[0]) else Find(ps[1..], want)
  }

  function Without<A>(ps: seq<Press<A>>, want: Want): (rest: seq<Press<A>>)
    ensures forall p :: p in rest ==> p in ps
  {
    if ps == [] then [] else if Fits(want, ps[0]) then ps[1..] else [ps[0]] + Without(ps[1..], want)
  }

  function Replaced<A>(ps: seq<Press<A>>, want: Want, other: Press<A>): seq<Press<A>> {
    if ps == [] then [] else if Fits(want, ps[0]) then [other] + ps[1..] else [ps[0]] + Replaced(ps[1..], want, other)
  }

  predicate IsHold<A>(h: DueHold<A>, vk: Vk, id: nat) {
    h.vk == vk && h.id == id
  }

  function FindHold<A>(hs: seq<DueHold<A>>, vk: Vk, id: nat): (found: Option<DueHold<A>>)
    ensures found.Some? ==> IsHold(found.value, vk, id) && found.value in hs
    ensures found.None? ==> forall h :: h in hs ==> !IsHold(h, vk, id)
  {
    if hs == [] then None else if IsHold(hs[0], vk, id) then Some(hs[0]) else FindHold(hs[1..], vk, id)
  }

  function WithoutHold<A>(hs: seq<DueHold<A>>, vk: Vk, id: nat): (rest: seq<DueHold<A>>)
    ensures forall h :: h in rest ==> h in hs
  {
    if hs == [] then [] else if IsHold(hs[0], vk, id) then hs[1..] else [hs[0]] + WithoutHold(hs[1..], vk, id)
  }

  function WithoutHolds<A>(hs: seq<DueHold<A>>, vk: Vk, id: nat): (rest: seq<DueHold<A>>)
    ensures forall h :: h in rest ==> h in hs && !IsHold(h, vk, id)
    ensures forall h :: h in hs && !IsHold(h, vk, id) ==> h in rest
    ensures |rest| <= |hs| && (|rest| == |hs| <==> FindHold(hs, vk, id).None?)
    ensures |rest| == |hs| ==> rest == hs
  {
    if hs == [] then [] else
    (if IsHold(hs[0], vk, id) then [] else [hs[0]]) + WithoutHolds(hs[1..], vk, id)
  }

  function ListOf<A>(option: Option<A>): seq<A> {
    if option.Some? then [option.value] else []
  }

  // ----- the operations -----

  /** Whether a press that `group` wins at `now` completes the window. */
  predicate Completes<A>(window: Window<A>, group: Option<GroupArming<A>>, now: nat) {
    && now < window.due
    && group.Some?
    && group.value.doubleTap.Some?
    && group.value.keys.SameAs(window.group.keys)
    && group.value.condition == window.group.condition
  }

  /** A Held press whose Hold's term has passed leaves that Hold to its timer. */
  function HoldLeft<A>(p: Press<A>, now: nat): seq<DueHold<A>> {
    if p.phase.Held? && p.phase.hold.Some? && now >= p.phase.hold.value.due
    then [DueHold(p.vk, p.id, p.phase.hold.value.due, p.phase.hold.value.action)]
    else []
  }

  datatype Ended<A> = Ended(table: GestureTable<A>, fired: seq<A>, completes: bool)

  /** What a new press of `vk` does to the earlier one. */
  function EndEarlier<A>(g: GestureTable<A>, vk: Vk, group: Option<GroupArming<A>>, now: nat): Ended<A> {
    match Find(g.presses, OfKey(vk))
    case None => Ended(g, [], false)
    case Some(p) =>
      var rest := Without(g.presses, OfKey(vk));
      match p.phase
      case AwaitSecond(window, deferredTap, _) =>
        if Completes(window, group, now) then Ended(g.(presses := rest), [window.action], true)
        else Ended(g.(presses := rest), ListOf(deferredTap), false)
      case Held(_, _, _) =>
        Ended(GestureTable(rest, g.dueHolds + HoldLeft(p, now)), [], false)
  }

  function TimedFrom<A>(gesture: Option<Gesture<A>>, now: nat): Option<Timed<A>> {
    if gesture.Some? then Some(Timed(now + gesture.value.term, gesture.value.action)) else None
  }

  function Armed<A>(vk: Vk, group: GroupArming<A>, now: nat, id: nat): Press<A> {
    Press(vk, id, Held(
      TimedFrom(group.tap, now),
      TimedFrom(group.hold, now),
      if group.doubleTap.Some?
      then Some(Window(now + group.doubleTap.value.term, group.doubleTap.value.action,
                       GroupKey(group.keys, group.condition)))
      else None))
  }

  datatype Pressed<A> = Pressed(table: GestureTable<A>, fired: seq<A>, holdDue: Option<nat>)

  /** A first key-down of `vk`, which `group` wins if it is a gesture group. */
  function PressOf<A>(g: GestureTable<A>, vk: Vk, group: Option<GroupArming<A>>, now: nat, id: nat): Pressed<A> {
    var ended := EndEarlier(g, vk, group, now);
    if ended.completes || group.None? then Pressed(ended.table, ended.fired, None)
    else
      var press := Armed(vk, group.value, now, id);
      Pressed(ended.table.(presses := ended.table.presses + [press]), ended.fired, press.phase.TimerDue())
  }

  function TapInTime<A>(p: Phase<A>, now: nat): Option<A>
    requires p.Held?
  {
    if p.tap.Some? && now < p.tap.value.due then Some(p.tap.value.action) else None
  }

  predicate WindowOpens<A>(p: Phase<A>, now: nat)
    requires p.Held?
  {
    p.double.Some? && now < p.double.value.due
  }

  /** The key-up of `vk`. */
  function ReleaseOf<A>(g: GestureTable<A>, vk: Vk, now: nat, passed: bool, id: nat): (GestureTable<A>, Released<A>) {
    match Find(g.presses, HeldOf(vk))
    case None => (g, Released(None, false, None))
    case Some(p) =>
      var rest := Without(g.presses, HeldOf(vk));
      if HoldLeft(p, now) != [] then
        (GestureTable(rest, g.dueHolds + HoldLeft(p, now)), Released(None, true, None))
      else
        var tap := TapInTime(p.phase, now);
        var bound := p.phase.hold.Some? || tap.Some?;
        if WindowOpens(p.phase, now) then
          var waiting := Press(vk, id, AwaitSecond(p.phase.double.value, tap, passed));
          (g.(presses := rest + [waiting]), Released(None, bound, waiting.phase.TimerDue()))
        else
          (g.(presses := rest), Released(tap, bound, None))
  }

  /** Whether a first key-down of `vk` ends the press `p` of another key. */
  predicate IsEndedBy<A>(p: Press<A>, vk: Vk, keys: KeyTable, now: nat) {
    && p.vk != vk
    && match p.phase
       case AwaitSecond(window, deferredTap, passed) =>
         if exists key :: key in window.group.keys.keys && key.Accepts(vk) then false
         else deferredTap.Some? || passed
       case Held(_, hold, _) =>
         keys.IsPassed(p.vk) && !(hold.Some? && now >= hold.value.due)
  }

  function Kept<A>(ps: seq<Press<A>>, vk: Vk, keys: KeyTable, now: nat): seq<Press<A>>
  {
    if ps == [] then [] else
    (if IsEndedBy(ps[0], vk, keys, now) then [] else [ps[0]]) + Kept(ps[1..], vk, keys, now)
  }

  function DeferredTap<A>(p: Press<A>): seq<A> {
    if p.phase.AwaitSecond? then ListOf(p.phase.deferredTap) else []
  }

  function EndedTaps<A>(ps: seq<Press<A>>, vk: Vk, keys: KeyTable, now: nat): seq<A> {
    if ps == [] then [] else
    (if IsEndedBy(ps[0], vk, keys, now) then DeferredTap(ps[0]) else []) + EndedTaps(ps[1..], vk, keys, now)
  }

  predicate IsClosed<A>(p: Press<A>, now: nat) {
    p.phase.AwaitSecond? && p.phase.deferredTap.Some? && p.phase.window.due <= now
  }

  /** The presses left after every Tap that waits for a window closed by
      `now` has fired. */
  function StillOpen<A>(ps: seq<Press<A>>, now: nat): seq<Press<A>>
  {
    if ps == [] then [] else (if IsClosed(ps[0], now) then [] else [ps[0]]) + StillOpen(ps[1..], now)
  }

  function ClosedTaps<A>(ps: seq<Press<A>>, now: nat): seq<A> {
    if ps == [] then [] else (if IsClosed(ps[0], now) then DeferredTap(ps[0]) else []) + ClosedTaps(ps[1..], now)
  }

  /** What the timer armed for `vk` as `id` would resolve, if that still waits. */
  function Resolved<A>(g: GestureTable<A>, vk: Vk, id: nat): Option<(GestureTable<A>, Timed<A>)> {
    match FindHold(g.dueHolds, vk, id)
    case Some(h) => Some((g.(dueHolds := WithoutHold(g.dueHolds, vk, id)), Timed(h.due, h.action)))
    case None =>
      match Find(g.presses, WaitingAs(vk, id))
      case Some(p) => Some((g.(presses := Without(g.presses, WaitingAs(vk, id))),
                            Timed(p.phase.TimerDue().value, p.phase.TimerAction().value)))
      case None => None
  }

  function TimerOf<A>(g: GestureTable<A>, vk: Vk, id: nat): (GestureTable<A>, seq<A>) {
    match Resolved(g, vk, id)
    case None => (g, [])
    case Some((rest, timed)) =>
      (rest.(presses := StillOpen(rest.presses, timed.due)),
       ClosedTaps(rest.presses, timed.due) + [timed.action])
  }

  predicate IsLiveIn<A>(g: GestureTable<A>, vk: Vk, id: nat) {
    FindHold(g.dueHolds, vk, id).Some? || Find(g.presses, WaitingAs(vk, id)).Some?
  }

  /** The timer armed for `vk` as `id` could not be started. */
  function ForgetOf<A>(g: GestureTable<A>, vk: Vk, id: nat): (GestureTable<A>, bool) {
    if FindHold(g.dueHolds, vk, id).Some? then (g.(dueHolds := WithoutHolds(g.dueHolds, vk, id)), true)
    else
      match Find(g.presses, ArmedAs(vk, id))
      case None => (g, false)
      case Some(p) =>
        if !p.phase.Held? then (g, false)
        else if p.phase.tap.None? && p.phase.double.None? then
          (g.(presses := Without(g.presses, ArmedAs(vk, id))), p.phase.hold.Some?)
        else
          (g.(presses := Replaced(g.presses, ArmedAs(vk, id), p.(phase := p.phase.(hold := None)))), p.phase.hold.Some?)
  }

  function NoGestures<A>(): GestureTable<A> {
    GestureTable([], [])
  }

  lemma {:induction false} FoundAt<A>(ps: seq<Press<A>>, want: Want, i: nat, other: Press<A>)
    requires i < |ps| && Fits(want, ps[i])
    requires forall j :: 0 <= j < i ==> !Fits(want, ps[j])
    ensures Find(ps, want) == Some(ps[i])
    ensures Without(ps, want) == ps[..i] + ps[i + 1..]
    ensures Replaced(ps, want, other) == ps[i := other]
  {
    if i > 0 {
      FoundAt(ps[1..], want, i - 1, other);
      WithoutHeadAt(ps, i);
      ReplacedHeadAt(ps, i, other);
    }
  }

  lemma WithoutHeadAt<A>(ps: seq<Press<A>>, i: nat)
    requires 0 < i < |ps|
    ensures [ps[0]] + (ps[1..][..i - 1] + ps[1..][i..]) == ps[..i] + ps[i + 1..]
  {}

  lemma ReplacedHeadAt<A>(ps: seq<Press<A>>, i: nat, other: Press<A>)
    requires 0 < i < |ps|
    ensures [ps[0]] + ps[1..][i - 1 := other] == ps[i := other]
  {}

  lemma {:induction false} HoldFoundAt<A>(hs: seq<DueHold<A>>, vk: Vk, id: nat, i: nat)
    requires i < |hs| && IsHold(hs[i], vk, id)
    requires forall j :: 0 <= j < i ==> !IsHold(hs[j], vk, id)
    ensures FindHold(hs, vk, id) == Some(hs[i])
    ensures WithoutHold(hs, vk, id) == hs[..i] + hs[i + 1..]
  {
    if i > 0 {
      HoldFoundAt(hs[1..], vk, id, i - 1);
      assert hs == [hs[0]] + hs[1..];
    }
  }

  /** The two lists, changed in place. */
  lemma DeferredTapOf<A>(p: Press<A>)
    ensures DeferredTap(p) == if p.phase.AwaitSecond? && p.phase.deferredTap.Some? then [p.phase.deferredTap.value] else []
  {}

  lemma OpenStep<A>(ps: seq<Press<A>>, now: nat)
    requires ps != []
    ensures StillOpen(ps, now) == (if IsClosed(ps[0], now) then [] else [ps[0]]) + StillOpen(ps[1..], now)
    ensures ClosedTaps(ps, now) == (if IsClosed(ps[0], now) then DeferredTap(ps[0]) else []) + ClosedTaps(ps[1..], now)
  {}

  lemma KeptStep<A>(ps: seq<Press<A>>, vk: Vk, keys: KeyTable, now: nat)
    requires ps != []
    ensures Kept(ps, vk, keys, now) == (if IsEndedBy(ps[0], vk, keys, now) then [] else [ps[0]]) + Kept(ps[1..], vk, keys, now)
    ensures EndedTaps(ps, vk, keys, now)
         == (if IsEndedBy(ps[0], vk, keys, now) then DeferredTap(ps[0]) else []) + EndedTaps(ps[1..], vk, keys, now)
  {}

  class Gestures<A> {
    var presses: seq<Press<A>>
    var dueHolds: seq<DueHold<A>>

    ghost function View(): GestureTable<A>
      reads this
    {
      GestureTable(presses, dueHolds)
    }

    constructor ()
      ensures View() == NoGestures()
    {
      presses, dueHolds := [], [];
    }

    method Position(want: Want) returns (index: nat)
      ensures index <= |presses|
      ensures index < |presses| ==> Find(presses, want) == Some(presses[index])
      ensures index < |presses| ==> Without(presses, want) == presses[..index] + presses[index + 1..]
      ensures index < |presses| ==> forall other :: Replaced(presses, want, other) == presses[index := other]
      ensures index == |presses| ==> Find(presses, want) == None
    {
      index := 0;
      while index < |presses| && !Fits(want, presses[index])
        invariant index <= |presses|
        invariant forall j :: 0 <= j < index ==> !Fits(want, presses[j])
      {
        index := index + 1;
      }
      if index < |presses| {
        forall other ensures Replaced(presses, want, other) == presses[index := other] {
          FoundAt(presses, want, index, other);
        }
        FoundAt(presses, want, index, presses[index]);
      }
    }

    method Remove(index: nat) returns (removed: Press<A>)
      requires index < |presses|
      modifies this`presses
      ensures removed == old(presses)[index]
      ensures presses == old(presses)[..index] + old(presses)[index + 1..]
    {
      removed := presses[index];
      presses := presses[..index] + presses[index + 1..];
    }

    method PressKey(vk: Vk, group: Option<GroupArming<A>>, now: nat, id: nat) returns (fired: seq<A>, holdDue: Option<nat>)
      modifies this
      ensures var r := PressOf(old(View()), vk, group, now, id);
              View() == r.table && fired == r.fired && holdDue == r.holdDue
    {
      fired, holdDue := [], None;
      var index := Position(OfKey(vk));
      if index < |presses| {
        var earlier := Remove(index);
        match earlier.phase
        case AwaitSecond(window, deferredTap, _) =>
          if Completes(window, group, now) {
            fired := [window.action];
            return;
          }
          if deferredTap.Some? {
            fired := [deferredTap.value];
          }
        case Held(_, hold, _) =>
          if hold.Some? && now >= hold.value.due {
            dueHolds := dueHolds + [DueHold(vk, earlier.id, hold.value.due, hold.value.action)];
          }
      }
      if group.None? {
        return;
      }
      var press := Armed(vk, group.value, now, id);
      holdDue := press.phase.TimerDue();
      presses := presses + [press];
    }

    method ReleaseKey(vk: Vk, now: nat, passed: bool, id: nat) returns (released: Released<A>)
      modifies this
      ensures (View(), released) == ReleaseOf(old(View()), vk, now, passed, id)
    {
      released := Released(None, false, None);
      var index := Position(HeldOf(vk));
      if index == |presses| {
        return;
      }
      var press := Remove(index);
      var Held(tap, hold, double) := press.phase;
      if hold.Some? {
        released := released.(gestureBound := true);
        if now >= hold.value.due {
          dueHolds := dueHolds + [DueHold(vk, press.id, hold.value.due, hold.value.action)];
          return;
        }
      }
      var tapNow := if tap.Some? && now < tap.value.due then Some(tap.value.action) else None;
      released := released.(gestureBound := released.gestureBound || tapNow.Some?);
      if double.Some? && now < double.value.due {
        released := released.(windowDue := if tapNow.Some? then Some(double.value.due) else None);
        presses := presses + [Press(vk, id, AwaitSecond(double.value, tapNow, passed))];
      } else {
        released := released.(fired := tapNow);
      }
    }

    method Cancels(press: Press<A>, vk: Vk, keys: KeyState, now: nat) returns (cancel: bool)
      requires keys.Valid()
      ensures cancel == IsEndedBy(press, vk, keys.View(), now)
    {
      if press.vk == vk {
        return false;
      }
      match press.phase
      case AwaitSecond(window, deferredTap, passed) =>
        if exists key :: key in window.group.keys.keys && key.Accepts(vk) {
          return false;
        }
        return deferredTap.Some? || passed;
      case Held(_, hold, _) =>
        return press.vk < 256 && keys.lastDown[press.vk] == Passed && !(hold.Some? && now >= hold.value.due);
    }

    method OtherKeyDown(vk: Vk, keys: KeyState, now: nat) returns (fired: seq<A>)
      requires keys.Valid()
      modifies this`presses
      ensures View() == old(View()).(presses := Kept(old(presses), vk, keys.View(), now))
      ensures fired == EndedTaps(old(presses), vk, keys.View(), now)
    {
      fired := [];
      var index := 0;
      ghost var table, kept, rest := keys.View(), [], presses;
      assert presses == kept + rest;
      while index < |presses|
        invariant presses == kept + rest && index == |kept|
        invariant Kept(old(presses), vk, table, now) == kept + Kept(rest, vk, table, now)
        invariant EndedTaps(old(presses), vk, table, now) == fired + EndedTaps(rest, vk, table, now)
        decreases |rest|
      {
        hide Kept, EndedTaps, IsEndedBy, DeferredTap;
        KeptStep(rest, vk, table, now);
        SplitAt(kept, rest);
        var press := presses[index];
        DeferredTapOf(press);
        ghost var tail, tap := rest[1..], if IsEndedBy(press, vk, table, now) then DeferredTap(press) else [];
        Regroup(fired, tap, EndedTaps(tail, vk, table, now));
        Regroup(kept, [press], Kept(tail, vk, table, now));
        var cancel := Cancels(press, vk, keys, now);
        if !cancel {
          kept := kept + [press];
          index := index + 1;
        } else {
          var removed := Remove(index);
          if removed.phase.AwaitSecond? && removed.phase.deferredTap.Some? {
            fired := fired + [removed.phase.deferredTap.value];
          }
        }
        rest := tail;
      }
    }

    method OnTimer(vk: Vk, id: nat) returns (fired: seq<A>)
      modifies this
      ensures (View(), fired) == TimerOf(old(View()), vk, id)
    {
      fired := [];
      var timed: Timed<A>;
      var h := 0;
      while h < |dueHolds| && !IsHold(dueHolds[h], vk, id)
        invariant h <= |dueHolds|
        invariant forall j :: 0 <= j < h ==> !IsHold(dueHolds[j], vk, id)
      {
        h := h + 1;
      }
      if h < |dueHolds| {
        HoldFoundAt(dueHolds, vk, id, h);
        timed := Timed(dueHolds[h].due, dueHolds[h].action);
        dueHolds := dueHolds[..h] + dueHolds[h + 1..];
      } else {
        var index := Position(WaitingAs(vk, id));
        if index == |presses| {
          return;
        }
        var press := Remove(index);
        timed := Timed(press.phase.TimerDue().value, press.phase.TimerAction().value);
      }
      fired := FireClosedWindows(timed.due);
      fired := fired + [timed.action];
    }

    method FireClosedWindows(now: nat) returns (fired: seq<A>)
      modifies this`presses
      ensures presses == StillOpen(old(presses), now)
      ensures fired == ClosedTaps(old(presses), now)
    {
      fired := [];
      var index := 0;
      ghost var open, rest := [], presses;
      assert presses == open + rest;
      while index < |presses|
        invariant presses == open + rest && index == |open|
        invariant StillOpen(old(presses), now) == open + StillOpen(rest, now)
        invariant ClosedTaps(old(presses), now) == fired + ClosedTaps(rest, now)
        decreases |rest|
      {
        hide StillOpen, ClosedTaps, DeferredTap;
        OpenStep(rest, now);
        SplitAt(open, rest);
        var press := presses[index];
        DeferredTapOf(press);
        ghost var tail := rest[1..];
        Regroup(fired, DeferredTap(press), ClosedTaps(tail, now));
        Regroup(open, [press], StillOpen(tail, now));
        if !IsClosed(press, now) {
          open := open + [press];
          index := index + 1;
        } else {
          var removed := Remove(index);
          fired := fired + [removed.phase.deferredTap.value];
        }
        rest := tail;
      }
    }

    method IsLive(vk: Vk, id: nat) returns (live: bool)
      ensures live == IsLiveIn(View(), vk, id)
    {
      live := exists h :: 0 <= h < |dueHolds| && IsHold(dueHolds[h], vk, id);
      if !live {
        var index := Position(WaitingAs(vk, id));
        live := index < |presses|;
      }
    }

    method Forget(vk: Vk, id: nat) returns (dropped: bool)
      modifies this
      ensures (View(), dropped) == ForgetOf(old(View()), vk, id)
    {
      var count := |dueHolds|;
      dueHolds := WithoutHolds(dueHolds, vk, id);
      if |dueHolds| != count {
        return true;
      }
      var index := Position(ArmedAs(vk, id));
      if index == |presses| || !presses[index].phase.Held? {
        return false;
      }
      var press := presses[index];
      dropped := press.phase.hold.Some?;
      presses := presses[index := press.(phase := press.phase.(hold := None))];
      if press.phase.tap.None? && press.phase.double.None? {
        var _ := Remove(index);
      }
    }

    method Clear()
      modifies this
      ensures View() == NoGestures()
    {
      presses, dueHolds := [], [];
    }
  }
}
