/** One gesture per press: every armed press ends exactly once, as fired,
    dropped or still pending. */
module GestureFates {
  import opened Options
  import opened Modifiers
  import opened KeyTables
  import opened Winners
  import opened GestureTables
  import opened GestureFacts
  import opened RipeGestures

  /** An action marked with the arming it belongs to. The machine does not look
      at actions, so what holds of marked ones holds of any. */
  datatype Tagged<A> = Tagged(arm: nat, action: A)

  datatype GestureOp<A> =
    | Pressing(vk: Vk, group: Option<GroupArming<A>>, now: nat, id: nat)
    | Releasing(vk: Vk, now: nat, passed: bool, id: nat)
    | OtherKey(vk: Vk, keys: KeyTable, now: nat)
    | TimerRuns(vk: Vk, id: nat)
    | TimerRefused(vk: Vk, id: nat)
    | Clearing

  function Apply<A>(g: GestureTable<A>, op: GestureOp<A>): (GestureTable<A>, seq<A>) {
    match op
    case Pressing(vk, group, now, id) => var r := PressOf(g, vk, group, now, id); (r.table, r.fired)
    case Releasing(vk, now, passed, id) => var (table, released) := ReleaseOf(g, vk, now, passed, id); (table, ListOf(released.fired))
    case OtherKey(vk, keys, now) => (g.(presses := Kept(g.presses, vk, keys, now)), EndedTaps(g.presses, vk, keys, now))
    case TimerRuns(vk, id) => TimerOf(g, vk, id)
    case TimerRefused(vk, id) => (ForgetOf(g, vk, id).0, [])
    case Clearing => (NoGestures(), [])
  }

  // ----- the arming a pending press belongs to -----

  /** The arming of a press: that of any of its gestures. */
  function ArmOf<A>(p: Press<Tagged<A>>): seq<nat> {
    match p.phase
    case AwaitSecond(window, _, _) => [window.action.arm]
    case Held(tap, hold, double) =>
      if tap.Some? then [tap.value.action.arm]
      else if hold.Some? then [hold.value.action.arm]
      else if double.Some? then [double.value.action.arm]
      else []
  }

  /** All its gestures belong to one arming. */
  ghost predicate OneArm<A>(p: Press<Tagged<A>>) {
    match p.phase
    case AwaitSecond(window, deferredTap, _) => deferredTap.Some? ==> deferredTap.value.arm == window.action.arm
    case Held(tap, hold, double) =>
      && (tap.Some? ==> ArmOf(p) == [tap.value.action.arm])
      && (hold.Some? ==> ArmOf(p) == [hold.value.action.arm])
      && (double.Some? ==> ArmOf(p) == [double.value.action.arm])
  }

  ghost predicate OneArmEach<A>(ps: seq<Press<Tagged<A>>>) {
    forall p :: p in ps ==> OneArm(p)
  }

  function ArmsOf<A>(ps: seq<Press<Tagged<A>>>): seq<nat> {
    if ps == [] then [] else ArmOf(ps[0]) + ArmsOf(ps[1..])
  }

  function HoldArms<A>(hs: seq<DueHold<Tagged<A>>>): seq<nat> {
    if hs == [] then [] else [hs[0].action.arm] + HoldArms(hs[1..])
  }

  /** How many pending presses belong to the arming `n`. */
  ghost function Pending<A>(g: GestureTable<Tagged<A>>, n: nat): nat {
    Count(ArmsOf(g.presses), n) + Count(HoldArms(g.dueHolds), n)
  }

  function FiredArms<A>(fired: seq<Tagged<A>>): seq<nat> {
    if fired == [] then [] else [fired[0].arm] + FiredArms(fired[1..])
  }

  // ----- what is dropped -----

  function EndedArms<A>(ps: seq<Press<Tagged<A>>>, vk: Vk, keys: KeyTable, now: nat): seq<nat> {
    if ps == [] then [] else
    var ended := if IsEndedBy(ps[0], vk, keys, now) && DeferredTap(ps[0]) == [] then ArmOf(ps[0]) else [];
    ended + EndedArms(ps[1..], vk, keys, now)
  }

  function RefusedHoldArms<A>(hs: seq<DueHold<Tagged<A>>>, vk: Vk, id: nat): seq<nat> {
    if hs == [] then [] else (if IsHold(hs[0], vk, id) then [hs[0].action.arm] else []) + RefusedHoldArms(hs[1..], vk, id)
  }

  function ReplacedArms<A>(p: Press<Tagged<A>>, group: Option<GroupArming<Tagged<A>>>, now: nat): seq<nat> {
    if p.phase.AwaitSecond?
    then if Completes(p.phase.window, group, now) || p.phase.deferredTap.Some? then [] else ArmOf(p)
    else if HoldLeft(p, now) != [] then [] else ArmOf(p)
  }

  /** The armings an operation drops without firing: a press that a new press
      of its key replaces before its Hold is due and with no Tap waiting; a
      key-up too late for every gesture left; another key's press, under the
      owner's rule; a refused timer of a press with nothing but its Hold; and
      everything pending at a reset. */
  function DroppedArms<A>(g: GestureTable<Tagged<A>>, op: GestureOp<Tagged<A>>): seq<nat> {
    match op
    case Pressing(vk, group, now, _) =>
      (match Find(g.presses, OfKey(vk))
       case None => []
       case Some(p) => ReplacedArms(p, group, now))
    case Releasing(vk, now, _, _) =>
      (match Find(g.presses, HeldOf(vk))
       case None => []
       case Some(p) =>
         if HoldLeft(p, now) != [] || TapInTime(p.phase, now).Some? || WindowOpens(p.phase, now) then [] else ArmOf(p))
    case OtherKey(vk, keys, now) => EndedArms(g.presses, vk, keys, now)
    case TimerRuns(_, _) => []
    case TimerRefused(vk, id) =>
      if FindHold(g.dueHolds, vk, id).Some? then RefusedHoldArms(g.dueHolds, vk, id)
      else
        (match Find(g.presses, ArmedAs(vk, id))
         case None => []
         case Some(p) =>
           if p.phase.Held? && p.phase.tap.None? && p.phase.double.None? then ArmOf(p) else [])
    case Clearing => ArmsOf(g.presses) + HoldArms(g.dueHolds)
  }

  /** The arming an operation leaves behind under its own number. */
  function ArmedArms<A>(g: GestureTable<Tagged<A>>, op: GestureOp<Tagged<A>>): seq<nat> {
    if op.Pressing? && !EndEarlier(g, op.vk, op.group, op.now).completes && op.group.Some?
    then ArmOf(Armed(op.vk, op.group.value, op.now, op.id)) else []
  }

  // ----- lists -----

  lemma {:induction false} ArmsConcat<A>(ps: seq<Press<Tagged<A>>>, qs: seq<Press<Tagged<A>>>, n: nat)
    ensures Count(ArmsOf(ps + qs), n) == Count(ArmsOf(ps), n) + Count(ArmsOf(qs), n)
  {
    if ps == [] {
      assert ps + qs == qs;
    } else {
      assert (ps + qs)[1..] == ps[1..] + qs;
      ArmsConcat(ps[1..], qs, n);
      CountConcat(ArmOf(ps[0]), ArmsOf(ps[1..]), n);
      CountConcat(ArmOf(ps[0]), ArmsOf(ps[1..] + qs), n);
    }
  }

  lemma {:induction false} HoldArmsAppend<A>(hs: seq<DueHold<Tagged<A>>>, h: DueHold<Tagged<A>>, n: nat)
    ensures Count(HoldArms(hs + [h]), n) == Count(HoldArms(hs), n) + (if h.action.arm == n then 1 else 0)
  {
    if hs == [] {
      assert hs + [h] == [h];
    } else {
      assert (hs + [h])[1..] == hs[1..] + [h];
      HoldArmsAppend(hs[1..], h, n);
      CountConcat([hs[0].action.arm], HoldArms(hs[1..]), n);
      CountConcat([hs[0].action.arm], HoldArms(hs[1..] + [h]), n);
    }
  }

  lemma {:induction false} FiredConcat<A>(a: seq<Tagged<A>>, b: seq<Tagged<A>>, n: nat)
    ensures Count(FiredArms(a + b), n) == Count(FiredArms(a), n) + Count(FiredArms(b), n)
  {
    if a == [] {
      assert a + b == b;
    } else {
      assert (a + b)[1..] == a[1..] + b;
      FiredConcat(a[1..], b, n);
      CountConcat([a[0].arm], FiredArms(a[1..]), n);
      CountConcat([a[0].arm], FiredArms(a[1..] + b), n);
    }
  }

  lemma {:induction false} WithoutArm<A>(ps: seq<Press<Tagged<A>>>, want: Want, n: nat)
    requires Find(ps, want).Some?
    ensures Count(ArmsOf(ps), n) == Count(ArmsOf(Without(ps, want)), n) + Count(ArmOf(Find(ps, want).value), n)
  {
    CountConcat(ArmOf(ps[0]), ArmsOf(ps[1..]), n);
    if !Fits(want, ps[0]) {
      var rest := Without(ps[1..], want);
      WithoutArm(ps[1..], want, n);
      assert Without(ps, want)[1..] == rest;
      CountConcat(ArmOf(ps[0]), ArmsOf(rest), n);
    }
  }

  lemma {:induction false} ReplacedArm<A>(ps: seq<Press<Tagged<A>>>, want: Want, other: Press<Tagged<A>>, n: nat)
    requires Find(ps, want).Some? && ArmOf(other) == ArmOf(Find(ps, want).value)
    ensures Count(ArmsOf(Replaced(ps, want, other)), n) == Count(ArmsOf(ps), n)
  {
    CountConcat(ArmOf(ps[0]), ArmsOf(ps[1..]), n);
    var replaced := Replaced(ps, want, other);
    if Fits(want, ps[0]) {
      assert replaced[1..] == ps[1..];
    } else {
      ReplacedArm(ps[1..], want, other, n);
      assert replaced[1..] == Replaced(ps[1..], want, other);
    }
    CountConcat(ArmOf(replaced[0]), ArmsOf(replaced[1..]), n);
  }

  lemma {:induction false} WithoutHoldArm<A>(hs: seq<DueHold<Tagged<A>>>, vk: Vk, id: nat, n: nat)
    requires FindHold(hs, vk, id).Some?
    ensures Count(HoldArms(hs), n) == Count(HoldArms(WithoutHold(hs, vk, id)), n)
                                    + (if FindHold(hs, vk, id).value.action.arm == n then 1 else 0)
  {
    CountConcat([hs[0].action.arm], HoldArms(hs[1..]), n);
    if !IsHold(hs[0], vk, id) {
      var rest := WithoutHold(hs[1..], vk, id);
      WithoutHoldArm(hs[1..], vk, id, n);
      assert WithoutHold(hs, vk, id)[1..] == rest;
      CountConcat([hs[0].action.arm], HoldArms(rest), n);
    }
  }

  lemma {:induction false} RefusedHolds<A>(hs: seq<DueHold<Tagged<A>>>, vk: Vk, id: nat, n: nat)
    ensures Count(HoldArms(hs), n) == Count(HoldArms(WithoutHolds(hs, vk, id)), n) + Count(RefusedHoldArms(hs, vk, id), n)
  {
    if hs != [] {
      var rest := WithoutHolds(hs[1..], vk, id);
      RefusedHolds(hs[1..], vk, id, n);
      CountConcat([hs[0].action.arm], HoldArms(hs[1..]), n);
      CountConcat([hs[0].action.arm], HoldArms(rest), n);
      CountConcat([hs[0].action.arm], RefusedHoldArms(hs[1..], vk, id), n);
      if IsHold(hs[0], vk, id) {
        assert WithoutHolds(hs, vk, id) == rest;
      } else {
        assert WithoutHolds(hs, vk, id)[1..] == rest;
        assert RefusedHoldArms(hs, vk, id) == RefusedHoldArms(hs[1..], vk, id);
      }
    }
  }

  lemma TapArm<A>(p: Press<Tagged<A>>, n: nat)
    requires OneArm(p) && DeferredTap(p) != []
    ensures FiredArms(DeferredTap(p)) == ArmOf(p)
  {
    assert FiredArms(DeferredTap(p)) == [DeferredTap(p)[0].arm] + FiredArms(DeferredTap(p)[1..]);
  }

  lemma {:induction false} KeptArms<A>(ps: seq<Press<Tagged<A>>>, vk: Vk, keys: KeyTable, now: nat, n: nat)
    requires OneArmEach(ps)
    ensures Count(ArmsOf(ps), n) == Count(ArmsOf(Kept(ps, vk, keys, now)), n)
                                  + Count(FiredArms(EndedTaps(ps, vk, keys, now)), n)
                                  + Count(EndedArms(ps, vk, keys, now), n)
  {
    hide IsEndedBy, ArmOf, OneArm;
    if ps != [] {
      var rest := ps[1..];
      KeptArms(rest, vk, keys, now, n);
      CountConcat(ArmOf(ps[0]), ArmsOf(rest), n);
      var kept, taps, arms := Kept(rest, vk, keys, now), EndedTaps(rest, vk, keys, now), EndedArms(rest, vk, keys, now);
      if !IsEndedBy(ps[0], vk, keys, now) {
        assert Kept(ps, vk, keys, now)[1..] == kept;
        assert EndedTaps(ps, vk, keys, now) == taps && EndedArms(ps, vk, keys, now) == arms;
        CountConcat(ArmOf(ps[0]), ArmsOf(kept), n);
      } else {
        assert Kept(ps, vk, keys, now) == kept;
        if DeferredTap(ps[0]) == [] {
          assert EndedTaps(ps, vk, keys, now) == taps;
          CountConcat(ArmOf(ps[0]), arms, n);
        } else {
          assert EndedArms(ps, vk, keys, now) == arms;
          TapArm(ps[0], n);
          FiredConcat(DeferredTap(ps[0]), taps, n);
        }
      }
    }
  }

  lemma {:induction false} StillOpenArms<A>(ps: seq<Press<Tagged<A>>>, due: nat, n: nat)
    requires OneArmEach(ps)
    ensures Count(ArmsOf(ps), n) == Count(ArmsOf(StillOpen(ps, due)), n) + Count(FiredArms(ClosedTaps(ps, due)), n)
  {
    hide ArmOf, OneArm;
    if ps != [] {
      var rest := ps[1..];
      StillOpenArms(rest, due, n);
      CountConcat(ArmOf(ps[0]), ArmsOf(rest), n);
      var open, taps := StillOpen(rest, due), ClosedTaps(rest, due);
      if !IsClosed(ps[0], due) {
        assert StillOpen(ps, due)[1..] == open;
        assert ClosedTaps(ps, due) == taps;
        CountConcat(ArmOf(ps[0]), ArmsOf(open), n);
      } else {
        assert StillOpen(ps, due) == open;
        TapArm(ps[0], n);
        FiredConcat(DeferredTap(ps[0]), taps, n);
      }
    }
  }

  // ----- one operation -----

  /** What goes in comes out: pending before and newly armed is pending after,
      fired and dropped. */
  ghost predicate Balanced<A>(before: GestureTable<Tagged<A>>, after: GestureTable<Tagged<A>>, armed: seq<nat>, fired: seq<Tagged<A>>, dropped: seq<nat>, n: nat) {
    Pending(after, n) + Count(FiredArms(fired), n) + Count(dropped, n) == Pending(before, n) + Count(armed, n)
  }

  lemma FiredOne<A>(x: Tagged<A>)
    ensures FiredArms([x]) == [x.arm]
  {
    assert FiredArms([x]) == [x.arm] + FiredArms([x][1..]);
  }

  lemma NothingFired<A>()
    ensures FiredArms<A>([]) == []
  {}

  lemma EndAwaitingBalance<A>(g: GestureTable<Tagged<A>>, p: Press<Tagged<A>>, vk: Vk, group: Option<GroupArming<Tagged<A>>>, now: nat, n: nat)
    requires Find(g.presses, OfKey(vk)) == Some(p) && p.phase.AwaitSecond? && OneArm(p)
    ensures var ended := EndEarlier(g, vk, group, now);
            Balanced(g, ended.table, [], ended.fired, ReplacedArms(p, group, now), n)
  {
    hide Completes, Find, Without, ArmsOf, HoldArms, FiredArms;
    WithoutArm(g.presses, OfKey(vk), n);
    NothingFired<A>();
    FiredOne(p.phase.window.action);
    if p.phase.deferredTap.Some? {
      FiredOne(p.phase.deferredTap.value);
    }
  }

  lemma EndHeldBalance<A>(g: GestureTable<Tagged<A>>, p: Press<Tagged<A>>, vk: Vk, group: Option<GroupArming<Tagged<A>>>, now: nat, n: nat)
    requires Find(g.presses, OfKey(vk)) == Some(p) && p.phase.Held? && OneArm(p)
    ensures var ended := EndEarlier(g, vk, group, now);
            Balanced(g, ended.table, [], ended.fired, ReplacedArms(p, group, now), n)
  {
    WithoutArm(g.presses, OfKey(vk), n);
    if HoldLeft(p, now) != [] {
      HoldArmsAppend(g.dueHolds, HoldLeft(p, now)[0], n);
    } else {
      assert g.dueHolds + HoldLeft(p, now) == g.dueHolds;
    }
  }

  lemma EndEarlierBalance<A>(g: GestureTable<Tagged<A>>, vk: Vk, group: Option<GroupArming<Tagged<A>>>, now: nat, id: nat, n: nat)
    requires OneArmEach(g.presses)
    ensures var ended := EndEarlier(g, vk, group, now);
            Balanced(g, ended.table, [], ended.fired, DroppedArms(g, Pressing(vk, group, now, id)), n)
  {
    var found := Find(g.presses, OfKey(vk));
    hide ReplacedArms, OneArm, Balanced;
    if found.Some? {
      if found.value.phase.Held? {
        EndHeldBalance(g, found.value, vk, group, now, n);
      } else {
        EndAwaitingBalance(g, found.value, vk, group, now, n);
      }
    } else {
      NothingBalances(g, n);
    }
  }

  lemma NothingBalances<A>(g: GestureTable<Tagged<A>>, n: nat)
    ensures Balanced(g, g, [], [], [], n)
  {}

  lemma PressBalance<A>(g: GestureTable<Tagged<A>>, vk: Vk, group: Option<GroupArming<Tagged<A>>>, now: nat, id: nat, n: nat)
    requires OneArmEach(g.presses)
    ensures var op := Pressing(vk, group, now, id);
            Balanced(g, Apply(g, op).0, ArmedArms(g, op), Apply(g, op).1, DroppedArms(g, op), n)
  {
    EndEarlierBalance(g, vk, group, now, id, n);
    hide EndEarlier, DroppedArms, ArmOf, Armed;
    var ended := EndEarlier(g, vk, group, now);
    if !ended.completes && group.Some? {
      var p := Armed(vk, group.value, now, id);
      ArmsConcat(ended.table.presses, [p], n);
      assert ArmsOf([p]) == ArmOf(p) + ArmsOf([p][1..]);
      assert ArmsOf([p]) == ArmOf(p);
    }
  }

  lemma ReleaseBalance<A>(g: GestureTable<Tagged<A>>, vk: Vk, now: nat, passed: bool, id: nat, n: nat)
    requires OneArmEach(g.presses)
    ensures var op := Releasing(vk, now, passed, id);
            Balanced(g, Apply(g, op).0, [], Apply(g, op).1, DroppedArms(g, op), n)
  {
    match Find(g.presses, HeldOf(vk))
    case None =>
    case Some(p) =>
      WithoutArm(g.presses, HeldOf(vk), n);
      var rest := Without(g.presses, HeldOf(vk));
      if HoldLeft(p, now) != [] {
        HoldArmsAppend(g.dueHolds, HoldLeft(p, now)[0], n);
      } else if WindowOpens(p.phase, now) {
        var waiting := Press(vk, id, AwaitSecond(p.phase.double.value, TapInTime(p.phase, now), passed));
        ArmsConcat(rest, [waiting], n);
        assert ArmsOf([waiting]) == ArmOf(waiting) + ArmsOf([waiting][1..]);
        assert ArmsOf([waiting]) == ArmOf(p);
      } else if TapInTime(p.phase, now).Some? {
        FiredOne(TapInTime(p.phase, now).value);
      }
  }

  lemma TimerBalance<A>(g: GestureTable<Tagged<A>>, vk: Vk, id: nat, n: nat)
    requires OneArmEach(g.presses)
    ensures Balanced(g, TimerOf(g, vk, id).0, [], TimerOf(g, vk, id).1, [], n)
  {
    hide WithoutHold, Without, Find, FindHold, ArmsOf, HoldArms, StillOpen, ClosedTaps;
    match Resolved(g, vk, id)
    case None =>
    case Some((rest, timed)) =>
      match FindHold(g.dueHolds, vk, id) {
        case Some(h) =>
          WithoutHoldArm(g.dueHolds, vk, id, n);
        case None =>
          var p := Find(g.presses, WaitingAs(vk, id)).value;
          WithoutArm(g.presses, WaitingAs(vk, id), n);
          assert OneArm(p) && ArmOf(p) == [timed.action.arm];
      }
      FiredOne(timed.action);
      StillOpenArms(rest.presses, timed.due, n);
      FiredConcat(ClosedTaps(rest.presses, timed.due), [timed.action], n);
  }

  lemma RefusedBalance<A>(g: GestureTable<Tagged<A>>, vk: Vk, id: nat, n: nat)
    requires OneArmEach(g.presses)
    ensures Balanced(g, ForgetOf(g, vk, id).0, [], [], DroppedArms(g, TimerRefused(vk, id)), n)
  {
    if FindHold(g.dueHolds, vk, id).Some? {
      RefusedHolds(g.dueHolds, vk, id, n);
    } else {
      match Find(g.presses, ArmedAs(vk, id))
      case None =>
      case Some(p) =>
        if p.phase.Held? {
          WithoutArm(g.presses, ArmedAs(vk, id), n);
          var other := p.(phase := p.phase.(hold := None));
          if p.phase.tap.Some? || p.phase.double.Some? {
            assert OneArm(p) && ArmOf(other) == ArmOf(p);
            ReplacedArm(g.presses, ArmedAs(vk, id), other, n);
          }
        }
    }
  }

  lemma OpBalance<A>(g: GestureTable<Tagged<A>>, op: GestureOp<Tagged<A>>, n: nat)
    requires OneArmEach(g.presses)
    ensures Balanced(g, Apply(g, op).0, ArmedArms(g, op), Apply(g, op).1, DroppedArms(g, op), n)
  {
    match op
    case Pressing(vk, group, now, id) => PressBalance(g, vk, group, now, id, n);
    case Releasing(vk, now, passed, id) => ReleaseBalance(g, vk, now, passed, id, n);
    case OtherKey(vk, keys, now) => KeptArms(g.presses, vk, keys, now, n);
    case TimerRuns(vk, id) => TimerBalance(g, vk, id, n);
    case TimerRefused(vk, id) => RefusedBalance(g, vk, id, n);
    case Clearing => CountConcat(ArmsOf(g.presses), HoldArms(g.dueHolds), n);
  }

  // ----- whole runs -----

  /** A group whose gestures are all marked with one arming. */
  ghost predicate MarkedAs<A>(group: GroupArming<Tagged<A>>, n: nat) {
    && (group.tap.Some? ==> group.tap.value.action.arm == n)
    && (group.hold.Some? ==> group.hold.value.action.arm == n)
    && (group.doubleTap.Some? ==> group.doubleTap.value.action.arm == n)
  }

  function NumberOf<A>(op: GestureOp<A>, lastId: nat): nat {
    match op
    case Pressing(_, _, _, id) => id
    case Releasing(_, _, _, id) => id
    case _ => lastId
  }

  /** Presses and releases come with new numbers, and a press's gestures are
      marked with its own. */
  ghost predicate Numbered<A>(op: GestureOp<Tagged<A>>, lastId: nat) {
    match op
    case Pressing(_, group, _, id) => lastId < id && (group.Some? ==> MarkedAs(group.value, id))
    case Releasing(_, _, _, id) => lastId < id
    case _ => true
  }

  ghost predicate NumberedRun<A>(ops: seq<GestureOp<Tagged<A>>>, lastId: nat) {
    ops == [] || (Numbered(ops[0], lastId) && NumberedRun(ops[1..], NumberOf(ops[0], lastId)))
  }

  ghost function NumberAfter<A>(ops: seq<GestureOp<A>>, lastId: nat): nat {
    if ops == [] then lastId else NumberAfter(ops[1..], NumberOf(ops[0], lastId))
  }

  /** Everything that was armed, fired and dropped in a run. */
  datatype Ledger<A> = Ledger(table: GestureTable<Tagged<A>>, armed: seq<nat>, fired: seq<Tagged<A>>, dropped: seq<nat>)

  function NewLedger<A>(): Ledger<A> {
    Ledger(NoGestures(), [], [], [])
  }

  function Book<A>(l: Ledger<A>, op: GestureOp<Tagged<A>>): Ledger<A> {
    var (table, fired) := Apply(l.table, op);
    Ledger(table, l.armed + ArmedArms(l.table, op), l.fired + fired, l.dropped + DroppedArms(l.table, op))
  }

  function Books<A>(l: Ledger<A>, ops: seq<GestureOp<Tagged<A>>>): Ledger<A>
    decreases |ops|
  {
    if ops == [] then l else Books(Book(l, ops[0]), ops[1..])
  }

  /** The books balance for the arming `n`, which was armed at most once. */
  ghost predicate InBalance<A>(l: Ledger<A>, n: nat) {
    && Pending(l.table, n) + Count(FiredArms(l.fired), n) + Count(l.dropped, n) == Count(l.armed, n)
    && Count(l.armed, n) <= 1
  }

  ghost predicate LedgerInv<A>(l: Ledger<A>, lastId: nat) {
    && TableInv(l.table, lastId)
    && OneArmEach(l.table.presses)
    && (forall n :: n in l.armed ==> n <= lastId)
  }

  lemma OneArmKept<A>(g: GestureTable<Tagged<A>>, op: GestureOp<Tagged<A>>, lastId: nat)
    requires TableInv(g, lastId) && OneArmEach(g.presses) && Numbered(op, lastId)
    ensures TableInv(Apply(g, op).0, NumberOf(op, lastId)) && OneArmEach(Apply(g, op).0.presses)
  {
    match op
    case Pressing(vk, group, now, id) =>
      EndEarlierInv(g, vk, group, now, lastId);
      PressInv(g, vk, group, now, id, lastId);
    case Releasing(vk, now, passed, id) =>
      ReleaseInv(g, vk, now, passed, id, lastId);
      var found := Find(g.presses, HeldOf(vk));
      if found.Some? {
        assert OneArm(found.value);
      }
    case OtherKey(vk, keys, now) => KeptInv(g, vk, keys, now, lastId);
    case TimerRuns(vk, id) => TimerInv(g, vk, id, lastId);
    case TimerRefused(vk, id) =>
      ForgetInv(g, vk, id, lastId);
      var found := Find(g.presses, ArmedAs(vk, id));
      if found.Some? && found.value.phase.Held? {
        ReplacedFacts(g.presses, ArmedAs(vk, id), found.value.(phase := found.value.phase.(hold := None)));
      }
    case Clearing =>
  }

  lemma {:induction false} CountAbsent<A>(s: seq<A>, x: A)
    requires x !in s
    ensures Count(s, x) == 0
  {
    if s != [] {
      CountAbsent(s[1..], x);
    }
  }

  lemma BookKeeps<A>(l: Ledger<A>, op: GestureOp<Tagged<A>>, lastId: nat, n: nat)
    requires LedgerInv(l, lastId) && InBalance(l, n) && Numbered(op, lastId)
    ensures LedgerInv(Book(l, op), NumberOf(op, lastId)) && InBalance(Book(l, op), n)
  {
    hide Apply, DroppedArms, TableInv, OneArm;
    OneArmKept(l.table, op, lastId);
    OpBalance(l.table, op, n);
    var armed := ArmedArms(l.table, op);
    ArmedUnderOwnNumber(l.table, op, lastId);
    CountConcat(l.armed, armed, n);
    FiredConcat(l.fired, Apply(l.table, op).1, n);
    CountConcat(l.dropped, DroppedArms(l.table, op), n);
    if n in armed {
      CountAbsent(l.armed, n);
    } else {
      CountAbsent(armed, n);
    }
  }

  lemma ArmedUnderOwnNumber<A>(g: GestureTable<Tagged<A>>, op: GestureOp<Tagged<A>>, lastId: nat)
    requires Numbered(op, lastId)
    ensures lastId <= NumberOf(op, lastId)
    ensures ArmedArms(g, op) == [] || (ArmedArms(g, op) == [NumberOf(op, lastId)] && lastId < NumberOf(op, lastId))
    ensures forall n :: Count(ArmedArms(g, op), n) <= 1
  {}

  lemma {:induction false} BooksKeep<A>(l: Ledger<A>, ops: seq<GestureOp<Tagged<A>>>, lastId: nat, n: nat)
    requires LedgerInv(l, lastId) && InBalance(l, n) && NumberedRun(ops, lastId)
    ensures LedgerInv(Books(l, ops), NumberAfter(ops, lastId))
    ensures InBalance(Books(l, ops), n)
    decreases |ops|
  {
    hide Book, LedgerInv, InBalance;
    if ops != [] {
      BookKeeps(l, ops[0], lastId, n);
      BooksKeep(Book(l, ops[0]), ops[1..], NumberOf(ops[0], lastId), n);
    }
  }

  /** In every run of presses, key-ups, other keys, timers, refusals and
      resets: an arming has at most one gesture that ever fires, and if it was
      armed it is exactly one of fired once, dropped once and still pending;
      and no key has two pending presses. */
  lemma EveryPressEndsOnce<A>(ops: seq<GestureOp<Tagged<A>>>, n: nat)
    requires NumberedRun(ops, 0)
    ensures var l := Books(NewLedger(), ops);
            && Count(FiredArms(l.fired), n) + Count(l.dropped, n) + Pending(l.table, n) == (if n in l.armed then 1 else 0)
            && DistinctPresses(l.table.presses)
  {
    BooksKeep(NewLedger<A>(), ops, 0, n);
    var l := Books(NewLedger<A>(), ops);
    if n in l.armed {
      CountPresent(l.armed, n);
    } else {
      CountAbsent(l.armed, n);
    }
  }

  lemma {:induction false} CountPresent<A>(s: seq<A>, x: A)
    requires x in s
    ensures Count(s, x) >= 1
  {
    if s[0] != x {
      CountPresent(s[1..], x);
    }
  }

  /** A press that completes a DoubleTap fires it alone and arms nothing. */
  lemma CompletingPressArmsNothing<A>(g: GestureTable<A>, vk: Vk, group: Option<GroupArming<A>>, now: nat, id: nat, lastId: nat)
    requires TableInv(g, lastId)
    requires Find(g.presses, OfKey(vk)).Some? && Find(g.presses, OfKey(vk)).value.phase.AwaitSecond?
    requires Completes(Find(g.presses, OfKey(vk)).value.phase.window, group, now)
    ensures var r := PressOf(g, vk, group, now, id);
            && r.fired == [Find(g.presses, OfKey(vk)).value.phase.window.action]
            && r.holdDue == None
            && (forall p :: p in r.table.presses ==> p.vk != vk)
            && r.table.dueHolds == g.dueHolds
  {
    WithoutIsRid(g.presses, OfKey(vk));
  }
}
