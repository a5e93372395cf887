/** A gesture table without what is due.

    A press whose timer is due by some time, and every Hold left to its timer,
    counts as ripe: it will fire its action and change nothing else. The rest
    of the table is its normal form. Each operation on a table and on its
    normal form ends in the same normal form, and an action fires or ripens as
    often on either. */
module RipeGestures {
  import opened Options
  import opened Modifiers
  import opened KeySpecs
  import opened KeyTables
  import opened Winners
  import opened GestureTables
  import opened GestureFacts

  ghost predicate IsRipe<A>(p: Press<A>, t: nat) {
    p.phase.TimerDue().Some? && p.phase.TimerDue().value <= t
  }

  ghost function Unripe<A>(ps: seq<Press<A>>, t: nat): seq<Press<A>> {
    if ps == [] then [] else (if IsRipe(ps[0], t) then [] else [ps[0]]) + Unripe(ps[1..], t)
  }

  /** How often `x` is fired: counts add up where multisets would. */
  ghost function Count<A>(fired: seq<A>, x: A): nat {
    if fired == [] then 0 else (if fired[0] == x then 1 else 0) + Count(fired[1..], x)
  }

  ghost function RipeCount<A>(ps: seq<Press<A>>, t: nat, x: A): nat {
    if ps == [] then 0
    else (if IsRipe(ps[0], t) && ps[0].phase.TimerAction().value == x then 1 else 0) + RipeCount(ps[1..], t, x)
  }

  ghost function HoldCount<A>(hs: seq<DueHold<A>>, x: A): nat {
    if hs == [] then 0 else (if hs[0].action == x then 1 else 0) + HoldCount(hs[1..], x)
  }

  /** The table with every timer due by `t` taken out. */
  ghost function NormalTable<A>(g: GestureTable<A>, t: nat): GestureTable<A> {
    GestureTable(Unripe(g.presses, t), [])
  }

  /** How often those timers fire `x`. */
  ghost function Ripe<A>(g: GestureTable<A>, t: nat, x: A): nat {
    RipeCount(g.presses, t, x) + HoldCount(g.dueHolds, x)
  }

  ghost predicate HoldsAreDue<A>(g: GestureTable<A>, t: nat) {
    forall h :: h in g.dueHolds ==> h.due <= t
  }

  // ----- lists -----

  lemma {:induction false} CountConcat<A>(a: seq<A>, b: seq<A>, x: A)
    ensures Count(a + b, x) == Count(a, x) + Count(b, x)
  {
    if a == [] {
      assert a + b == b;
    } else {
      assert (a + b)[1..] == a[1..] + b;
      CountConcat(a[1..], b, x);
    }
  }

  lemma {:induction false} CountIsMultiplicity<A>(fired: seq<A>, x: A)
    ensures multiset(fired)[x] == Count(fired, x)
  {
    if fired != [] {
      CountIsMultiplicity(fired[1..], x);
      assert fired == [fired[0]] + fired[1..];
    }
  }

  lemma {:induction false} UnripeAppend<A>(ps: seq<Press<A>>, p: Press<A>, t: nat)
    ensures Unripe(ps + [p], t) == Unripe(ps, t) + Unripe([p], t)
  {
    if ps == [] {
      assert ps + [p] == [p];
    } else {
      assert (ps + [p])[1..] == ps[1..] + [p];
      UnripeAppend(ps[1..], p, t);
    }
  }

  lemma {:induction false} RipeAppend<A>(ps: seq<Press<A>>, p: Press<A>, t: nat, x: A)
    ensures RipeCount(ps + [p], t, x) == RipeCount(ps, t, x) + RipeCount([p], t, x)
  {
    if ps == [] {
      assert ps + [p] == [p];
    } else {
      assert (ps + [p])[1..] == ps[1..] + [p];
      RipeAppend(ps[1..], p, t, x);
    }
  }

  lemma {:induction false} HoldAppend<A>(hs: seq<DueHold<A>>, h: DueHold<A>, x: A)
    ensures HoldCount(hs + [h], x) == HoldCount(hs, x) + (if h.action == x then 1 else 0)
  {
    if hs == [] {
      assert hs + [h] == [h];
    } else {
      assert (hs + [h])[1..] == hs[1..] + [h];
      HoldAppend(hs[1..], h, x);
    }
  }

  lemma {:induction false} UnripeMembers<A>(ps: seq<Press<A>>, t: nat)
    ensures forall p :: p in Unripe(ps, t) ==> p in ps && !IsRipe(p, t)
    ensures forall p :: p in ps && !IsRipe(p, t) ==> p in Unripe(ps, t)
    ensures Sublist(Unripe(ps, t), ps)
  {
    if ps != [] {
      UnripeMembers(ps[1..], t);
      if IsRipe(ps[0], t) {
        assert Unripe(ps, t) == Unripe(ps[1..], t);
      } else {
        assert Unripe(ps, t)[1..] == Unripe(ps[1..], t);
      }
    }
  }

  lemma {:induction false} AllUnripe<A>(ps: seq<Press<A>>, t: nat, x: A)
    requires forall p :: p in ps ==> !IsRipe(p, t)
    ensures Unripe(ps, t) == ps && RipeCount(ps, t, x) == 0
  {
    if ps != [] {
      AllUnripe(ps[1..], t, x);
      assert ps == [ps[0]] + ps[1..];
    }
  }

  lemma NormalIsNormal<A>(g: GestureTable<A>, t: nat, x: A)
    ensures NormalTable(NormalTable(g, t), t) == NormalTable(g, t)
    ensures Ripe(NormalTable(g, t), t, x) == 0
  {
    UnripeMembers(g.presses, t);
    AllUnripe(Unripe(g.presses, t), t, x);
  }

  lemma {:induction false} UnripeLater<A>(ps: seq<Press<A>>, t: nat, later: nat)
    requires t <= later
    ensures Unripe(Unripe(ps, t), later) == Unripe(ps, later)
  {
    if ps != [] {
      UnripeLater(ps[1..], t, later);
      UnripeHead(ps, t);
      UnripeHead(ps, later);
    }
  }

  lemma {:induction false} RipeLater<A>(ps: seq<Press<A>>, t: nat, later: nat, x: A)
    requires t <= later
    ensures RipeCount(ps, later, x) == RipeCount(ps, t, x) + RipeCount(Unripe(ps, t), later, x)
  {
    if ps != [] {
      RipeLater(ps[1..], t, later, x);
      UnripeHead(ps, t);
    }
  }

  lemma UnripeHead<A>(ps: seq<Press<A>>, t: nat)
    requires ps != []
    ensures if IsRipe(ps[0], t) then Unripe(ps, t) == Unripe(ps[1..], t)
            else Unripe(ps, t) != [] && Unripe(ps, t)[0] == ps[0] && Unripe(ps, t)[1..] == Unripe(ps[1..], t)
  {}

  /** Looking up what still waits. */
  lemma {:induction false} FindUnripe<A>(ps: seq<Press<A>>, want: Want, t: nat)
    requires DistinctPresses(ps)
    ensures match Find(ps, want)
            case None => Find(Unripe(ps, t), want) == None
            case Some(p) =>
              && (IsRipe(p, t) ==>
                    Find(Unripe(ps, t), want) == None && Unripe(Without(ps, want), t) == Unripe(ps, t))
              && (!IsRipe(p, t) ==>
                    && Find(Unripe(ps, t), want) == Some(p)
                    && Unripe(Without(ps, want), t) == Without(Unripe(ps, t), want))
  {
    if ps != [] {
      UnripeHead(ps, t);
      UnripeMembers(ps[1..], t);
      if !Fits(want, ps[0]) {
        FindUnripe(ps[1..], want, t);
        WithoutHead(ps, want);
        UnripeHead([ps[0]] + Without(ps[1..], want), t);
        assert ([ps[0]] + Without(ps[1..], want))[1..] == Without(ps[1..], want);
      }
    }
  }

  lemma WithoutHead<A>(ps: seq<Press<A>>, want: Want)
    requires ps != [] && !Fits(want, ps[0])
    ensures Without(ps, want) == [ps[0]] + Without(ps[1..], want)
  {}

  lemma {:induction false} FindRipe<A>(ps: seq<Press<A>>, want: Want, t: nat, x: A)
    requires Find(ps, want).Some?
    ensures var p := Find(ps, want).value;
            RipeCount(ps, t, x) == RipeCount(Without(ps, want), t, x) + RipeCount([p], t, x)
  {
    if !Fits(want, ps[0]) {
      FindRipe(ps[1..], want, t, x);
      assert Without(ps, want)[1..] == Without(ps[1..], want);
    }
  }

  lemma {:induction false} KeptUnripe<A>(ps: seq<Press<A>>, vk: Vk, keys: KeyTable, t: nat)
    ensures Unripe(Kept(ps, vk, keys, t), t) == Kept(Unripe(ps, t), vk, keys, t)
  {
    if ps != [] {
      var rest := Kept(ps[1..], vk, keys, t);
      KeptUnripe(ps[1..], vk, keys, t);
      UnripeHead(ps, t);
      if IsEndedBy(ps[0], vk, keys, t) {
        assert Kept(ps, vk, keys, t) == rest;
      } else {
        assert Kept(ps, vk, keys, t)[1..] == rest;
        UnripeHead(Kept(ps, vk, keys, t), t);
      }
    }
  }

  /** A press ended although its timer was due: its Tap fires here instead. */
  lemma EndedRipe<A>(p: Press<A>, vk: Vk, keys: KeyTable, t: nat, x: A)
    requires IsEndedBy(p, vk, keys, t) && IsRipe(p, t)
    ensures Count(DeferredTap(p), x) == if p.phase.TimerAction().value == x then 1 else 0
  {}

  lemma EndedTapsHead<A>(ps: seq<Press<A>>, vk: Vk, keys: KeyTable, t: nat, x: A)
    requires ps != []
    ensures Count(EndedTaps(ps, vk, keys, t), x)
         == (if IsEndedBy(ps[0], vk, keys, t) then Count(DeferredTap(ps[0]), x) else 0)
          + Count(EndedTaps(ps[1..], vk, keys, t), x)
  {
    hide IsEndedBy, DeferredTap;
    var tap := if IsEndedBy(ps[0], vk, keys, t) then DeferredTap(ps[0]) else [];
    CountConcat(tap, EndedTaps(ps[1..], vk, keys, t), x);
  }

  lemma KeptHead<A>(ps: seq<Press<A>>, vk: Vk, keys: KeyTable, t: nat, x: A)
    requires ps != []
    ensures RipeCount(Kept(ps, vk, keys, t), t, x)
         == (if IsEndedBy(ps[0], vk, keys, t) || !(IsRipe(ps[0], t) && ps[0].phase.TimerAction().value == x) then 0 else 1)
          + RipeCount(Kept(ps[1..], vk, keys, t), t, x)
  {
    hide IsEndedBy, IsRipe;
    if IsEndedBy(ps[0], vk, keys, t) {
      assert Kept(ps, vk, keys, t) == Kept(ps[1..], vk, keys, t);
    } else {
      assert Kept(ps, vk, keys, t)[1..] == Kept(ps[1..], vk, keys, t);
    }
  }

  lemma {:induction false} KeptRipe<A>(ps: seq<Press<A>>, vk: Vk, keys: KeyTable, t: nat, x: A)
    ensures Count(EndedTaps(ps, vk, keys, t), x) + RipeCount(Kept(ps, vk, keys, t), t, x)
         == RipeCount(ps, t, x) + Count(EndedTaps(Unripe(ps, t), vk, keys, t), x)
  {
    if ps != [] {
      hide IsEndedBy, DeferredTap, EndedTaps, Kept, Unripe, Count, IsRipe;
      KeptRipe(ps[1..], vk, keys, t, x);
      UnripeHead(ps, t);
      EndedTapsHead(ps, vk, keys, t, x);
      KeptHead(ps, vk, keys, t, x);
      if !IsRipe(ps[0], t) {
        EndedTapsHead(Unripe(ps, t), vk, keys, t, x);
      } else if IsEndedBy(ps[0], vk, keys, t) {
        EndedRipe(ps[0], vk, keys, t, x);
      }
    }
  }

  lemma {:induction false} StillOpenUnripe<A>(ps: seq<Press<A>>, due: nat, t: nat)
    requires due <= t
    ensures Unripe(StillOpen(ps, due), t) == Unripe(ps, t)
  {
    if ps != [] {
      StillOpenUnripe(ps[1..], due, t);
      if IsClosed(ps[0], due) {
        assert StillOpen(ps, due) == StillOpen(ps[1..], due);
      } else {
        assert StillOpen(ps, due)[1..] == StillOpen(ps[1..], due);
      }
    }
  }

  lemma {:induction false} StillOpenRipe<A>(ps: seq<Press<A>>, due: nat, t: nat, x: A)
    requires due <= t
    ensures Count(ClosedTaps(ps, due), x) + RipeCount(StillOpen(ps, due), t, x) == RipeCount(ps, t, x)
  {
    if ps != [] {
      StillOpenRipe(ps[1..], due, t, x);
      var tap := if IsClosed(ps[0], due) then DeferredTap(ps[0]) else [];
      CountConcat(tap, ClosedTaps(ps[1..], due), x);
      if IsClosed(ps[0], due) {
        assert StillOpen(ps, due) == StillOpen(ps[1..], due);
      } else {
        assert StillOpen(ps, due)[1..] == StillOpen(ps[1..], due);
      }
    }
  }

  lemma {:induction false} FindHoldCount<A>(hs: seq<DueHold<A>>, vk: Vk, id: nat, x: A)
    requires FindHold(hs, vk, id).Some?
    ensures HoldCount(hs, x) == HoldCount(WithoutHold(hs, vk, id), x) + (if FindHold(hs, vk, id).value.action == x then 1 else 0)
  {
    if !IsHold(hs[0], vk, id) {
      FindHoldCount(hs[1..], vk, id, x);
      assert WithoutHold(hs, vk, id)[1..] == WithoutHold(hs[1..], vk, id);
    }
  }

  // ----- the operations -----

  /** Two outcomes of one operation, on `g` and on its normal form, agree:
      the same normal form afterwards, and `x` as often fired or ripe. */
  ghost predicate Agree<A>(g: GestureTable<A>, g1: GestureTable<A>, fired1: seq<A>, g2: GestureTable<A>, fired2: seq<A>, t: nat, x: A) {
    && NormalTable(g1, t) == NormalTable(g2, t)
    && Count(fired1, x) + Ripe(g1, t, x) == Ripe(g, t, x) + Count(fired2, x) + Ripe(g2, t, x)
  }

  /** An earlier press whose timer was due counts as resolved already. */
  lemma EndRipeEarlier<A>(g: GestureTable<A>, vk: Vk, group: Option<GroupArming<A>>, t: nat, x: A)
    requires DistinctPresses(g.presses)
    requires Find(g.presses, OfKey(vk)).Some? && IsRipe(Find(g.presses, OfKey(vk)).value, t)
    ensures var ended := EndEarlier(g, vk, group, t);
            && !ended.completes
            && NormalTable(ended.table, t) == NormalTable(g, t)
            && Count(ended.fired, x) + Ripe(ended.table, t, x) == Ripe(g, t, x)
  {
    FindUnripe(g.presses, OfKey(vk), t);
    hide Unripe, Find, Without, DistinctPresses, HoldCount;
    FindRipe(g.presses, OfKey(vk), t, x);
    var p := Find(g.presses, OfKey(vk)).value;
    RipeOne(p, t, x);
    if p.phase.Held? {
      HoldAppend(g.dueHolds, HoldLeft(p, t)[0], x);
    }
  }

  lemma RipeOne<A>(p: Press<A>, t: nat, x: A)
    ensures RipeCount([p], t, x) == if IsRipe(p, t) && p.phase.TimerAction().value == x then 1 else 0
  {}

  lemma EndUnripeEarlier<A>(g: GestureTable<A>, vk: Vk, group: Option<GroupArming<A>>, t: nat, x: A)
    requires DistinctPresses(g.presses)
    requires Find(g.presses, OfKey(vk)).Some? && !IsRipe(Find(g.presses, OfKey(vk)).value, t)
    ensures var ended, ended' := EndEarlier(g, vk, group, t), EndEarlier(NormalTable(g, t), vk, group, t);
            && ended.completes == ended'.completes && ended.fired == ended'.fired
            && NormalTable(ended.table, t) == ended'.table
            && Ripe(ended.table, t, x) == Ripe(g, t, x)
  {
    FindUnripe(g.presses, OfKey(vk), t);
    FindRipe(g.presses, OfKey(vk), t, x);
    var p := Find(g.presses, OfKey(vk)).value;
    assert HoldLeft(p, t) == [];
    assert g.dueHolds + HoldLeft(p, t) == g.dueHolds;
  }

  lemma EndEarlierAgrees<A>(g: GestureTable<A>, vk: Vk, group: Option<GroupArming<A>>, t: nat, x: A)
    requires DistinctPresses(g.presses)
    ensures var ended, ended' := EndEarlier(g, vk, group, t), EndEarlier(NormalTable(g, t), vk, group, t);
            && Agree(g, ended.table, ended.fired, ended'.table, ended'.fired, t, x)
            && ended.completes == ended'.completes
  {
    FindUnripe(g.presses, OfKey(vk), t);
    NormalIsNormal(g, t, x);
    match Find(g.presses, OfKey(vk))
    case None =>
    case Some(p) =>
      if IsRipe(p, t) {
        EndRipeEarlier(g, vk, group, t, x);
      } else {
        EndUnripeEarlier(g, vk, group, t, x);
        NormalIsNormal(EndEarlier(g, vk, group, t).table, t, x);
      }
  }

  lemma PressAgrees<A>(g: GestureTable<A>, vk: Vk, group: Option<GroupArming<A>>, t: nat, id: nat, x: A)
    requires DistinctPresses(g.presses)
    ensures var r, r' := PressOf(g, vk, group, t, id), PressOf(NormalTable(g, t), vk, group, t, id);
            Agree(g, r.table, r.fired, r'.table, r'.fired, t, x)
  {
    EndEarlierAgrees(g, vk, group, t, x);
    var ended, ended' := EndEarlier(g, vk, group, t), EndEarlier(NormalTable(g, t), vk, group, t);
    if !ended.completes && group.Some? {
      var armed := Armed(vk, group.value, t, id);
      UnripeAppend(ended.table.presses, armed, t);
      UnripeAppend(ended'.table.presses, armed, t);
      RipeAppend(ended.table.presses, armed, t, x);
      RipeAppend(ended'.table.presses, armed, t, x);
    }
  }

  lemma ReleaseAgrees<A>(g: GestureTable<A>, vk: Vk, t: nat, passed: bool, id: nat, x: A)
    requires DistinctPresses(g.presses)
    ensures var (table, released) := ReleaseOf(g, vk, t, passed, id);
            var (table', released') := ReleaseOf(NormalTable(g, t), vk, t, passed, id);
            Agree(g, table, ListOf(released.fired), table', ListOf(released'.fired), t, x)
  {
    FindUnripe(g.presses, HeldOf(vk), t);
    NormalIsNormal(g, t, x);
    match Find(g.presses, HeldOf(vk))
    case None =>
    case Some(p) =>
      var rest := Without(g.presses, HeldOf(vk));
      FindRipe(g.presses, HeldOf(vk), t, x);
      if IsRipe(p, t) {
        HoldAppend(g.dueHolds, HoldLeft(p, t)[0], x);
      } else {
        assert HoldLeft(p, t) == [];
        NormalIsNormal(GestureTable(rest, []), t, x);
        if WindowOpens(p.phase, t) {
          var waiting := Press(vk, id, AwaitSecond(p.phase.double.value, TapInTime(p.phase, t), passed));
          UnripeAppend(rest, waiting, t);
          UnripeAppend(Unripe(rest, t), waiting, t);
          RipeAppend(rest, waiting, t, x);
          RipeAppend(Unripe(rest, t), waiting, t, x);
        }
      }
  }

  lemma KeptAgrees<A>(g: GestureTable<A>, vk: Vk, keys: KeyTable, t: nat, x: A)
    ensures var g' := NormalTable(g, t);
            Agree(g, g.(presses := Kept(g.presses, vk, keys, t)), EndedTaps(g.presses, vk, keys, t),
                  g'.(presses := Kept(g'.presses, vk, keys, t)), EndedTaps(g'.presses, vk, keys, t), t, x)
  {
    KeptUnripe(g.presses, vk, keys, t);
    KeptUnripe(Unripe(g.presses, t), vk, keys, t);
    KeptRipe(g.presses, vk, keys, t, x);
    KeptRipe(Unripe(g.presses, t), vk, keys, t, x);
    NormalIsNormal(g, t, x);
  }

  /** A timer delivered at or after its due time fires ripe actions only, and
      changes nothing that still waits. */
  lemma TimerOnlyFiresRipe<A>(g: GestureTable<A>, vk: Vk, id: nat, t: nat, x: A)
    requires DistinctPresses(g.presses)
    requires forall due: nat :: IsWait(g, vk, id, due) ==> due <= t
    ensures var (table, fired) := TimerOf(g, vk, id);
            && NormalTable(table, t) == NormalTable(g, t)
            && Count(fired, x) + Ripe(table, t, x) == Ripe(g, t, x)
  {
    match Resolved(g, vk, id)
    case None =>
    case Some((rest, timed)) =>
      match FindHold(g.dueHolds, vk, id) {
        case Some(h) =>
          FindHoldCount(g.dueHolds, vk, id, x);
          assert IsWait(g, vk, id, h.due);
        case None =>
          var p := Find(g.presses, WaitingAs(vk, id)).value;
          FindUnripe(g.presses, WaitingAs(vk, id), t);
          FindRipe(g.presses, WaitingAs(vk, id), t, x);
          assert IsWait(g, vk, id, p.phase.TimerDue().value);
      }
      StillOpenUnripe(rest.presses, timed.due, t);
      StillOpenRipe(rest.presses, timed.due, t, x);
      CountConcat(ClosedTaps(rest.presses, timed.due), [timed.action], x);
  }

  lemma NormalLater<A>(g: GestureTable<A>, t: nat, later: nat, x: A)
    requires t <= later
    ensures NormalTable(g, later) == NormalTable(NormalTable(g, t), later)
    ensures Ripe(g, later, x) == Ripe(g, t, x) + Ripe(NormalTable(g, t), later, x)
  {
    UnripeLater(g.presses, t, later);
    RipeLater(g.presses, t, later, x);
  }
}
