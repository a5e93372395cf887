/** What every gesture operation keeps, and which timers a table waits for.

    Presses have their keys and arming numbers to themselves, and each waits
    for at most one deadline; operations only remove waits, but for the one
    they ask a timer for. */
module GestureFacts {
  import opened Options
  import opened Modifiers
  import opened KeyTables
  import opened Winners
  import opened GestureTables

  /** No two presses of one key, and no arming number used twice. */
  ghost predicate DistinctPresses<A>(ps: seq<Press<A>>) {
    ps == [] || ((forall p :: p in ps[1..] ==> p.vk != ps[0].vk && p.id != ps[0].id) && DistinctPresses(ps[1..]))
  }

  ghost predicate DistinctHolds<A>(hs: seq<DueHold<A>>) {
    hs == [] || ((forall h :: h in hs[1..] ==> h.id != hs[0].id) && DistinctHolds(hs[1..]))
  }

  /** The invariant of the table under armings numbered up to `lastId`. */
  ghost predicate TableInv<A>(g: GestureTable<A>, lastId: nat) {
    && DistinctPresses(g.presses) && DistinctHolds(g.dueHolds)
    && (forall p :: p in g.presses ==> p.id <= lastId)
    && (forall h :: h in g.dueHolds ==> h.id <= lastId)
    && (forall p, h :: p in g.presses && h in g.dueHolds ==> p.id != h.id)
  }

  /** The press or due Hold of `vk` armed as `id` waits for a timer due `due`. */
  ghost predicate IsWait<A>(g: GestureTable<A>, vk: Vk, id: nat, due: nat) {
    || (exists p :: p in g.presses && p.vk == vk && p.id == id && p.phase.TimerDue() == Some(due))
    || (exists h :: h in g.dueHolds && h.vk == vk && h.id == id && h.due == due)
  }

  lemma LiveMeansWaiting<A>(g: GestureTable<A>, vk: Vk, id: nat)
    ensures IsLiveIn(g, vk, id) <==> exists due: nat :: IsWait(g, vk, id, due)
  {
    if IsLiveIn(g, vk, id) {
      match FindHold(g.dueHolds, vk, id)
      case Some(h) => assert IsWait(g, vk, id, h.due);
      case None =>
        var p := Find(g.presses, WaitingAs(vk, id)).value;
        assert IsWait(g, vk, id, p.phase.TimerDue().value);
    }
    if due: nat :| IsWait(g, vk, id, due) {
      if h :| h in g.dueHolds && h.vk == vk && h.id == id && h.due == due {
        assert IsHold(h, vk, id);
      } else {
        var p :| p in g.presses && p.vk == vk && p.id == id && p.phase.TimerDue() == Some(due);
        assert Fits(WaitingAs(vk, id), p);
      }
    }
  }

  // ----- sublists -----

  ghost predicate Sublist<T>(a: seq<T>, b: seq<T>) {
    if a == [] then true
    else if b == [] then false
    else (a[0] == b[0] && Sublist(a[1..], b[1..])) || Sublist(a, b[1..])
  }

  lemma {:induction false} SublistRefl<T>(a: seq<T>)
    ensures Sublist(a, a)
  {
    if a != [] {
      SublistRefl(a[1..]);
    }
  }

  lemma {:induction false} SublistMembers<T>(a: seq<T>, b: seq<T>)
    requires Sublist(a, b)
    ensures forall x :: x in a ==> x in b
  {
    if a != [] {
      assert a == [a[0]] + a[1..];
      if a[0] == b[0] && Sublist(a[1..], b[1..]) {
        SublistMembers(a[1..], b[1..]);
      } else {
        SublistMembers(a, b[1..]);
      }
    }
  }

  lemma {:induction false} SublistDistinct<A>(a: seq<Press<A>>, b: seq<Press<A>>)
    requires Sublist(a, b) && DistinctPresses(b)
    ensures DistinctPresses(a)
  {
    if a != [] {
      if a[0] == b[0] && Sublist(a[1..], b[1..]) {
        SublistDistinct(a[1..], b[1..]);
        SublistMembers(a[1..], b[1..]);
      } else {
        SublistDistinct(a, b[1..]);
      }
    }
  }

  lemma {:induction false} SublistDistinctHolds<A>(a: seq<DueHold<A>>, b: seq<DueHold<A>>)
    requires Sublist(a, b) && DistinctHolds(b)
    ensures DistinctHolds(a)
  {
    if a != [] {
      if a[0] == b[0] && Sublist(a[1..], b[1..]) {
        SublistDistinctHolds(a[1..], b[1..]);
        SublistMembers(a[1..], b[1..]);
      } else {
        SublistDistinctHolds(a, b[1..]);
      }
    }
  }

  lemma {:induction false} WithoutIsSublist<A>(ps: seq<Press<A>>, want: Want)
    ensures Sublist(Without(ps, want), ps)
  {
    if ps != [] {
      if Fits(want, ps[0]) {
        SublistRefl(ps[1..]);
      } else {
        WithoutIsSublist(ps[1..], want);
        assert Without(ps, want)[1..] == Without(ps[1..], want);
      }
    }
  }

  lemma {:induction false} WithoutHoldIsSublist<A>(hs: seq<DueHold<A>>, vk: Vk, id: nat)
    ensures Sublist(WithoutHold(hs, vk, id), hs)
  {
    if hs != [] {
      if IsHold(hs[0], vk, id) {
        SublistRefl(hs[1..]);
      } else {
        WithoutHoldIsSublist(hs[1..], vk, id);
        assert WithoutHold(hs, vk, id)[1..] == WithoutHold(hs[1..], vk, id);
      }
    }
  }

  lemma {:induction false} WithoutHoldsIsSublist<A>(hs: seq<DueHold<A>>, vk: Vk, id: nat)
    ensures Sublist(WithoutHolds(hs, vk, id), hs)
  {
    if hs != [] {
      WithoutHoldsIsSublist(hs[1..], vk, id);
      if !IsHold(hs[0], vk, id) {
        assert WithoutHolds(hs, vk, id)[1..] == WithoutHolds(hs[1..], vk, id);
      } else {
        assert WithoutHolds(hs, vk, id) == WithoutHolds(hs[1..], vk, id);
      }
    }
  }

  lemma {:induction false} KeptIsSublist<A>(ps: seq<Press<A>>, vk: Vk, keys: KeyTable, now: nat)
    ensures Sublist(Kept(ps, vk, keys, now), ps)
  {
    if ps != [] {
      KeptIsSublist(ps[1..], vk, keys, now);
      if !IsEndedBy(ps[0], vk, keys, now) {
        assert Kept(ps, vk, keys, now)[1..] == Kept(ps[1..], vk, keys, now);
      } else {
        assert Kept(ps, vk, keys, now) == Kept(ps[1..], vk, keys, now);
      }
    }
  }

  lemma {:induction false} StillOpenIsSublist<A>(ps: seq<Press<A>>, now: nat)
    ensures Sublist(StillOpen(ps, now), ps)
  {
    if ps != [] {
      StillOpenIsSublist(ps[1..], now);
      if !IsClosed(ps[0], now) {
        assert StillOpen(ps, now)[1..] == StillOpen(ps[1..], now);
      } else {
        assert StillOpen(ps, now) == StillOpen(ps[1..], now);
      }
    }
  }

  /** The press found is the only one of its key and number. */
  lemma {:induction false} WithoutIsRid<A>(ps: seq<Press<A>>, want: Want)
    requires DistinctPresses(ps) && Find(ps, want).Some?
    ensures forall p :: p in Without(ps, want) ==> p.vk != want.vk && p.id != Find(ps, want).value.id
    ensures forall p :: p in ps ==> p == Find(ps, want).value || p in Without(ps, want)
  {
    if !Fits(want, ps[0]) {
      WithoutIsRid(ps[1..], want);
      assert Find(ps, want).value in ps[1..];
    }
  }

  lemma {:induction false} WithoutHoldIsRid<A>(hs: seq<DueHold<A>>, vk: Vk, id: nat)
    requires DistinctHolds(hs)
    ensures forall h :: h in WithoutHold(hs, vk, id) ==> !IsHold(h, vk, id)
  {
    if hs != [] && !IsHold(hs[0], vk, id) {
      WithoutHoldIsRid(hs[1..], vk, id);
    }
  }

  lemma {:induction false} AppendPress<A>(ps: seq<Press<A>>, p: Press<A>)
    requires DistinctPresses(ps)
    requires forall q :: q in ps ==> q.vk != p.vk && q.id != p.id
    ensures DistinctPresses(ps + [p])
  {
    if ps != [] {
      AppendPress(ps[1..], p);
      assert (ps + [p])[1..] == ps[1..] + [p];
    }
  }

  lemma {:induction false} AppendHold<A>(hs: seq<DueHold<A>>, h: DueHold<A>)
    requires DistinctHolds(hs)
    requires forall k :: k in hs ==> k.id != h.id
    ensures DistinctHolds(hs + [h])
  {
    if hs != [] {
      AppendHold(hs[1..], h);
      assert (hs + [h])[1..] == hs[1..] + [h];
    }
  }

  lemma {:induction false} ReplacedFacts<A>(ps: seq<Press<A>>, want: Want, other: Press<A>)
    requires DistinctPresses(ps)
    requires Find(ps, want).Some? ==> other.vk == Find(ps, want).value.vk && other.id == Find(ps, want).value.id
    ensures DistinctPresses(Replaced(ps, want, other))
    ensures forall p :: p in Replaced(ps, want, other) ==>
              p in ps || (Find(ps, want).Some? && p == other)
  {
    if ps != [] && !Fits(want, ps[0]) {
      ReplacedFacts(ps[1..], want, other);
      var rest := Replaced(ps[1..], want, other);
      assert Replaced(ps, want, other)[1..] == rest;
      forall p | p in rest ensures p.vk != ps[0].vk && p.id != ps[0].id {
        assert p in ps[1..] || p == other;
        if p == other && p !in ps[1..] {
          assert Find(ps[1..], want).value in ps[1..];
        }
      }
    }
  }

  // ----- the operations -----

  /** `after` waits for nothing `before` did not, but for what `added` says. */
  ghost predicate WaitsFrom<A>(after: GestureTable<A>, before: GestureTable<A>, vk: Vk, id: nat, added: Option<nat>) {
    forall v: Vk, i: nat, due: nat :: IsWait(after, v, i, due) ==>
      IsWait(before, v, i, due) || (v == vk && i == id && added == Some(due))
  }

  lemma SubtableInv<A>(g: GestureTable<A>, sub: GestureTable<A>, lastId: nat)
    requires TableInv(g, lastId)
    requires Sublist(sub.presses, g.presses) && Sublist(sub.dueHolds, g.dueHolds)
    ensures TableInv(sub, lastId)
    ensures forall v: Vk, i: nat, due: nat :: IsWait(sub, v, i, due) ==> IsWait(g, v, i, due)
  {
    SublistDistinct(sub.presses, g.presses);
    SublistMembers(sub.presses, g.presses);
    SublistDistinctHolds(sub.dueHolds, g.dueHolds);
    SublistMembers(sub.dueHolds, g.dueHolds);
  }

  /** Moving a press whose Hold is due to the due Holds. */
  lemma LeaveHold<A>(g: GestureTable<A>, want: Want, now: nat, lastId: nat)
    requires TableInv(g, lastId) && Find(g.presses, want).Some?
    ensures var p := Find(g.presses, want).value;
            var left := GestureTable(Without(g.presses, want), g.dueHolds + HoldLeft(p, now));
            && TableInv(left, lastId)
            && (forall v: Vk, i: nat, due: nat :: IsWait(left, v, i, due) ==> IsWait(g, v, i, due))
            && (forall q :: q in left.presses ==> q in g.presses && q.vk != p.vk && q.id != p.id)
  {
    var p := Find(g.presses, want).value;
    WithoutIsSublist(g.presses, want);
    WithoutIsRid(g.presses, want);
    SublistRefl(g.dueHolds);
    var rest := g.(presses := Without(g.presses, want));
    SubtableInv(g, rest, lastId);
    var left := rest.(dueHolds := g.dueHolds + HoldLeft(p, now));
    if HoldLeft(p, now) != [] {
      AppendHold(g.dueHolds, HoldLeft(p, now)[0]);
      assert IsWait(g, p.vk, p.id, p.phase.hold.value.due);
    } else {
      assert left == rest;
    }
  }

  lemma AddPress<A>(g: GestureTable<A>, p: Press<A>, lastId: nat)
    requires TableInv(g, lastId) && lastId < p.id
    requires forall q :: q in g.presses ==> q.vk != p.vk
    ensures TableInv(g.(presses := g.presses + [p]), p.id)
    ensures WaitsFrom(g.(presses := g.presses + [p]), g, p.vk, p.id, p.phase.TimerDue())
  {
    AppendPress(g.presses, p);
  }

  lemma EndEarlierInv<A>(g: GestureTable<A>, vk: Vk, group: Option<GroupArming<A>>, now: nat, lastId: nat)
    requires TableInv(g, lastId)
    ensures var ended := EndEarlier(g, vk, group, now).table;
            && TableInv(ended, lastId)
            && (forall v: Vk, i: nat, due: nat :: IsWait(ended, v, i, due) ==> IsWait(g, v, i, due))
            && (forall q :: q in ended.presses ==> q in g.presses && q.vk != vk)
  {
    match Find(g.presses, OfKey(vk))
    case None =>
      assert forall p :: p in g.presses && p.vk == vk ==> Fits(OfKey(vk), p);
    case Some(p) =>
      LeaveHold(g, OfKey(vk), now, lastId);
      assert p.phase.AwaitSecond? ==> g.dueHolds + HoldLeft(p, now) == g.dueHolds;
  }

  lemma PressInv<A>(g: GestureTable<A>, vk: Vk, group: Option<GroupArming<A>>, now: nat, id: nat, lastId: nat)
    requires TableInv(g, lastId) && lastId < id
    ensures var r := PressOf(g, vk, group, now, id);
            && TableInv(r.table, id)
            && WaitsFrom(r.table, g, vk, id, r.holdDue)
            && (forall q :: q in r.table.presses ==> q in g.presses || q.vk == vk)
  {
    EndEarlierInv(g, vk, group, now, lastId);
    var ended := EndEarlier(g, vk, group, now);
    if !ended.completes && group.Some? {
      AddPress(ended.table, Armed(vk, group.value, now, id), lastId);
    }
  }

  lemma ReleaseInv<A>(g: GestureTable<A>, vk: Vk, now: nat, passed: bool, id: nat, lastId: nat)
    requires TableInv(g, lastId) && lastId < id
    ensures var (table, released) := ReleaseOf(g, vk, now, passed, id);
            && TableInv(table, id)
            && WaitsFrom(table, g, vk, id, released.windowDue)
            && (forall q :: q in table.presses ==> (q in g.presses || !q.phase.Held?) && (q.vk == vk ==> !q.phase.Held?))
  {
    match Find(g.presses, HeldOf(vk))
    case None =>
      assert forall p :: p in g.presses && p.vk == vk && p.phase.Held? ==> Fits(HeldOf(vk), p);
    case Some(p) =>
      LeaveHold(g, HeldOf(vk), now, lastId);
      if HoldLeft(p, now) == [] {
        var rest := g.(presses := Without(g.presses, HeldOf(vk)));
        assert rest.dueHolds == g.dueHolds + HoldLeft(p, now);
        if WindowOpens(p.phase, now) {
          AddPress(rest, Press(vk, id, AwaitSecond(p.phase.double.value, TapInTime(p.phase, now), passed)), lastId);
        }
      }
  }

  lemma KeptInv<A>(g: GestureTable<A>, vk: Vk, keys: KeyTable, now: nat, lastId: nat)
    requires TableInv(g, lastId)
    ensures var kept := g.(presses := Kept(g.presses, vk, keys, now));
            && TableInv(kept, lastId)
            && (forall v: Vk, i: nat, due: nat :: IsWait(kept, v, i, due) ==> IsWait(g, v, i, due))
            && (forall q :: q in kept.presses ==> q in g.presses)
  {
    KeptIsSublist(g.presses, vk, keys, now);
    SublistRefl(g.dueHolds);
    SubtableInv(g, g.(presses := Kept(g.presses, vk, keys, now)), lastId);
    SublistMembers(Kept(g.presses, vk, keys, now), g.presses);
  }

  /** A timer leaves nothing of its own arming behind. */
  lemma TimerInv<A>(g: GestureTable<A>, vk: Vk, id: nat, lastId: nat)
    requires TableInv(g, lastId)
    ensures var table := TimerOf(g, vk, id).0;
            && TableInv(table, lastId)
            && (forall v: Vk, i: nat, due: nat :: IsWait(table, v, i, due) ==> IsWait(g, v, i, due))
            && (forall q :: q in table.presses ==> q in g.presses)
            && !IsLiveIn(table, vk, id)
  {
    match Resolved(g, vk, id)
    case None =>
    case Some((rest, timed)) =>
      SublistRefl(g.dueHolds);
      SublistRefl(g.presses);
      match FindHold(g.dueHolds, vk, id) {
        case Some(h) =>
          WithoutHoldIsSublist(g.dueHolds, vk, id);
          WithoutHoldIsRid(g.dueHolds, vk, id);
        case None =>
          WithoutIsSublist(g.presses, WaitingAs(vk, id));
          WithoutIsRid(g.presses, WaitingAs(vk, id));
      }
      SubtableInv(g, rest, lastId);
      SublistMembers(rest.presses, g.presses);
      SublistRefl(rest.dueHolds);
      StillOpenIsSublist(rest.presses, timed.due);
      SubtableInv(rest, rest.(presses := StillOpen(rest.presses, timed.due)), lastId);
      SublistMembers(StillOpen(rest.presses, timed.due), rest.presses);
  }

  lemma ForgetInv<A>(g: GestureTable<A>, vk: Vk, id: nat, lastId: nat)
    requires TableInv(g, lastId)
    ensures var table := ForgetOf(g, vk, id).0;
            && TableInv(table, lastId)
            && (forall v: Vk, i: nat, due: nat :: IsWait(table, v, i, due) ==> IsWait(g, v, i, due))
            && (forall q :: q in table.presses ==> q in g.presses || (q.phase.Held? && exists p :: p in g.presses && p.vk == q.vk && p.phase.Held?))
  {
    SublistRefl(g.presses);
    SublistRefl(g.dueHolds);
    if FindHold(g.dueHolds, vk, id).Some? {
      WithoutHoldsIsSublist(g.dueHolds, vk, id);
      SubtableInv(g, g.(dueHolds := WithoutHolds(g.dueHolds, vk, id)), lastId);
    } else {
      match Find(g.presses, ArmedAs(vk, id))
      case None =>
      case Some(p) =>
        if p.phase.Held? {
          WithoutIsSublist(g.presses, ArmedAs(vk, id));
          SubtableInv(g, g.(presses := Without(g.presses, ArmedAs(vk, id))), lastId);
          SublistMembers(Without(g.presses, ArmedAs(vk, id)), g.presses);
          ReplacedFacts(g.presses, ArmedAs(vk, id), p.(phase := p.phase.(hold := None)));
        }
    }
  }
}
