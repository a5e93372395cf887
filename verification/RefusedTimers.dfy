/** What the engine loses when the scheduler refuses its timers: exactly the Holds they were to fire. */
module RefusedTimers {
  import opened Options
  import opened Modifiers
  import opened Bindings
  import opened KeyTables
  import opened Winners
  import opened GestureTables
  import opened GestureFacts
  import opened GestureTimeline
  import opened GestureEndings
  import opened Timers
  import opened EngineStates
  import opened EngineFacts

  /** A Hold waits under this number: of a key still held, or due. */
  ghost predicate HoldWaits<A>(g: GestureTable<A>, vk: Vk, id: nat) {
    || (exists p :: p in g.presses && p.vk == vk && p.id == id && p.phase.Held? && p.phase.hold.Some?)
    || (exists h :: h in g.dueHolds && h.vk == vk && h.id == id)
  }

  ghost predicate FiresAHold(e: EngineState, token: TimerToken) {
    token.generation == e.generation && token.slot.GestureSlot? && HoldWaits(e.gestures, token.slot.vk, token.id)
  }

  /** What is left of a press whose Hold's timer was refused: its Tap and its
      DoubleTap, if it has one of them; and all of one that waits already. */
  ghost predicate KeepsTheRest<A>(p: Press<A>, table: GestureTable<A>) {
    match p.phase
    case AwaitSecond(_, _, _) => p in table.presses
    case Held(tap, _, double) => tap.Some? || double.Some? ==> p.(phase := Held(tap, None, double)) in table.presses
  }

  lemma ForgettingFacts<A>(g: GestureTable<A>, vk: Vk, id: nat, lastId: nat)
    requires TableInv(g, lastId)
    ensures var (table, lost) := ForgetOf(g, vk, id);
            && (lost <==> HoldWaits(g, vk, id))
            && !HoldWaits(table, vk, id)
            && (forall p :: p in g.presses && !(p.vk == vk && p.id == id) ==> p in table.presses)
            && (forall p :: p in g.presses && p.vk == vk && p.id == id ==> KeepsTheRest(p, table))
            && (forall h :: h in table.dueHolds <==> h in g.dueHolds && !(h.vk == vk && h.id == id))
            && (forall q :: q in table.presses ==> q in g.presses || (q.vk == vk && q.id == id))
  {
    hide DistinctHolds;
    var want := ArmedAs(vk, id);
    var table := ForgetOf(g, vk, id).0;
    if FindHold(g.dueHolds, vk, id).Some? {
      forall p | p in g.presses ensures !(p.vk == vk && p.id == id) {}
    } else {
      forall h | h in g.dueHolds ensures !(h.vk == vk && h.id == id) { assert !IsHold(h, vk, id); }
      match Find(g.presses, want)
      case None =>
        forall p | p in g.presses ensures !(p.vk == vk && p.id == id) { assert !Fits(want, p); }
      case Some(p) =>
        ForgettingAPress(g, p, lastId);
    }
  }

  lemma ForgettingAPress<A>(g: GestureTable<A>, p: Press<A>, lastId: nat)
    requires TableInv(g, lastId) && Find(g.presses, ArmedAs(p.vk, p.id)) == Some(p) && FindHold(g.dueHolds, p.vk, p.id).None?
    ensures var (table, lost) := ForgetOf(g, p.vk, p.id);
            && (lost <==> p.phase.Held? && p.phase.hold.Some?)
            && table.dueHolds == g.dueHolds
            && (forall q :: q in g.presses && q.vk == p.vk && q.id == p.id ==> q == p)
            && (forall q :: q in g.presses && q != p ==> q in table.presses)
            && KeepsTheRest(p, table)
            && (forall q :: q in table.presses ==> (q in g.presses && q != p) || (q.vk == p.vk && q.id == p.id && !(q.phase.Held? && q.phase.hold.Some?)))
  {
    hide Find, Without, Replaced, DistinctPresses, DistinctHolds;
    var want := ArmedAs(p.vk, p.id);
    forall q | q in g.presses && q.vk == p.vk ensures q == p { OnlyPressOfItsKey(g.presses, p, q); }
    if p.phase.Held? {
      var other := p.(phase := p.phase.(hold := None));
      forall q | q in g.presses && q != p ensures q in Without(g.presses, want) && q in Replaced(g.presses, want, other) {
        WithoutLeavesTheRest(g.presses, want, q);
        ReplacedLeavesTheRest(g.presses, want, q, other);
      }
      WithoutIsRid(g.presses, want);
      ReplacingDrops(g.presses, want, p, other);
    }
  }

  lemma {:induction false} ReplacingDrops<A>(ps: seq<Press<A>>, want: Want, p: Press<A>, other: Press<A>)
    requires DistinctPresses(ps) && Find(ps, want) == Some(p)
    ensures other in Replaced(ps, want, other)
    ensures forall q :: q in Replaced(ps, want, other) ==> q == other || (q in ps && q != p)
  {
    if !Fits(want, ps[0]) {
      ReplacingDrops(ps[1..], want, p, other);
    }
  }

  /** A refused timer takes the Hold it was to fire, and nothing else. */
  lemma RefusalTakesTheHold(e: EngineState, token: TimerToken)
    requires EngineInv(e)
    ensures var (e', lost) := ForgetTimer(e, token);
            && (lost <==> FiresAHold(e, token))
            && (forall other :: FiresAHold(e', other) <==> FiresAHold(e, other) && other != token)
            && e' == e.(gestures := e'.gestures)
            && (forall p :: p in e.gestures.presses && TimerToken(e.generation, GestureSlot(p.vk), p.id) != token ==> p in e'.gestures.presses)
            && (forall p :: p in e.gestures.presses && TimerToken(e.generation, GestureSlot(p.vk), p.id) == token ==> KeepsTheRest(p, e'.gestures))
            && EngineInv(e')
  {
    hide ForgetOf, TableInv, KeepsTheRest, ChordInv, SequenceInv, HeldRecorded;
    ForgetOpInv(e, token);
    if token.generation == e.generation && token.slot.GestureSlot? {
      ForgettingFacts(e.gestures, token.slot.vk, token.id, e.lastId);
      var e' := ForgetTimer(e, token).0;
      forall other ensures FiresAHold(e', other) <==> FiresAHold(e, other) && other != token {}
    }
  }

  // ----- all the timers of a decision -----

  ghost function AcceptedOf(timers: seq<TimerRequest>, accepts: TimerRequest -> bool): seq<TimerRequest> {
    if timers == [] then [] else (if accepts(timers[0]) then [timers[0]] else []) + AcceptedOf(timers[1..], accepts)
  }

  /** How many Holds the refused timers were to fire. */
  ghost function HoldsRefused(e: EngineState, timers: seq<TimerRequest>, accepts: TimerRequest -> bool): nat {
    if timers == [] then 0
    else (if !accepts(timers[0]) && FiresAHold(e, timers[0].token) then 1 else 0) + HoldsRefused(e, timers[1..], accepts)
  }

  ghost predicate IsRefused(token: TimerToken, timers: seq<TimerRequest>, accepts: TimerRequest -> bool) {
    exists r :: r in timers && r.token == token && !accepts(r)
  }

  ghost predicate EachTokenOnce(timers: seq<TimerRequest>) {
    forall i, j :: 0 <= i < j < |timers| ==> timers[i].token != timers[j].token
  }

  lemma {:induction false} OthersRefused(e: EngineState, e': EngineState, timers: seq<TimerRequest>, accepts: TimerRequest -> bool)
    requires forall r :: r in timers ==> (FiresAHold(e', r.token) <==> FiresAHold(e, r.token))
    ensures HoldsRefused(e', timers, accepts) == HoldsRefused(e, timers, accepts)
  {
    hide FiresAHold;
    if timers != [] {
      OthersRefused(e, e', timers[1..], accepts);
    }
  }

  lemma {:induction false} EachIsStartedOrForgotten(e: EngineState, timers: seq<TimerRequest>, queue: seq<TimerRequest>, accepts: TimerRequest -> bool, dropped: nat)
    requires EngineInv(e) && EachTokenOnce(timers)
    ensures var s := StartEach(e, timers, queue, accepts, dropped);
            && s.queue == queue + AcceptedOf(timers, accepts)
            && s.dropped == dropped + HoldsRefused(e, timers, accepts)
            && (forall token :: FiresAHold(s.e, token) <==> FiresAHold(e, token) && !IsRefused(token, timers, accepts))
    decreases |timers|
  {
    hide EngineInv, FiresAHold, ForgetTimer, KeepsTheRest;
    if timers == [] {
      assert queue + [] == queue;
    } else {
      var first, rest := timers[0], timers[1..];
      assert timers == [first] + rest;
      forall token ensures IsRefused(token, timers, accepts) <==> (token == first.token && !accepts(first)) || IsRefused(token, rest, accepts) {}
      if accepts(first) {
        assert queue + [first] + AcceptedOf(rest, accepts) == queue + ([first] + AcceptedOf(rest, accepts));
        EachIsStartedOrForgotten(e, rest, queue + [first], accepts, dropped);
      } else {
        RefusalTakesTheHold(e, first.token);
        var (forgotten, lost) := ForgetTimer(e, first.token);
        forall r | r in rest ensures r.token != first.token {
          var j :| 0 <= j < |rest| && rest[j] == r;
          assert timers[j + 1] == r;
        }
        OthersRefused(e, forgotten, rest, accepts);
        assert [] + AcceptedOf(rest, accepts) == AcceptedOf(rest, accepts);
        EachIsStartedOrForgotten(forgotten, rest, queue, accepts, if lost then dropped + 1 else dropped);
      }
    }
  }

  /** Starting the timers of a decision. The queue is that before without what
      no longer waits, and then the accepted requests in order; the count is
      that of the Holds the refused ones were to fire; and exactly these Holds
      are gone. So a Hold that had its timer queued or asked for has it queued. */
  lemma RefusedTimersLoseTheirHolds(e: EngineState, timers: seq<TimerRequest>, queue: seq<TimerRequest>, accepts: TimerRequest -> bool)
    requires EngineInv(e) && EachTokenOnce(timers)
    ensures var s := StartTimers(e, timers, queue, accepts);
            && s.dropped == HoldsRefused(e, timers, accepts)
            && (forall token :: FiresAHold(s.e, token) <==> FiresAHold(e, token) && !IsRefused(token, timers, accepts))
            && (forall r :: r in s.queue <==> (r in timers && accepts(r)) || (r in queue && (timers == [] || IsLive(e, r.token))))
            && |s.queue| >= |AcceptedOf(timers, accepts)|
            && s.queue[|s.queue| - |AcceptedOf(timers, accepts)|..] == AcceptedOf(timers, accepts)
  {
    hide EngineInv, FiresAHold, StartEach, IsLive, HoldsRefused, RetainLive;
    if timers == [] {
      NothingToStart(e, accepts);
    } else {
      EachIsStartedOrForgotten(e, timers, Pruned(e, queue), accepts, 0);
      AcceptedMembers(timers, accepts);
    }
  }

  lemma NothingToStart(e: EngineState, accepts: TimerRequest -> bool)
    ensures HoldsRefused(e, [], accepts) == 0 && AcceptedOf([], accepts) == []
  {}

  lemma {:induction false} AcceptedMembers(timers: seq<TimerRequest>, accepts: TimerRequest -> bool)
    ensures forall r :: r in AcceptedOf(timers, accepts) <==> r in timers && accepts(r)
  {
    if timers != [] {
      AcceptedMembers(timers[1..], accepts);
      assert timers == [timers[0]] + timers[1..];
    }
  }

  /** A press that lost its Hold is decided at its key-up as if its group had
      none. */
  lemma WithoutItsHold(g: GestureTable<Action>, vk: Vk, group: GroupArming<Action>, began: nat, id: nat, lasted: nat, passed: bool, newId: nat, lastId: nat)
    requires TableInv(g, lastId) && Armed(vk, group, began, id) in g.presses
    requires group.tap.Some? || group.doubleTap.Some?
    ensures var fate := FateOf(group.(hold := None), began, lasted);
            var forgotten := ForgetOf(g, vk, id).0;
            var (table, released) := ReleaseOf(forgotten, vk, began + lasted, passed, newId);
            && released.fired == (if fate.TappedNow? then Some(fate.action) else None)
            && (if fate.MayDouble? then Waiting(group, vk, newId, fate, passed) in table.presses else NonePending(table, vk))
            && table.dueHolds == forgotten.dueHolds
  {
    hide ForgetOf, ReleaseOf, TableInv;
    ForgettingFacts(g, vk, id, lastId);
    ForgetInv(g, vk, id, lastId);
    var forgotten := ForgetOf(g, vk, id).0;
    assert KeepsTheRest(Armed(vk, group, began, id), forgotten);
    assert Armed(vk, group.(hold := None), began, id) in forgotten.presses;
    KeyUpDecides(forgotten, vk, group.(hold := None), began, id, lasted, passed, newId, lastId);
  }
}
