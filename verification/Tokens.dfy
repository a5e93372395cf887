/** Timer tokens: stale ones do nothing, live ones are queued and handed out. */
module Tokens {
  import opened Options
  import opened Modifiers
  import opened Bindings
  import opened KeyTables
  import opened GestureTables
  import opened GestureFacts
  import opened Timers
  import opened Resyncs
  import opened EngineStates
  import opened EngineFacts
  import Sequences = SequenceTables

  // ----- stale tokens -----

  /** A token that is not live leaves the engine as it is and fires nothing. */
  lemma StaleTokenDoesNothing(e: EngineState, token: TimerToken)
    requires !IsLive(e, token)
    ensures OnTimer(e, token) == Turn(e, Nothing)
  {
    if token.generation == e.generation {
      match token.slot
      case GestureSlot(vk) =>
      case ChordSlot =>
        ExpiredChords(e.chords, token.id);
      case SequenceSlot =>
        ExpiredSequences(e.sequences, token.id);
    }
  }

  lemma StepKeepsDead(e: EngineState, op: EngineOp, token: TimerToken)
    requires EngineInv(e)
    requires token.generation <= e.generation && token.id <= e.lastId
    requires !IsLive(e, token)
    ensures !IsLive(Step(e, op).e, token)
  {
    StepInv(e, op);
    LiveMeansAnEntryWaits(e, token);
    LiveMeansAnEntryWaits(Step(e, op).e, token);
    forall due: nat ensures !IsWaiting(Step(e, op).e, TimerRequest(token, due)) {
      assert !IsWaiting(e, TimerRequest(token, due));
    }
  }

  /** A dead token never becomes live again, whatever happens next, resets
      included. */
  lemma {:induction false} DeadStaysDead(e: EngineState, ops: seq<EngineOp>, token: TimerToken)
    requires EngineInv(e)
    requires token.generation <= e.generation && token.id <= e.lastId
    requires !IsLive(e, token)
    ensures !IsLive(RunOps(e, ops), token)
    decreases |ops|
  {
    if ops != [] {
      StepKeepsDead(e, ops[0], token);
      StepInv(e, ops[0]);
      DeadStaysDead(Step(e, ops[0]).e, ops[1..], token);
    }
  }

  lemma DeliveredTokenIsDead(e: EngineState, token: TimerToken)
    requires EngineInv(e)
    ensures !IsLive(OnTimer(e, token).e, token)
  {
    if token.generation == e.generation {
      match token.slot
      case GestureSlot(vk) => TimerInv(e.gestures, vk, token.id, e.lastId);
      case ChordSlot => ExpiredChords(e.chords, token.id);
      case SequenceSlot => ExpiredSequences(e.sequences, token.id);
    }
  }

  /** A token delivers at most once: after its delivery, and any run, handing
      it back again changes nothing and fires nothing. */
  lemma TokenDeliversAtMostOnce(e: EngineState, token: TimerToken, ops: seq<EngineOp>)
    requires EngineInv(e)
    requires token.generation <= e.generation && token.id <= e.lastId
    ensures var later := RunOps(OnTimer(e, token).e, ops);
            OnTimer(later, token) == Turn(later, Nothing)
  {
    DeliveredTokenIsDead(e, token);
    StepInv(e, TimerOp(token));
    DeadStaysDead(OnTimer(e, token).e, ops, token);
    StaleTokenDoesNothing(RunOps(OnTimer(e, token).e, ops), token);
  }

  /** Pruning loses nothing: a request dropped from the queue because its token
      is not live would have done nothing at any later time. */
  lemma PrunedTimersWouldDoNothing(e: EngineState, queue: seq<TimerRequest>, r: TimerRequest, ops: seq<EngineOp>)
    requires EngineInv(e)
    requires r in queue && r !in Pruned(e, queue) && Issued(e, r)
    ensures var later := RunOps(e, ops); OnTimer(later, r.token) == Turn(later, Nothing)
  {
    assert !IsLive(e, r.token);
    DeadStaysDead(e, ops, r.token);
    StaleTokenDoesNothing(RunOps(e, ops), r.token);
  }

  // ----- the token a sequence leaves behind -----

  /** The entry that a key-down finds for its steps and whose next step it
      matches, in time. */
  ghost predicate Advances(e: EngineState, f: Sequences.SequenceFeed, p: Sequences.PendingSequence) {
    var ps := Sequences.Unexpired(e.sequences, f.now);
    var i := Sequences.PlaceOf(ps, f.steps);
    f.steps != [] && i < |ps| && ps[i] == p && Sequences.MatchesStep(f, f.steps, p.nextStep)
  }

  lemma AdvanceDropsTheNumber(ps: seq<Sequences.PendingSequence>, f: Sequences.SequenceFeed, i: nat, lastId: nat)
    requires SequenceInv(ps, lastId) && lastId < f.id && i < |ps|
    ensures !Sequences.IsSequenceLive(Sequences.AdvanceSequence(ps, f, i).0, ps[i].id)
  {
    var table := Sequences.AdvanceSequence(ps, f, i).0;
    forall j | 0 <= j < |table| ensures table[j].id != ps[i].id {
      if |table| == |ps| {
        assert j == i || table[j] == ps[j];
      } else {
        assert table[j] == if j < i then ps[j] else ps[j + 1];
      }
    }
  }

  /** An advanced or completed entry's old token is dead, and its delivery
      changes nothing. */
  lemma AdvancedSequenceLeavesADeadToken(e: EngineState, f: Sequences.SequenceFeed, p: Sequences.PendingSequence)
    requires EngineInv(e) && e.lastId < f.id && Advances(e, f, p)
    ensures var fed := FedSequence(Turn(e, Nothing), f).e;
            var stale := TimerToken(e.generation, SequenceSlot, p.id);
            !IsLive(fed, stale) && OnTimer(fed, stale) == Turn(fed, Nothing)
  {
    hide Sequences.Unexpired, Sequences.PlaceOf, Sequences.StartSequence, Sequences.MatchesStep, OnTimer;
    var ps := Sequences.Unexpired(e.sequences, f.now);
    var i := Sequences.PlaceOf(ps, f.steps);
    UnexpiredSequenceInv(e.sequences, f.now, e.lastId);
    AdvanceDropsTheNumber(ps, f, i, e.lastId);
    var fed := FedSequence(Turn(e, Nothing), f).e;
    StaleTokenDoesNothing(fed, TimerToken(e.generation, SequenceSlot, p.id));
  }

  /** In any step an entry stays as it is, or its token dies for good: then
      its delivery, after any run, changes nothing. */
  lemma MovedSequenceLeavesADeadToken(e: EngineState, op: EngineOp, p: Sequences.PendingSequence, ops: seq<EngineOp>)
    requires EngineInv(e) && p in e.sequences
    requires p !in Step(e, op).e.sequences
    ensures var later := RunOps(Step(e, op).e, ops);
            OnTimer(later, TimerToken(e.generation, SequenceSlot, p.id)) == Turn(later, Nothing)
  {
    var e', token := Step(e, op).e, TimerToken(e.generation, SequenceSlot, p.id);
    StepInv(e, op);
    assert !IsLive(e', token);
    DeadStaysDead(e', ops, token);
    StaleTokenDoesNothing(RunOps(e', ops), token);
  }

  // ----- no wait is lost -----

  /** The queue holds the timer of every wait, every request in it was issued,
      and a request whose token is live has its entry's deadline. */
  ghost predicate QueueInv(e: EngineState, queue: seq<TimerRequest>) {
    && (forall r :: IsWaiting(e, r) ==> r in queue)
    && (forall r :: r in queue ==> Issued(e, r))
    && (forall r :: r in queue && IsLive(e, r.token) ==> IsWaiting(e, r))
  }

  lemma WaitsAreIssued(e: EngineState, r: TimerRequest)
    requires EngineInv(e) && IsWaiting(e, r)
    ensures Issued(e, r)
  {}

  lemma LiveRequestsWait(e: EngineState, queue: seq<TimerRequest>, op: EngineOp, r: TimerRequest)
    requires EngineInv(e) && QueueInv(e, queue)
    requires IsLive(Step(e, op).e, r.token)
    requires r in queue || r in Step(e, op).d.timers
    ensures IsWaiting(Step(e, op).e, r)
  {
    var t := Step(e, op);
    StepInv(e, op);
    LiveMeansAnEntryWaits(t.e, r.token);
    var due: nat :| IsWaiting(t.e, TimerRequest(r.token, due));
    if TimerRequest(r.token, due) in t.d.timers {
      assert r in t.d.timers;
    } else {
      assert IsWaiting(e, TimerRequest(r.token, due));
      WaitsAreIssued(e, TimerRequest(r.token, due));
      LiveMeansAnEntryWaits(e, r.token);
      assert r in queue;
      OneDeadline(e, r.token, due, r.due);
    }
  }

  /** Starting a step's timers keeps the queue complete: no refusal. */
  lemma StepKeepsQueue(e: EngineState, queue: seq<TimerRequest>, op: EngineOp)
    requires EngineInv(e) && QueueInv(e, queue)
    ensures var t := Step(e, op);
            && QueueInv(t.e, Queued(t.e, t.d.timers, queue))
            && QueueInv(t.e, Pruned(t.e, queue) + t.d.timers)
            && (t.d.timers == [] ==> QueueInv(t.e, queue))
  {
    var t := Step(e, op);
    StepInv(e, op);
    forall r | (r in queue || r in t.d.timers) && IsLive(t.e, r.token) ensures IsWaiting(t.e, r) {
      LiveRequestsWait(e, queue, op, r);
    }
    forall r | IsWaiting(t.e, r) ensures IsLive(t.e, r.token) {
      assert r == TimerRequest(r.token, r.due);
      LiveMeansAnEntryWaits(t.e, r.token);
    }
    forall r | IsWaiting(t.e, r) ensures r in Pruned(t.e, queue) || r in t.d.timers {
      assert r in queue || r in t.d.timers;
    }
  }

  /** A timer has no event to swallow or mask, and starts no timer. */
  lemma TimersAskForNone(e: EngineState, token: TimerToken)
    ensures OnTimer(e, token).d == Nothing.(fire := OnTimer(e, token).d.fire)
  {}

  lemma DeliveryKeepsQueue(e: EngineState, queue: seq<TimerRequest>, place: nat)
    requires EngineInv(e) && QueueInv(e, queue) && place < |queue|
    ensures QueueInv(OnTimer(e, queue[place].token).e, WithoutAt(queue, place))
  {
    hide OnTimer, IsLive, IsWaiting, EngineInv, Issued;
    var token := queue[place].token;
    var e' := OnTimer(e, token).e;
    TimersAskForNone(e, token);
    StepInv(e, TimerOp(token));
    StepKeepsQueue(e, queue, TimerOp(token));
    DeliveredTokenIsDead(e, token);
    forall r | IsWaiting(e', r) ensures r in WithoutAt(queue, place) {
      assert r == TimerRequest(r.token, r.due);
      LiveMeansAnEntryWaits(e', r.token);
      assert r in queue && r != queue[place];
      var j :| 0 <= j < |queue| && queue[j] == r;
      assert r == if j < place then WithoutAt(queue, place)[j] else WithoutAt(queue, place)[j - 1];
    }
  }

  // ----- the terminating drain -----

  datatype Drained = Drained(e: EngineState, queue: seq<TimerRequest>, fire: seq<Action>)

  /** Fires every timer due by `target`, earliest first. */
  function DrainTimers(e: EngineState, queue: seq<TimerRequest>, target: nat): Drained
    decreases |queue|
  {
    var place := NextPlace(queue, target);
    if place == |queue| then Drained(e, queue, [])
    else
      var t := OnTimer(e, queue[place].token);
      var rest := DrainTimers(t.e, WithoutAt(queue, place), target);
      rest.(fire := t.d.fire + rest.fire)
  }

  function TimerOps(requests: seq<TimerRequest>): seq<EngineOp> {
    if requests == [] then [] else [TimerOp(requests[0].token)] + TimerOps(requests[1..])
  }

  /** The drain delivers exactly the requests due by the target, in the order
      of the stable sort by due time, and keeps exactly the others. */
  lemma {:induction false} DrainDeliversTheDueOnes(e: EngineState, queue: seq<TimerRequest>, target: nat)
    ensures var drained := DrainTimers(e, queue, target);
            && drained.e == RunOps(e, TimerOps(HandedOut(queue, target)))
            && drained.queue == LeftAfter(queue, target)
    decreases |queue|
  {
    var place := NextPlace(queue, target);
    if place == |queue| {
      AllLeft(queue, target);
    } else {
      var rest := WithoutAt(queue, place);
      var handed := HandedOut(rest, target);
      DrainDeliversTheDueOnes(OnTimer(e, queue[place].token).e, rest, target);
      assert HandedOut(queue, target) == [queue[place]] + handed;
      assert HandedOut(queue, target)[1..] == handed;
      var ops := TimerOps(HandedOut(queue, target));
      assert ops == [TimerOp(queue[place].token)] + TimerOps(handed);
      assert ops[1..] == TimerOps(handed);
      DueIsNotLeft(queue, place, target);
    }
  }

  lemma {:induction false} DrainKeepsQueue(e: EngineState, queue: seq<TimerRequest>, target: nat)
    requires EngineInv(e) && QueueInv(e, queue)
    ensures var drained := DrainTimers(e, queue, target);
            EngineInv(drained.e) && QueueInv(drained.e, drained.queue)
    decreases |queue|
  {
    hide EngineInv, QueueInv, OnTimer, IsLive;
    var place := NextPlace(queue, target);
    if place < |queue| {
      StepInv(e, TimerOp(queue[place].token));
      DeliveryKeepsQueue(e, queue, place);
      DrainKeepsQueue(OnTimer(e, queue[place].token).e, WithoutAt(queue, place), target);
    }
  }

  /** After the drain to `target` no gesture, chord or sequence waits for a
      time that has passed. */
  lemma DrainLeavesNothingWaiting(e: EngineState, queue: seq<TimerRequest>, target: nat)
    requires EngineInv(e) && QueueInv(e, queue)
    ensures forall r :: IsWaiting(DrainTimers(e, queue, target).e, r) ==> r.due > target
  {
    DrainKeepsQueue(e, queue, target);
    DrainDeliversTheDueOnes(e, queue, target);
    LeftIsLate(queue, target);
  }

  lemma NewEngineWaitsForNothing()
    ensures EngineInv(NewEngine) && QueueInv(NewEngine, [])
  {}
}
