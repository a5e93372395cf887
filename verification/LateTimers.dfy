/** A late timer changes no outcome: no verdict, and no action's number of firings. */
module LateTimers {
  import opened Options
  import opened Modifiers
  import opened KeySpecs
  import opened Conditions
  import opened Bindings
  import opened KeyTables
  import opened Winners
  import opened GestureTables
  import opened GestureFacts
  import opened RipeGestures
  import opened Timers
  import opened Resyncs
  import opened EngineStates
  import opened EngineFacts
  import opened Tokens
  import Chords = ChordTables
  import Sequences = SequenceTables

  /** The two states differ at most in what is due by `t`: the presses that
      still wait, the unexpired chords and sequences and all the rest agree. */
  ghost predicate Alike(e1: EngineState, e2: EngineState, t: nat) {
    && e1.keys == e2.keys
    && NormalTable(e1.gestures, t) == NormalTable(e2.gestures, t)
    && Chords.Unexpired(e1.chords, t) == Chords.Unexpired(e2.chords, t)
    && Sequences.Unexpired(e1.sequences, t) == Sequences.Unexpired(e2.sequences, t)
    && e1.maskOwed == e2.maskOwed && e1.generation == e2.generation && e1.lastId == e2.lastId
    && e1.resync == e2.resync
  }

  ghost function Due(e: EngineState, t: nat, x: Action): nat {
    Ripe(e.gestures, t, x)
  }

  // ----- chords and sequences: the expiry timers refine the lazy check -----

  lemma {:induction false} UnexpiredChordsLater(ps: seq<Chords.PendingChord>, t: nat, later: nat)
    requires t <= later
    ensures Chords.Unexpired(Chords.Unexpired(ps, t), later) == Chords.Unexpired(ps, later)
  {
    if ps != [] {
      UnexpiredChordsLater(ps[1..], t, later);
      var rest := Chords.Unexpired(ps[1..], t);
      if ps[0].expiresAt > t {
        assert Chords.Unexpired(ps, t)[1..] == rest;
      } else {
        assert Chords.Unexpired(ps, t) == rest;
      }
    }
  }

  lemma {:induction false} UnexpiredSequencesLater(ps: seq<Sequences.PendingSequence>, t: nat, later: nat)
    requires t <= later
    ensures Sequences.Unexpired(Sequences.Unexpired(ps, t), later) == Sequences.Unexpired(ps, later)
  {
    if ps != [] {
      UnexpiredSequencesLater(ps[1..], t, later);
      var rest := Sequences.Unexpired(ps[1..], t);
      if ps[0].expiresAt > t {
        assert Sequences.Unexpired(ps, t)[1..] == rest;
      } else {
        assert Sequences.Unexpired(ps, t) == rest;
      }
    }
  }

  /** An expiry timer delivered at or after the deadline drops only entries the
      next key-down would drop. */
  lemma {:induction false} ChordExpiryIsInvisible(ps: seq<Chords.PendingChord>, id: nat, t: nat)
    requires forall p :: p in ps && p.id == id ==> p.expiresAt <= t
    ensures Chords.Unexpired(Chords.ExpireChord(ps, id), t) == Chords.Unexpired(ps, t)
  {
    if ps != [] {
      ChordExpiryIsInvisible(ps[1..], id, t);
      var rest := Chords.ExpireChord(ps[1..], id);
      if ps[0].id != id {
        assert Chords.ExpireChord(ps, id)[1..] == rest;
      } else {
        assert Chords.ExpireChord(ps, id) == rest;
      }
    }
  }

  lemma {:induction false} SequenceExpiryIsInvisible(ps: seq<Sequences.PendingSequence>, id: nat, t: nat)
    requires forall p :: p in ps && p.id == id ==> p.expiresAt <= t
    ensures Sequences.Unexpired(Sequences.ExpireSequence(ps, id), t) == Sequences.Unexpired(ps, t)
  {
    if ps != [] {
      SequenceExpiryIsInvisible(ps[1..], id, t);
      var rest := Sequences.ExpireSequence(ps[1..], id);
      if ps[0].id != id {
        assert Sequences.ExpireSequence(ps, id)[1..] == rest;
      } else {
        assert Sequences.ExpireSequence(ps, id) == rest;
      }
    }
  }

  /** Tables that differ only in expired entries give the same outcome, and
      differ only in expired entries afterwards. */
  lemma ChordOutcomeIgnoresExpired(ps: seq<Chords.PendingChord>, qs: seq<Chords.PendingChord>, f: Chords.ChordFeed)
    requires Chords.Unexpired(ps, f.now) == Chords.Unexpired(qs, f.now)
    ensures Chords.FeedChord(ps, f).1 == Chords.FeedChord(qs, f).1
    ensures Chords.Unexpired(Chords.FeedChord(ps, f).0, f.now) == Chords.Unexpired(Chords.FeedChord(qs, f).0, f.now)
  {}

  lemma SequenceOutcomeIgnoresExpired(ps: seq<Sequences.PendingSequence>, qs: seq<Sequences.PendingSequence>, f: Sequences.SequenceFeed)
    requires Sequences.Unexpired(ps, f.now) == Sequences.Unexpired(qs, f.now)
    ensures Sequences.FeedSequence(ps, f).1 == Sequences.FeedSequence(qs, f).1
    ensures Sequences.Unexpired(Sequences.FeedSequence(ps, f).0, f.now) == Sequences.Unexpired(Sequences.FeedSequence(qs, f).0, f.now)
  {
    hide Sequences.Unexpired, Sequences.PlaceOf, Sequences.StartSequence, Sequences.AdvanceSequence, Sequences.MatchesStep, Sequences.SameSteps;
  }

  // ----- time passes, a timer runs -----

  lemma AlikeLater(e1: EngineState, e2: EngineState, t: nat, later: nat, x: Action)
    requires Alike(e1, e2, t) && t <= later
    ensures Alike(e1, e2, later)
    ensures Due(e1, later, x) - Due(e1, t, x) == Due(e2, later, x) - Due(e2, t, x)
  {
    NormalLater(e1.gestures, t, later, x);
    NormalLater(e2.gestures, t, later, x);
    UnexpiredChordsLater(e1.chords, t, later);
    UnexpiredChordsLater(e2.chords, t, later);
    UnexpiredSequencesLater(e1.sequences, t, later);
    UnexpiredSequencesLater(e2.sequences, t, later);
  }

  lemma DeliveryIsInvisible(e: EngineState, token: TimerToken, t: nat, x: Action)
    requires EngineInv(e)
    requires forall due: nat :: IsWaiting(e, TimerRequest(token, due)) ==> due <= t
    ensures var turn := OnTimer(e, token);
            Alike(turn.e, e, t) && Count(turn.d.fire, x) + Due(turn.e, t, x) == Due(e, t, x)
  {
    if token.generation == e.generation {
      match token.slot
      case GestureSlot(vk) =>
        forall due: nat | IsWait(e.gestures, vk, token.id, due) ensures due <= t {
          assert IsWaiting(e, TimerRequest(token, due));
        }
        TimerOnlyFiresRipe(e.gestures, vk, token.id, t, x);
      case ChordSlot =>
        forall p | p in e.chords && p.id == token.id ensures p.expiresAt <= t {
          assert IsWaiting(e, TimerRequest(token, p.expiresAt));
        }
        ChordExpiryIsInvisible(e.chords, token.id, t);
      case SequenceSlot =>
        forall p | p in e.sequences && p.id == token.id ensures p.expiresAt <= t {
          assert IsWaiting(e, TimerRequest(token, p.expiresAt));
        }
        SequenceExpiryIsInvisible(e.sequences, token.id, t);
    }
  }

  // ----- a key-down -----

  /** Two turns on alike engines: the same verdict so far, and `x` fired
      `ahead` times more in the first. */
  ghost predicate TurnsAlike(t1: Turn, t2: Turn, now: nat, x: Action, ahead: int) {
    && Alike(t1.e, t2.e, now)
    && t1.d.suppress == t2.d.suppress && t1.d.mask == t2.d.mask
    && Count(t1.d.fire, x) == Count(t2.d.fire, x) + ahead
  }

  lemma FiringAlike(t1: Turn, t2: Turn, now: nat, x: Action, ahead: int, action: Action)
    requires TurnsAlike(t1, t2, now, x, ahead)
    ensures TurnsAlike(t1.Firing(action), t2.Firing(action), now, x, ahead)
  {
    CountConcat(t1.d.fire, [action], x);
    CountConcat(t2.d.fire, [action], x);
  }

  lemma VisitWinnerAlike(t1: Turn, t2: Turn, b: Binding, wasRepeat: bool, now: nat, x: Action, ahead: int)
    requires TurnsAlike(t1, t2, now, x, ahead)
    ensures TurnsAlike(VisitWinner(t1, b, wasRepeat), VisitWinner(t2, b, wasRepeat), now, x, ahead)
  {
    FiringAlike(t1, t2, now, x, ahead, b.action);
  }

  lemma AfterSequenceAlike(t1: Turn, t2: Turn, outcome: Sequences.SequenceOutcome, id: nat, now: nat, x: Action, ahead: int)
    requires TurnsAlike(t1, t2, now, x, ahead)
    ensures TurnsAlike(AfterSequence(t1, outcome, id), AfterSequence(t2, outcome, id), now, x, ahead)
  {
    if outcome.Finished? {
      FiringAlike(t1, t2, now, x, ahead, outcome.action);
    }
  }

  lemma AfterChordAlike(t1: Turn, t2: Turn, outcome: Chords.ChordOutcome, id: nat, now: nat, x: Action, ahead: int)
    requires TurnsAlike(t1, t2, now, x, ahead)
    ensures TurnsAlike(AfterChord(t1, outcome, id), AfterChord(t2, outcome, id), now, x, ahead)
  {
    if outcome.Completed? {
      FiringAlike(t1, t2, now, x, ahead, outcome.action);
    }
  }

  lemma FedSequenceAlike(t1: Turn, t2: Turn, f: Sequences.SequenceFeed, x: Action, ahead: int)
    requires TurnsAlike(t1, t2, f.now, x, ahead)
    ensures TurnsAlike(FedSequence(t1, f), FedSequence(t2, f), f.now, x, ahead)
    ensures Sequences.FeedSequence(t1.e.sequences, f).1 == Sequences.FeedSequence(t2.e.sequences, f).1
  {
    hide Sequences.FeedSequence, Sequences.Unexpired;
    SequenceOutcomeIgnoresExpired(t1.e.sequences, t2.e.sequences, f);
  }

  lemma FedChordAlike(t1: Turn, t2: Turn, f: Chords.ChordFeed, x: Action, ahead: int)
    requires TurnsAlike(t1, t2, f.now, x, ahead)
    ensures TurnsAlike(FedChord(t1, f), FedChord(t2, f), f.now, x, ahead)
    ensures Chords.FeedChord(t1.e.chords, f).1 == Chords.FeedChord(t2.e.chords, f).1
  {
    hide Chords.FeedChord, Chords.Unexpired;
    ChordOutcomeIgnoresExpired(t1.e.chords, t2.e.chords, f);
  }

  lemma VisitSequenceAlike(t1: Turn, t2: Turn, b: Binding, press: KeyDown, now: nat, x: Action, ahead: int)
    requires b.kind.Sequence? && TurnsAlike(t1, t2, now, x, ahead)
    ensures TurnsAlike(VisitSequence(t1, b, press, now), VisitSequence(t2, b, press, now), now, x, ahead)
  {
    assert t1.e.lastId == t2.e.lastId;
    hide Sequences.FeedSequence, FedSequence, AfterSequence, TurnsAlike;
    var f := SequenceFeedOf(t1, b, press, now);
    FedSequenceAlike(t1, t2, f, x, ahead);
    AfterSequenceAlike(FedSequence(t1, f), FedSequence(t2, f), Sequences.FeedSequence(t1.e.sequences, f).1, f.id, now, x, ahead);
  }

  lemma VisitChordAlike(t1: Turn, t2: Turn, b: Binding, press: KeyDown, now: nat, x: Action, ahead: int)
    requires b.kind.Chord? && TurnsAlike(t1, t2, now, x, ahead)
    ensures TurnsAlike(VisitChord(t1, b, press, now), VisitChord(t2, b, press, now), now, x, ahead)
  {
    assert t1.e.lastId == t2.e.lastId;
    hide Chords.FeedChord, FedChord, AfterChord, TurnsAlike;
    var f := ChordFeedOf(t1, b, press, now);
    FedChordAlike(t1, t2, f, x, ahead);
    AfterChordAlike(FedChord(t1, f), FedChord(t2, f), Chords.FeedChord(t1.e.chords, f).1, f.id, now, x, ahead);
  }

  lemma VisitBlockerAlike(t1: Turn, t2: Turn, b: Binding, wasRepeat: bool, press: KeyDown, env: Env, x: Action, ahead: int)
    requires b.kind.Combo? && b.autoBlocker.Some? && TurnsAlike(t1, t2, env.now, x, ahead)
    ensures TurnsAlike(VisitBlocker(t1, b, wasRepeat, press, env), VisitBlocker(t2, b, wasRepeat, press, env), env.now, x, ahead)
  {}

  lemma {:induction false} VisitFromAlike(t1: Turn, t2: Turn, bindings: seq<Binding>, i: nat, winner: Option<nat>, wasRepeat: bool, press: KeyDown, env: Env, x: Action, ahead: int)
    requires i <= |bindings| && (winner.Some? ==> winner.value < |bindings|)
    requires TurnsAlike(t1, t2, env.now, x, ahead)
    ensures TurnsAlike(VisitFrom(t1, bindings, i, winner, wasRepeat, press, env),
                       VisitFrom(t2, bindings, i, winner, wasRepeat, press, env), env.now, x, ahead)
    decreases |bindings| - i
  {
    if i < |bindings| {
      var b := bindings[i];
      match b.kind {
        case Combo(_) =>
          if b.autoBlocker.Some? {
            VisitBlockerAlike(t1, t2, b, wasRepeat, press, env, x, ahead);
          } else {
            VisitWinnerAlike(t1, t2, b, wasRepeat, env.now, x, ahead);
          }
        case Sequence(_, _) => VisitSequenceAlike(t1, t2, b, press, env.now, x, ahead);
        case Chord(_, _) => VisitChordAlike(t1, t2, b, press, env.now, x, ahead);
      }
      VisitFromAlike(VisitBinding(t1, bindings, i, winner, wasRepeat, press, env),
                     VisitBinding(t2, bindings, i, winner, wasRepeat, press, env),
                     bindings, i + 1, winner, wasRepeat, press, env, x, ahead);
    }
  }

  /** Arming on tables with the same normal form. */
  lemma PressAlike(g1: GestureTable<Action>, g2: GestureTable<Action>, vk: Vk, group: Option<GroupArming<Action>>, keys: KeyTable, t: nat, id: nat, lastId: nat, x: Action)
    requires TableInv(g1, lastId) && TableInv(g2, lastId)
    requires NormalTable(g1, t) == NormalTable(g2, t)
    ensures var k1, k2 := g1.(presses := Kept(g1.presses, vk, keys, t)), g2.(presses := Kept(g2.presses, vk, keys, t));
            var r1, r2 := PressOf(k1, vk, group, t, id), PressOf(k2, vk, group, t, id);
            && NormalTable(r1.table, t) == NormalTable(r2.table, t)
            && Count(EndedTaps(g1.presses, vk, keys, t) + r1.fired, x) + Ripe(r1.table, t, x) + Ripe(g2, t, x)
            == Count(EndedTaps(g2.presses, vk, keys, t) + r2.fired, x) + Ripe(r2.table, t, x) + Ripe(g1, t, x)
  {
    var k1, k2 := g1.(presses := Kept(g1.presses, vk, keys, t)), g2.(presses := Kept(g2.presses, vk, keys, t));
    KeptAgrees(g1, vk, keys, t, x);
    KeptAgrees(g2, vk, keys, t, x);
    KeptInv(g1, vk, keys, t, lastId);
    KeptInv(g2, vk, keys, t, lastId);
    PressAgrees(k1, vk, group, t, id, x);
    PressAgrees(k2, vk, group, t, id, x);
    CountConcat(EndedTaps(g1.presses, vk, keys, t), PressOf(k1, vk, group, t, id).fired, x);
    CountConcat(EndedTaps(g2.presses, vk, keys, t), PressOf(k2, vk, group, t, id).fired, x);
  }

  lemma ArmGroupAlike(e1: EngineState, e2: EngineState, group: Option<GroupArming<Action>>, vk: Vk, now: nat, x: Action)
    requires TableInv(e1.gestures, e1.lastId) && TableInv(e2.gestures, e2.lastId)
    requires Alike(e1, e2, now)
    ensures SameOutcome(e1, e2, ArmGroup(e1, group, vk, now), ArmGroup(e2, group, vk, now), now, x)
  {
    hide PressOf, Kept, EndedTaps, Ripe, NormalTable, TableInv;
    PressAlike(e1.gestures, e2.gestures, vk, group, e1.keys, now, e1.lastId + 1, e1.lastId, x);
  }

  /** `e1` and `e2` became `t1` and `t2`: the same verdict, and every action as
      often fired or due in both. */
  ghost predicate SameOutcome(e1: EngineState, e2: EngineState, t1: Turn, t2: Turn, now: nat, x: Action) {
    TurnsAlike(t1, t2, now, x, Due(e1, now, x) + Due(t2.e, now, x) - Due(e2, now, x) - Due(t1.e, now, x))
  }

  lemma EndDownAlike(t1: Turn, t2: Turn, vk: Vk, wasRepeat: bool, now: nat, x: Action, ahead: int)
    requires TurnsAlike(t1, t2, now, x, ahead)
    ensures TurnsAlike(MaskIfSwallowed(RecordDown(t1, vk, wasRepeat)), MaskIfSwallowed(RecordDown(t2, vk, wasRepeat)), now, x, ahead)
  {
  }

  lemma EndTurn(t1: Turn, t2: Turn, vk: Vk, wasRepeat: bool, env: Env, bindings: seq<Binding>, winner: Option<nat>, press: KeyDown, x: Action, ahead: int)
    requires winner.Some? ==> winner.value < |bindings|
    requires TurnsAlike(t1, t2, env.now, x, ahead)
    ensures var u1 := VisitFrom(t1, bindings, 0, winner, wasRepeat, press, env);
            var u2 := VisitFrom(t2, bindings, 0, winner, wasRepeat, press, env);
            var v1, v2 := MaskIfSwallowed(RecordDown(u1, vk, wasRepeat)), MaskIfSwallowed(RecordDown(u2, vk, wasRepeat));
            && TurnsAlike(v1, v2, env.now, x, ahead)
            && v1.e.gestures == t1.e.gestures && v2.e.gestures == t2.e.gestures
  {
    hide TurnsAlike, VisitBinding;
    VisitFromAlike(t1, t2, bindings, 0, winner, wasRepeat, press, env, x, ahead);
    VisitFromMarksOnly(t1, bindings, 0, winner, wasRepeat, press, env);
    VisitFromMarksOnly(t2, bindings, 0, winner, wasRepeat, press, env);
    EndDownAlike(VisitFrom(t1, bindings, 0, winner, wasRepeat, press, env),
                 VisitFrom(t2, bindings, 0, winner, wasRepeat, press, env), vk, wasRepeat, env.now, x, ahead);
  }

  lemma DecideDownSameOutcome(e1: EngineState, e2: EngineState, bindings: seq<Binding>, winner: Option<nat>, group: Option<GroupArming<Action>>, wasRepeat: bool, press: KeyDown, env: Env, x: Action)
    requires winner.Some? ==> winner.value < |bindings|
    requires TableInv(e1.gestures, e1.lastId) && TableInv(e2.gestures, e2.lastId)
    requires Alike(e1, e2, env.now)
    ensures SameOutcome(e1, e2, DecideDown(e1, bindings, winner, group, wasRepeat, press, env),
                                DecideDown(e2, bindings, winner, group, wasRepeat, press, env), env.now, x)
  {
    hide ArmGroup, RecordDown, MaskIfSwallowed, VisitBinding;
    var s1 := if wasRepeat then Turn(e1, Nothing) else ArmGroup(e1, group, press.vk, env.now);
    var s2 := if wasRepeat then Turn(e2, Nothing) else ArmGroup(e2, group, press.vk, env.now);
    if !wasRepeat {
      ArmGroupAlike(e1, e2, group, press.vk, env.now, x);
    }
    EndTurn(s1, s2, press.vk, wasRepeat, env, bindings, winner, press, x,
            Due(e1, env.now, x) + Due(s2.e, env.now, x) - Due(e2, env.now, x) - Due(s1.e, env.now, x));
  }

  lemma KeyDownSameOutcome(e1: EngineState, e2: EngineState, vk: Vk, bindings: seq<Binding>, env: Env, x: Action)
    requires TableInv(e1.gestures, e1.lastId) && TableInv(e2.gestures, e2.lastId)
    requires Alike(e1, e2, env.now)
    ensures SameOutcome(e1, e2, EngineStates.OnKeyDown(e1, vk, bindings, env), EngineStates.OnKeyDown(e2, vk, bindings, env), env.now, x)
  {
    var held1, held2 := e1.(keys := e1.keys.Press(vk)), e2.(keys := e2.keys.Press(vk));
    var press := KeyDown(vk, held1.keys.active, env.foreground);
    var winner := ElectOf(bindings, press);
    DecideDownSameOutcome(held1, held2, bindings, winner, GroupOf(bindings, winner, press), e1.keys.Active(vk), press, env, x);
  }

  // ----- a key-up -----

  /** In a well-formed engine a pending gesture never decides a key-up of a
      code in the table: its press is on record as passed or swallowed. */
  lemma GestureEvidenceIsOnRecord(e: EngineState, vk: Vk, now: nat)
    requires EngineInv(e) && vk < 256
    ensures ResolvePress(e, vk, now).0.e.keys == e.keys
    ensures ResolvePress(e, vk, now).1 ==> e.keys.last[vk] in {Passed, Suppressed}
  {
    if ResolvePress(e, vk, now).1 {
      var p := Find(e.gestures.presses, HeldOf(vk)).value;
      assert p in e.gestures.presses;
    }
  }

  /** No code's gestures ever decide its key-up. */
  ghost predicate EvidenceNeverDecides(vk: Vk) {
    forall e: EngineState, env: Env, bound: bool :: EngineInv(e) && (bound ==> ResolvePress(e, vk, env.now).1) ==>
      ConsumeRecord(Turn(e, Nothing), vk, bound, env.keyDown) == ConsumeRecord(Turn(e, Nothing), vk, false, env.keyDown)
  }

  /** The table is what makes it so: a code outside it has no record, and there
      a pending Hold does decide whether the key-up is swallowed. */
  lemma EvidenceNeverDecidesExactlyInTheTable(vk: Vk)
    ensures EvidenceNeverDecides(vk) <==> vk < 256
  {
    if vk < 256 {
      forall e: EngineState, env: Env, bound: bool | EngineInv(e) && (bound ==> ResolvePress(e, vk, env.now).1)
        ensures ConsumeRecord(Turn(e, Nothing), vk, bound, env.keyDown) == ConsumeRecord(Turn(e, Nothing), vk, false, env.keyDown)
      {
        if bound {
          GestureEvidenceIsOnRecord(e, vk, env.now);
        }
      }
    } else {
      var hold := Press(vk, 1, Held(None, Some(Timed(5, DoNothing)), None));
      var e := NewEngine.(gestures := GestureTable([hold], []), lastId := 1);
      var env := Env(0, code => false, ForegroundInfo(name => false, part => false, title => false));
      assert DistinctPresses([hold]);
      assert EngineInv(e);
      assert Find(e.gestures.presses, HeldOf(vk)) == Some(hold);
      assert ResolvePress(e, vk, env.now).1;
      assert ConsumeRecord(Turn(e, Nothing), vk, true, env.keyDown).d.suppress;
      assert !ConsumeRecord(Turn(e, Nothing), vk, false, env.keyDown).d.suppress;
    }
  }

  lemma ReleaseAlike(g1: GestureTable<Action>, g2: GestureTable<Action>, vk: Vk, now: nat, passed: bool, id: nat, x: Action)
    requires DistinctPresses(g1.presses) && DistinctPresses(g2.presses)
    requires NormalTable(g1, now) == NormalTable(g2, now)
    ensures var (r1, released1) := ReleaseOf(g1, vk, now, passed, id);
            var (r2, released2) := ReleaseOf(g2, vk, now, passed, id);
            && NormalTable(r1, now) == NormalTable(r2, now)
            && Count(ListOf(released1.fired), x) + Ripe(r1, now, x) + Ripe(g2, now, x)
            == Count(ListOf(released2.fired), x) + Ripe(r2, now, x) + Ripe(g1, now, x)
  {
    ReleaseAgrees(g1, vk, now, passed, id, x);
    ReleaseAgrees(g2, vk, now, passed, id, x);
  }

  lemma ResolveAlike(e1: EngineState, e2: EngineState, vk: Vk, now: nat, x: Action)
    requires TableInv(e1.gestures, e1.lastId) && TableInv(e2.gestures, e2.lastId)
    requires Alike(e1, e2, now)
    ensures SameOutcome(e1, e2, ResolvePress(e1, vk, now).0, ResolvePress(e2, vk, now).0, now, x)
  {
    hide ReleaseOf, DistinctPresses, DistinctHolds, NormalTable, Count, Chords.Unexpired, Sequences.Unexpired;
    ReleaseAlike(e1.gestures, e2.gestures, vk, now, e1.keys.IsPassed(vk), e1.lastId + 1, x);
  }

  lemma ConsumeAlike(t1: Turn, t2: Turn, vk: Vk, bound1: bool, bound2: bool, keyDown: Vk -> bool, now: nat, x: Action, ahead: int)
    requires vk < 256 && TurnsAlike(t1, t2, now, x, ahead)
    requires (bound1 || bound2) ==> t1.e.keys.last[vk] in {Passed, Suppressed}
    ensures var v1 := MaskIfSwallowed(ConsumeRecord(t1, vk, bound1, keyDown));
            var v2 := MaskIfSwallowed(ConsumeRecord(t2, vk, bound2, keyDown));
            && TurnsAlike(v1, v2, now, x, ahead)
            && v1.e.gestures == t1.e.gestures && v2.e.gestures == t2.e.gestures
  {
    hide NormalTable, Chords.Unexpired, Sequences.Unexpired, Count, KeyTable.AltOrWinDownInWindows, KeyTable.ClearReleased;
  }

  lemma KeyUpSameOutcome(e1: EngineState, e2: EngineState, vk: Vk, env: Env, x: Action)
    requires EngineInv(e1) && EngineInv(e2) && vk < 256
    requires Alike(e1, e2, env.now)
    ensures SameOutcome(e1, e2, EngineStates.OnKeyUp(e1, vk, env), EngineStates.OnKeyUp(e2, vk, env), env.now, x)
  {
    hide ResolvePress, ConsumeRecord, MaskIfSwallowed, NormalTable, Ripe, Count, TableInv, ChordInv, SequenceInv, Chords.Unexpired, Sequences.Unexpired;
    var up1, up2 := e1.(keys := e1.keys.Release(vk)), e2.(keys := e2.keys.Release(vk));
    QuietInv(e1, up1);
    QuietInv(e2, up2);
    ResolveAlike(up1, up2, vk, env.now, x);
    GestureEvidenceIsOnRecord(up1, vk, env.now);
    GestureEvidenceIsOnRecord(up2, vk, env.now);
    hide EngineInv;
    var (t1, bound1) := ResolvePress(up1, vk, env.now);
    var (t2, bound2) := ResolvePress(up2, vk, env.now);
    ConsumeAlike(t1, t2, vk, bound1, bound2, env.keyDown, env.now, x,
                 Due(e1, env.now, x) + Due(t2.e, env.now, x) - Due(e2, env.now, x) - Due(t1.e, env.now, x));
  }

  lemma KeySameOutcome(e1: EngineState, e2: EngineState, event: KeyEvent, bindings: seq<Binding>, env: Env, x: Action)
    requires EngineInv(e1) && EngineInv(e2) && event.vk < 256
    requires Alike(e1, e2, env.now)
    ensures SameOutcome(e1, e2, OnKey(e1, event, bindings, env), OnKey(e2, event, bindings, env), env.now, x)
  {
    var b1 := e1.(maskOwed := false, resync := e1.resync.Event(event.vk, true));
    var b2 := e2.(maskOwed := false, resync := e2.resync.Event(event.vk, true));
    assert Alike(b1, b2, env.now);
    match event.direction
    case Down =>
      var c1 := b1.(keys := b1.keys.ClearReleased(env.keyDown, event.vk, ALL));
      var c2 := b2.(keys := b2.keys.ClearReleased(env.keyDown, event.vk, ALL));
      assert Alike(c1, c2, env.now);
      KeyDownSameOutcome(c1, c2, event.vk, bindings, env, x);
    case Up =>
      QuietInv(e1, b1);
      QuietInv(e2, b2);
      KeyUpSameOutcome(b1, b2, event.vk, env, x);
  }

  // ----- whole runs -----

  datatype Verdict = Verdict(suppress: bool, mask: bool)

  /** An engine, the queue its timers wait in, and what happened so far. */
  datatype Session = Session(e: EngineState, queue: seq<TimerRequest>, now: nat, fired: seq<Action>, verdicts: seq<Verdict>)

  const NewSession: Session := Session(NewEngine, [], 0, [], [])

  /** An input of the engine, or a timer of the queue handed back at a time. */
  datatype Move = Input(op: EngineOp) | Deliver(place: nat, at: nat)

  /** Key events, drains, foreground changes, input coming back and the
      daemon's own injected events: everything but resets and refused timers. */
  predicate IsInput(op: EngineOp) {
    op.KeyOp? || op.DrainOp? || op.ForegroundOp? || op.ReturnedOp? || op.InjectedOp?
  }

  /** Time does not run backwards, an event has a code of the key table, and a
      timer is handed back at its due time or later. */
  predicate IsLegal(s: Session, m: Move) {
    match m
    case Input(op) => IsInput(op) && (op.KeyOp? ==> op.event.vk < 256 && s.now <= op.env.now)
    case Deliver(place, at) => place < |s.queue| && s.queue[place].due <= at && s.now <= at
  }

  function Next(s: Session, m: Move): Session
    requires IsLegal(s, m)
  {
    match m
    case Input(op) =>
      var t := Step(s.e, op);
      Session(t.e, Queued(t.e, t.d.timers, s.queue),
              if op.KeyOp? then op.env.now else s.now,
              s.fired + t.d.fire,
              if op.KeyOp? then s.verdicts + [Verdict(t.d.suppress, t.d.mask)] else s.verdicts)
    case Deliver(place, at) =>
      var t := OnTimer(s.e, s.queue[place].token);
      s.(e := t.e, queue := WithoutAt(s.queue, place), now := at, fired := s.fired + t.d.fire)
  }

  predicate LegalRun(s: Session, moves: seq<Move>)
    decreases |moves|
  {
    moves == [] || (IsLegal(s, moves[0]) && LegalRun(Next(s, moves[0]), moves[1..]))
  }

  function Play(s: Session, moves: seq<Move>): Session
    requires LegalRun(s, moves)
    decreases |moves|
  {
    if moves == [] then s else Play(Next(s, moves[0]), moves[1..])
  }

  function InputsOf(moves: seq<Move>): seq<EngineOp> {
    if moves == [] then [] else (if moves[0].Input? then [moves[0].op] else []) + InputsOf(moves[1..])
  }

  /** What an engine does whose timers are never handed back. */
  datatype Lazy = Lazy(e: EngineState, fired: seq<Action>, verdicts: seq<Verdict>)

  function LazyStep(l: Lazy, op: EngineOp): Lazy {
    var t := Step(l.e, op);
    Lazy(t.e, l.fired + t.d.fire,
         if op.KeyOp? then l.verdicts + [Verdict(t.d.suppress, t.d.mask)] else l.verdicts)
  }

  function LazyRun(l: Lazy, ops: seq<EngineOp>): Lazy
    decreases |ops|
  {
    if ops == [] then l else LazyRun(LazyStep(l, ops[0]), ops[1..])
  }

  /** The session and the lazy run of its inputs so far differ only in what is
      due: the same verdicts, and every action as often fired or due. */
  ghost predicate Follows(s: Session, l: Lazy) {
    && EngineInv(s.e) && EngineInv(l.e) && QueueInv(s.e, s.queue)
    && Alike(s.e, l.e, s.now)
    && s.verdicts == l.verdicts
    && forall x :: FiredOrDue(s.fired, s.e, s.now, x) == FiredOrDue(l.fired, l.e, s.now, x)
  }

  ghost function FiredOrDue(fired: seq<Action>, e: EngineState, now: nat, x: Action): nat {
    Count(fired, x) + Due(e, now, x)
  }

  lemma TimePasses(s: Session, l: Lazy, later: nat)
    requires Follows(s, l) && s.now <= later
    ensures Follows(s.(now := later), l)
  {
    forall x ensures FiredOrDue(s.fired, s.e, later, x) == FiredOrDue(l.fired, l.e, later, x) {
      AlikeLater(s.e, l.e, s.now, later, x);
      assert FiredOrDue(s.fired, s.e, s.now, x) == FiredOrDue(l.fired, l.e, s.now, x);
    }
    AlikeLater(s.e, l.e, s.now, later, DoNothing);
  }

  lemma DeliveryFollows(s: Session, l: Lazy, place: nat, at: nat)
    requires Follows(s, l) && IsLegal(s, Deliver(place, at))
    ensures Follows(Next(s, Deliver(place, at)), l)
  {
    TimePasses(s, l, at);
    var token := s.queue[place].token;
    var t := OnTimer(s.e, token);
    forall due: nat | IsWaiting(s.e, TimerRequest(token, due)) ensures due <= at {
      LiveMeansAnEntryWaits(s.e, token);
      OneDeadline(s.e, token, due, s.queue[place].due);
    }
    StepInv(s.e, TimerOp(token));
    DeliveryKeepsQueue(s.e, s.queue, place);
    DeliveryIsInvisible(s.e, token, at, DoNothing);
    forall x ensures FiredOrDue(s.fired + t.d.fire, t.e, at, x) == FiredOrDue(l.fired, l.e, at, x) {
      DeliveryIsInvisible(s.e, token, at, x);
      CountConcat(s.fired, t.d.fire, x);
      assert FiredOrDue(s.(now := at).fired, s.e, at, x) == FiredOrDue(l.fired, l.e, at, x);
    }
  }

  lemma KeyInputFollows(s: Session, l: Lazy, op: EngineOp)
    requires op.KeyOp? && op.event.vk < 256 && s.now == op.env.now
    requires Follows(s, l)
    ensures Follows(Next(s, Input(op)), LazyStep(l, op))
  {
    var t, u := Step(s.e, op), Step(l.e, op);
    StepInv(s.e, op);
    StepInv(l.e, op);
    StepKeepsQueue(s.e, s.queue, op);
    KeySameOutcome(s.e, l.e, op.event, op.bindings, op.env, DoNothing);
    forall x ensures FiredOrDue(s.fired + t.d.fire, t.e, s.now, x) == FiredOrDue(l.fired + u.d.fire, u.e, s.now, x) {
      KeySameOutcome(s.e, l.e, op.event, op.bindings, op.env, x);
      CountConcat(s.fired, t.d.fire, x);
      CountConcat(l.fired, u.d.fire, x);
      assert FiredOrDue(s.fired, s.e, s.now, x) == FiredOrDue(l.fired, l.e, s.now, x);
    }
  }

  /** An input that is no key event changes no table and fires nothing. */
  lemma OtherInputIsAlike(e1: EngineState, e2: EngineState, op: EngineOp, now: nat)
    requires IsInput(op) && !op.KeyOp? && Alike(e1, e2, now)
    ensures Alike(Step(e1, op).e, Step(e2, op).e, now)
    ensures Step(e1, op).e.gestures == e1.gestures && Step(e1, op).d == Nothing
    ensures Step(e2, op).e.gestures == e2.gestures && Step(e2, op).d == Nothing
  {
    hide NormalTable, Chords.Unexpired, Sequences.Unexpired, OnKey, OnTimer, Reset, KeyTable.ResyncModifiers, KeyTable.TrackInjected, ResyncState.Plan;
    match op
    case DrainOp(notes, env) =>
    case ForegroundOp =>
    case ReturnedOp =>
    case InjectedOp(event) =>
  }

  lemma OtherInputFollows(s: Session, l: Lazy, op: EngineOp)
    requires IsInput(op) && !op.KeyOp?
    requires Follows(s, l)
    ensures Follows(Next(s, Input(op)), LazyStep(l, op))
  {
    StepInv(s.e, op);
    StepInv(l.e, op);
    StepKeepsQueue(s.e, s.queue, op);
    OtherInputIsAlike(s.e, l.e, op, s.now);
    assert s.fired + [] == s.fired && l.fired + [] == l.fired;
    var s', l' := Next(s, Input(op)), LazyStep(l, op);
    forall x ensures FiredOrDue(s'.fired, s'.e, s'.now, x) == FiredOrDue(l'.fired, l'.e, s'.now, x) {
      assert FiredOrDue(s.fired, s.e, s.now, x) == FiredOrDue(l.fired, l.e, s.now, x);
    }
  }

  lemma MoveFollows(s: Session, l: Lazy, m: Move)
    requires Follows(s, l) && IsLegal(s, m)
    ensures Follows(Next(s, m), if m.Input? then LazyStep(l, m.op) else l)
  {
    match m
    case Deliver(place, at) => DeliveryFollows(s, l, place, at);
    case Input(op) =>
      if op.KeyOp? {
        TimePasses(s, l, op.env.now);
        KeyInputFollows(s.(now := op.env.now), l, op);
        assert Next(s.(now := op.env.now), m) == Next(s, m);
      } else {
        OtherInputFollows(s, l, op);
      }
  }

  lemma {:induction false} RunFollows(s: Session, l: Lazy, moves: seq<Move>)
    requires Follows(s, l) && LegalRun(s, moves)
    ensures Follows(Play(s, moves), LazyRun(l, InputsOf(moves)))
    decreases |moves|
  {
    hide Next, LazyStep, Follows;
    if moves != [] {
      MoveFollows(s, l, moves[0]);
      RunFollows(Next(s, moves[0]), if moves[0].Input? then LazyStep(l, moves[0].op) else l, moves[1..]);
      if moves[0].Input? {
        assert InputsOf(moves)[1..] == InputsOf(moves[1..]);
      } else {
        assert InputsOf(moves) == InputsOf(moves[1..]);
      }
    }
  }

  lemma {:induction false} NothingRipe(ps: seq<Press<Action>>, t: nat, x: Action)
    requires forall p :: p in ps ==> p.phase.TimerDue().None?
    ensures RipeCount(ps, t, x) == 0
  {
    if ps != [] {
      NothingRipe(ps[1..], t, x);
    }
  }

  lemma NothingDue(s: Session, x: Action)
    requires QueueInv(s.e, s.queue) && s.queue == []
    ensures Due(s.e, s.now, x) == 0
  {
    var g := s.e.gestures;
    forall p | p in g.presses ensures p.phase.TimerDue().None? {
      if p.phase.TimerDue().Some? {
        assert IsWaiting(s.e, s.e.Request(GestureSlot(p.vk), p.id, p.phase.TimerDue().value));
      }
    }
    NothingRipe(g.presses, s.now, x);
    if g.dueHolds != [] {
      var h := g.dueHolds[0];
      assert h in g.dueHolds;
      assert IsWaiting(s.e, s.e.Request(GestureSlot(h.vk), h.id, h.due));
    }
  }

  /** With nothing left in the queue, what was fired is what the lazy run has
      fired or has due, at any later time. */
  lemma AllTimersHaveRun(s: Session, l: Lazy, end: nat, x: Action)
    requires Follows(s, l) && s.queue == [] && s.now <= end
    ensures multiset(s.fired)[x] == FiredOrDue(l.fired, l.e, end, x)
  {
    TimePasses(s, l, end);
    NothingDue(s.(now := end), x);
    CountIsMultiplicity(s.fired, x);
    assert FiredOrDue(s.(now := end).fired, s.e, end, x) == FiredOrDue(l.fired, l.e, end, x);
  }

  lemma EmptyFollows()
    ensures Follows(NewSession, Lazy(NewEngine, [], []))
  {
    NewEngineWaitsForNothing();
  }

  /** Two runs on the same inputs, whatever their timers do, swallow and mask
      the same events and end with the same key table. */
  lemma TimersNeverChangeAVerdict(moves: seq<Move>, others: seq<Move>)
    requires LegalRun(NewSession, moves) && LegalRun(NewSession, others)
    requires InputsOf(moves) == InputsOf(others)
    ensures Play(NewSession, moves).verdicts == Play(NewSession, others).verdicts
    ensures Play(NewSession, moves).e.keys == Play(NewSession, others).e.keys
  {
    hide Next, IsLegal, LazyStep;
    EmptyFollows();
    RunFollows(NewSession, Lazy(NewEngine, [], []), moves);
    RunFollows(NewSession, Lazy(NewEngine, [], []), others);
  }

  /** And once all timers have run, both have fired the same actions, each as
      often: no outcome depends on when a timer ran. */
  lemma LateTimersChangeNoOutcome(moves: seq<Move>, others: seq<Move>)
    requires LegalRun(NewSession, moves) && LegalRun(NewSession, others)
    requires InputsOf(moves) == InputsOf(others)
    requires Play(NewSession, moves).queue == [] && Play(NewSession, others).queue == []
    ensures multiset(Play(NewSession, moves).fired) == multiset(Play(NewSession, others).fired)
    ensures Play(NewSession, moves).verdicts == Play(NewSession, others).verdicts
  {
    hide Next, IsLegal, LazyStep, Follows, FiredOrDue;
    TimersNeverChangeAVerdict(moves, others);
    EmptyFollows();
    var lazy := Lazy(NewEngine, [], []);
    RunFollows(NewSession, lazy, moves);
    RunFollows(NewSession, lazy, others);
    var s1, s2, l := Play(NewSession, moves), Play(NewSession, others), LazyRun(lazy, InputsOf(moves));
    var end := s1.now + s2.now;
    forall x ensures multiset(s1.fired)[x] == multiset(s2.fired)[x] {
      AllTimersHaveRun(s1, l, end, x);
      AllTimersHaveRun(s2, l, end, x);
    }
  }
}
