/** What every step of the engine keeps: the records its key events leave, the
    invariant of its tables, and where its waits for timers come from. */
module EngineFacts {
  import opened Options
  import opened Modifiers
  import opened Bindings
  import opened KeyTables
  import opened Winners
  import opened GestureTables
  import opened GestureFacts
  import opened Timers
  import opened Resyncs
  import opened EngineStates
  import Chords = ChordTables
  import Sequences = SequenceTables

  // ----- records -----

  /** Completed chords and sequences mark held keys whose key-down did not
      pass as swallowed, and change nothing else. */
  ghost predicate MarksOnly(k: KeyTable, k': KeyTable) {
    && k'.active == k.active
    && forall c :: 0 <= c < 256 ==>
         k'.last[c] == k.last[c] || (k.active[c] && k.last[c] != Passed && k'.last[c] == Suppressed)
  }

  lemma {:induction false} MarkAllMarksOnly(k: KeyTable, codes: seq<Vk>)
    ensures MarksOnly(k, MarkAll(k, codes))
    decreases |codes|
  {
    if codes != [] {
      MarkAllMarksOnly(k.MarkCompleted(codes[0]), codes[1..]);
    }
  }

  /** What a visit leaves alone. */
  ghost predicate Marks(t: Turn, t': Turn) {
    MarksOnly(t.e.keys, t'.e.keys) && t'.e.gestures == t.e.gestures && t'.e.resync == t.e.resync
  }

  lemma AfterSequenceMarksOnly(t: Turn, f: Sequences.SequenceFeed, outcome: Sequences.SequenceOutcome)
    ensures Marks(t, AfterSequence(FedSequence(t, f), outcome, f.id))
  {
    hide Sequences.FeedSequence;
    if outcome.Finished? {
      MarkAllMarksOnly(t.e.keys, outcome.lastStepKeys);
    }
  }

  lemma AfterChordMarksOnly(t: Turn, f: Chords.ChordFeed, outcome: Chords.ChordOutcome)
    ensures Marks(t, AfterChord(FedChord(t, f), outcome, f.id))
  {
    hide Chords.FeedChord;
    if outcome.Completed? {
      MarkAllMarksOnly(t.e.keys, outcome.keys);
    }
  }

  lemma VisitBindingMarksOnly(t: Turn, bindings: seq<Binding>, i: nat, winner: Option<nat>, wasRepeat: bool, press: KeyDown, env: Env)
    requires i < |bindings| && (winner.Some? ==> winner.value < |bindings|)
    ensures var t' := VisitBinding(t, bindings, i, winner, wasRepeat, press, env);
            Marks(t, t') && (wasRepeat ==> t'.e.keys == t.e.keys)
  {
    hide AfterSequence, AfterChord, FedSequence, FedChord, Sequences.FeedSequence, Chords.FeedChord;
    var b := bindings[i];
    match b.kind
    case Combo(_) =>
    case Sequence(_, _) =>
      var f := SequenceFeedOf(t, b, press, env.now);
      AfterSequenceMarksOnly(t, f, Sequences.FeedSequence(t.e.sequences, f).1);
    case Chord(_, _) =>
      var f := ChordFeedOf(t, b, press, env.now);
      AfterChordMarksOnly(t, f, Chords.FeedChord(t.e.chords, f).1);
  }

  lemma {:induction false} VisitFromMarksOnly(t: Turn, bindings: seq<Binding>, i: nat, winner: Option<nat>, wasRepeat: bool, press: KeyDown, env: Env)
    requires i <= |bindings| && (winner.Some? ==> winner.value < |bindings|)
    ensures var t' := VisitFrom(t, bindings, i, winner, wasRepeat, press, env);
            && MarksOnly(t.e.keys, t'.e.keys)
            && (wasRepeat ==> t'.e.keys == t.e.keys)
            && t'.e.gestures == t.e.gestures && t'.e.resync == t.e.resync
    decreases |bindings| - i
  {
    hide VisitBinding;
    if i < |bindings| {
      VisitBindingMarksOnly(t, bindings, i, winner, wasRepeat, press, env);
      VisitFromMarksOnly(VisitBinding(t, bindings, i, winner, wasRepeat, press, env), bindings, i + 1, winner, wasRepeat, press, env);
    }
  }

  /** What a key-down of `vk` may do to the key table `k` and which verdicts it
      allows: a first key-down records its own verdict, an auto-repeat with a
      record follows it, and the other keys are at most marked completed. */
  ghost predicate DownVerdict(k: KeyTable, vk: Vk, k': KeyTable, suppress: bool)
    requires vk < 256
  {
    && k'.active == k.Press(vk).active
    && (forall c :: 0 <= c < 256 && c != vk ==>
          k'.last[c] == k.last[c] || (k.active[c] && k.last[c] != Passed && k'.last[c] == Suppressed))
    && (if !k.active[vk] then k'.last[vk] == (if suppress then Suppressed else Passed)
        else if k.last[vk] == Suppressed then suppress && k'.last[vk] == Suppressed
        else if k.last[vk] == Passed then !suppress && k'.last[vk] == Passed
        else k'.last[vk] == (if suppress then RepeatSuppressed else Passed))
  }

  lemma KeyDownVerdict(e: EngineState, vk: Vk, bindings: seq<Binding>, env: Env)
    requires vk < 256
    ensures var t := EngineStates.OnKeyDown(e, vk, bindings, env);
            DownVerdict(e.keys, vk, t.e.keys, t.d.suppress) && t.e.resync == e.resync
  {
    var wasRepeat := e.keys.Active(vk);
    var held := e.(keys := e.keys.Press(vk));
    var press := KeyDown(vk, held.keys.active, env.foreground);
    var winner := ElectOf(bindings, press);
    var start := if wasRepeat then Turn(held, Nothing) else ArmGroup(held, GroupOf(bindings, winner, press), vk, env.now);
    VisitFromMarksOnly(start, bindings, 0, winner, wasRepeat, press, env);
  }

  /** A key-up always consumes its record. It passes unless a swallowed press
      is on record, or a pending gesture stands in for one, and never passes
      what Windows has down. */
  ghost predicate UpVerdict(k: KeyTable, vk: Vk, k': KeyTable, suppress: bool, gestureBound: bool, keyDown: Vk -> bool)
    requires vk < 256
  {
    && k'.last == k.last[vk := Unknown]
    && suppress == (!keyDown(vk) && (k.last[vk] in {Suppressed, RepeatSuppressed} || (gestureBound && k.last[vk] != Passed)))
    && k'.active == if suppress then k.Release(vk).WithRecord(vk, Unknown).ClearReleased(keyDown, vk, MENU).active
                    else k.Release(vk).active
  }

  lemma KeyUpVerdict(e: EngineState, vk: Vk, env: Env)
    requires vk < 256
    ensures var t := EngineStates.OnKeyUp(e, vk, env);
            var (resolved, gestureBound) := ResolvePress(e.(keys := e.keys.Release(vk)), vk, env.now);
            UpVerdict(e.keys, vk, t.e.keys, t.d.suppress, gestureBound, env.keyDown) && t.e.resync == e.resync
  {}

  // ----- tables and waits -----

  /** An arming number belongs to one deadline. */
  ghost predicate ChordInv(ps: seq<Chords.PendingChord>, lastId: nat) {
    && (forall p :: p in ps ==> p.id <= lastId)
    && (forall p, q :: p in ps && q in ps && p.id == q.id ==> p.expiresAt == q.expiresAt)
  }

  /** An arming number belongs to one entry: an advanced one takes a new one. */
  ghost predicate SequenceInv(ps: seq<Sequences.PendingSequence>, lastId: nat) {
    && (forall p :: p in ps ==> p.id <= lastId)
    && (forall i, j :: 0 <= i < j < |ps| ==> ps[i].id != ps[j].id)
  }

  /** The entries of `before` as they were, and others numbered after it. */
  ghost predicate OldOrNew(before: seq<Sequences.PendingSequence>, after: seq<Sequences.PendingSequence>, lastId: nat) {
    forall p :: p in after ==> p in before || lastId < p.id
  }

  /** A press whose key is held was decided when its key went down. */
  ghost predicate HeldRecorded(e: EngineState) {
    forall p :: p in e.gestures.presses && p.phase.Held? && p.vk < 256 ==> e.keys.last[p.vk] in {Passed, Suppressed}
  }

  ghost predicate EngineInv(e: EngineState) {
    && TableInv(e.gestures, e.lastId)
    && ChordInv(e.chords, e.lastId)
    && SequenceInv(e.sequences, e.lastId)
    && HeldRecorded(e)
  }

  ghost predicate ChordWaits(ps: seq<Chords.PendingChord>, id: nat, due: nat) {
    exists p :: p in ps && p.id == id && p.expiresAt == due
  }

  ghost predicate SequenceWaits(ps: seq<Sequences.PendingSequence>, id: nat, due: nat) {
    exists p :: p in ps && p.id == id && p.expiresAt == due
  }

  /** An entry of the engine waits for this timer. */
  ghost predicate IsWaiting(e: EngineState, r: TimerRequest) {
    && r.token.generation == e.generation
    && match r.token.slot
       case GestureSlot(vk) => IsWait(e.gestures, vk, r.token.id, r.due)
       case ChordSlot => ChordWaits(e.chords, r.token.id, r.due)
       case SequenceSlot => SequenceWaits(e.sequences, r.token.id, r.due)
  }

  /** A token is live exactly when an entry waits for it. */
  lemma LiveMeansAnEntryWaits(e: EngineState, token: TimerToken)
    ensures IsLive(e, token) <==> exists due: nat :: IsWaiting(e, TimerRequest(token, due))
  {
    match token.slot
    case GestureSlot(vk) =>
      LiveMeansWaiting(e.gestures, vk, token.id);
      if token.generation == e.generation {
        forall due: nat ensures IsWaiting(e, TimerRequest(token, due)) <==> IsWait(e.gestures, vk, token.id, due) {}
      }
    case ChordSlot =>
      if IsLive(e, token) {
        var i :| 0 <= i < |e.chords| && e.chords[i].id == token.id;
        assert e.chords[i] in e.chords;
        assert IsWaiting(e, TimerRequest(token, e.chords[i].expiresAt));
      }
    case SequenceSlot =>
      if IsLive(e, token) {
        var i :| 0 <= i < |e.sequences| && e.sequences[i].id == token.id;
        assert e.sequences[i] in e.sequences;
        assert IsWaiting(e, TimerRequest(token, e.sequences[i].expiresAt));
      }
  }

  /** In a well-formed engine a token has one deadline. */
  lemma OneDeadline(e: EngineState, token: TimerToken, due: nat, other: nat)
    requires EngineInv(e)
    requires IsWaiting(e, TimerRequest(token, due)) && IsWaiting(e, TimerRequest(token, other))
    ensures due == other
  {
    if token.slot.GestureSlot? {
      var g := e.gestures;
      forall p, q | p in g.presses && q in g.presses && p.id == q.id ensures p == q {
        SameIdSamePress(g.presses, p, q);
      }
      forall p, q | p in g.dueHolds && q in g.dueHolds && p.id == q.id ensures p == q {
        SameIdSameHold(g.dueHolds, p, q);
      }
    }
  }

  lemma {:induction false} SameIdSamePress<A>(ps: seq<Press<A>>, p: Press<A>, q: Press<A>)
    requires DistinctPresses(ps) && p in ps && q in ps && p.id == q.id
    ensures p == q
  {
    if p != ps[0] && q != ps[0] {
      SameIdSamePress(ps[1..], p, q);
    }
  }

  lemma {:induction false} SameIdSameHold<A>(hs: seq<DueHold<A>>, p: DueHold<A>, q: DueHold<A>)
    requires DistinctHolds(hs) && p in hs && q in hs && p.id == q.id
    ensures p == q
  {
    if p != hs[0] && q != hs[0] {
      SameIdSameHold(hs[1..], p, q);
    }
  }

  // ----- chords and sequences -----

  lemma {:induction false} UnexpiredChords(ps: seq<Chords.PendingChord>, now: nat)
    ensures forall p :: p in Chords.Unexpired(ps, now) <==> p in ps && p.expiresAt > now
  {
    if ps != [] {
      UnexpiredChords(ps[1..], now);
      assert ps == [ps[0]] + ps[1..];
    }
  }

  lemma {:induction false} UnexpiredSequences(ps: seq<Sequences.PendingSequence>, now: nat)
    ensures forall p :: p in Sequences.Unexpired(ps, now) <==> p in ps && p.expiresAt > now
  {
    if ps != [] {
      UnexpiredSequences(ps[1..], now);
      assert ps == [ps[0]] + ps[1..];
    }
  }

  lemma {:induction false} ExpiredChords(ps: seq<Chords.PendingChord>, id: nat)
    ensures forall p :: p in Chords.ExpireChord(ps, id) <==> p in ps && p.id != id
    ensures (forall p :: p in ps ==> p.id != id) ==> Chords.ExpireChord(ps, id) == ps
  {
    if ps != [] {
      ExpiredChords(ps[1..], id);
      assert ps == [ps[0]] + ps[1..];
    }
  }

  lemma {:induction false} ExpiredSequences(ps: seq<Sequences.PendingSequence>, id: nat)
    ensures forall p :: p in Sequences.ExpireSequence(ps, id) <==> p in ps && p.id != id
    ensures (forall p :: p in ps ==> p.id != id) ==> Sequences.ExpireSequence(ps, id) == ps
  {
    if ps != [] {
      ExpiredSequences(ps[1..], id);
      assert ps == [ps[0]] + ps[1..];
    }
  }

  lemma FeedChordInv(ps: seq<Chords.PendingChord>, f: Chords.ChordFeed, lastId: nat)
    requires ChordInv(ps, lastId) && lastId < f.id
    ensures var (ps', outcome) := Chords.FeedChord(ps, f);
            && ChordInv(ps', f.id)
            && forall id, due: nat :: ChordWaits(ps', id, due) ==>
                 ChordWaits(ps, id, due) || (outcome == Chords.Started(due) && id == f.id)
  {
    hide Chords.PlaceOf, Chords.IsComplete, Chords.IsChordKey, Chords.Unexpired, Chords.SameKeys;
    UnexpiredChords(ps, f.now);
  }

  /** The table after a feed of `f`: well-formed, its entries old or new, and
      its waits old or asked for. */
  ghost predicate FedFrom(before: seq<Sequences.PendingSequence>, fed: (seq<Sequences.PendingSequence>, Sequences.SequenceOutcome), f: Sequences.SequenceFeed, lastId: nat) {
    && SequenceInv(fed.0, f.id) && OldOrNew(before, fed.0, lastId)
    && forall id, due: nat :: SequenceWaits(fed.0, id, due) ==>
         SequenceWaits(before, id, due) || (fed.1 == Sequences.Advanced(due) && id == f.id)
  }

  lemma FedFromFewer(table: seq<Sequences.PendingSequence>, ps: seq<Sequences.PendingSequence>, fed: (seq<Sequences.PendingSequence>, Sequences.SequenceOutcome), f: Sequences.SequenceFeed, lastId: nat)
    requires FedFrom(ps, fed, f, lastId) && forall p :: p in ps ==> p in table
    ensures FedFrom(table, fed, f, lastId)
  {
    forall id, due: nat | SequenceWaits(ps, id, due) ensures SequenceWaits(table, id, due) {}
  }

  lemma StartSequenceInv(ps: seq<Sequences.PendingSequence>, f: Sequences.SequenceFeed, lastId: nat)
    requires SequenceInv(ps, lastId) && lastId < f.id && f.steps != []
    ensures FedFrom(ps, Sequences.StartSequence(ps, f), f, lastId)
  {}

  lemma PrependedSequenceInv(p: Sequences.PendingSequence, ps: seq<Sequences.PendingSequence>, lastId: nat)
    requires SequenceInv(ps, lastId) && p.id <= lastId && forall q :: q in ps ==> q.id != p.id
    ensures SequenceInv([p] + ps, lastId)
  {}

  lemma SequenceTailInv(ps: seq<Sequences.PendingSequence>, lastId: nat)
    requires ps != [] && SequenceInv(ps, lastId)
    ensures SequenceInv(ps[1..], lastId) && ps[0].id <= lastId && forall q :: q in ps[1..] ==> q.id != ps[0].id
  {
    var tail := ps[1..];
    assert forall i :: 0 <= i < |tail| ==> tail[i] == ps[i + 1];
  }

  lemma {:induction false} UnexpiredSequenceInv(ps: seq<Sequences.PendingSequence>, now: nat, lastId: nat)
    requires SequenceInv(ps, lastId)
    ensures SequenceInv(Sequences.Unexpired(ps, now), lastId)
  {
    if ps != [] {
      hide SequenceInv;
      SequenceTailInv(ps, lastId);
      UnexpiredSequenceInv(ps[1..], now, lastId);
      UnexpiredSequences(ps[1..], now);
      PrependedSequenceInv(ps[0], Sequences.Unexpired(ps[1..], now), lastId);
    }
  }

  lemma {:induction false} ExpiredSequenceInv(ps: seq<Sequences.PendingSequence>, id: nat, lastId: nat)
    requires SequenceInv(ps, lastId)
    ensures SequenceInv(Sequences.ExpireSequence(ps, id), lastId)
  {
    if ps != [] {
      hide SequenceInv;
      SequenceTailInv(ps, lastId);
      ExpiredSequenceInv(ps[1..], id, lastId);
      ExpiredSequences(ps[1..], id);
      PrependedSequenceInv(ps[0], Sequences.ExpireSequence(ps[1..], id), lastId);
    }
  }

  lemma WithoutSequenceInv(ps: seq<Sequences.PendingSequence>, i: nat, lastId: nat)
    requires SequenceInv(ps, lastId) && i < |ps|
    ensures SequenceInv(ps[..i] + ps[i + 1..], lastId)
    ensures forall p :: p in ps[..i] + ps[i + 1..] ==> p in ps
  {
    var rest := ps[..i] + ps[i + 1..];
    assert forall j :: 0 <= j < |rest| ==> rest[j] == ps[if j < i then j else j + 1];
  }

  lemma AdvanceSequenceInv(ps: seq<Sequences.PendingSequence>, f: Sequences.SequenceFeed, i: nat, lastId: nat)
    requires SequenceInv(ps, lastId) && lastId < f.id && i < |ps|
    ensures FedFrom(ps, Sequences.AdvanceSequence(ps, f, i), f, lastId)
  {
    if ps[i].nextStep + 1 == |f.steps| {
      WithoutSequenceInv(ps, i, lastId);
    } else {
      var entry := ps[i].(nextStep := ps[i].nextStep + 1, expiresAt := f.now + f.maxGap, id := f.id);
      assert forall p :: p in ps[i := entry] ==> p == entry || p in ps;
    }
  }

  lemma SameSequences(table: seq<Sequences.PendingSequence>, f: Sequences.SequenceFeed, lastId: nat)
    requires SequenceInv(table, lastId) && lastId < f.id
    ensures FedFrom(table, (table, Sequences.NotMatching), f, lastId)
  {}

  lemma FeedSequenceInv(table: seq<Sequences.PendingSequence>, f: Sequences.SequenceFeed, lastId: nat)
    requires SequenceInv(table, lastId) && lastId < f.id
    ensures FedFrom(table, Sequences.FeedSequence(table, f), f, lastId)
  {
    hide Sequences.Unexpired, Sequences.SameSteps, Sequences.MatchesStep, Sequences.StartSequence, Sequences.AdvanceSequence,
         SequenceInv, FedFrom;
    if f.steps == [] {
      SameSequences(table, f, lastId);
    } else {
      UnexpiredSequences(table, f.now);
      UnexpiredSequenceInv(table, f.now, lastId);
      var ps := Sequences.Unexpired(table, f.now);
      var i := Sequences.PlaceOf(ps, f.steps);
      if i == |ps| {
        StartSequenceInv(ps, f, lastId);
      } else if Sequences.MatchesStep(f, f.steps, ps[i].nextStep) {
        AdvanceSequenceInv(ps, f, i, lastId);
      } else {
        var rest := ps[..i] + ps[i + 1..];
        WithoutSequenceInv(ps, i, lastId);
        StartSequenceInv(rest, f, lastId);
        FedFromFewer(ps, rest, Sequences.StartSequence(rest, f), f, lastId);
      }
      FedFromFewer(table, ps, Sequences.FeedSequence(table, f), f, lastId);
    }
  }

  // ----- a whole event -----

  ghost predicate Issued(e: EngineState, r: TimerRequest) {
    r.token.generation <= e.generation && r.token.id <= e.lastId
  }

  /** From `e` to the turn `t`: every wait is an old one or asked for a timer
      in this turn, and this turn's tokens are new. */
  ghost predicate Continues(e: EngineState, t: Turn) {
    && t.e.generation == e.generation
    && e.lastId <= t.e.lastId
    && TableInv(t.e.gestures, t.e.lastId) && ChordInv(t.e.chords, t.e.lastId) && SequenceInv(t.e.sequences, t.e.lastId)
    && OldOrNew(e.sequences, t.e.sequences, e.lastId)
    && (forall r :: IsWaiting(t.e, r) ==> IsWaiting(e, r) || r in t.d.timers)
    && (forall r :: r in t.d.timers ==> Issued(t.e, r) && r.token.generation == e.generation && e.lastId < r.token.id)
    && OneEach(t.d.timers, e.lastId)
  }

  /** Of the requests numbered after `lastId`, no two share a number. */
  ghost predicate OneEach(timers: seq<TimerRequest>, lastId: nat) {
    forall r, other :: r in timers && other in timers && r.token.id == other.token.id && lastId < r.token.id ==> r == other
  }

  /** One more operation of the turn. */
  lemma ContinuesOn(e: EngineState, t: Turn, t': Turn)
    requires Continues(e, t)
    requires t'.e.generation == t.e.generation && t.e.lastId <= t'.e.lastId
    requires TableInv(t'.e.gestures, t'.e.lastId) && ChordInv(t'.e.chords, t'.e.lastId) && SequenceInv(t'.e.sequences, t'.e.lastId)
    requires OldOrNew(t.e.sequences, t'.e.sequences, t.e.lastId)
    requires forall r :: IsWaiting(t'.e, r) ==> IsWaiting(t.e, r) || r in t'.d.timers
    requires forall r :: r in t.d.timers ==> r in t'.d.timers
    requires forall r :: r in t'.d.timers ==>
               r in t.d.timers || (Issued(t'.e, r) && r.token.generation == t.e.generation && t.e.lastId < r.token.id)
    requires OneEach(t'.d.timers, t.e.lastId)
    ensures Continues(e, t')
  {
    forall r, other | r in t'.d.timers && other in t'.d.timers && r.token.id == other.token.id ensures r == other {
      if r in t.d.timers {
        assert other in t.d.timers;
      }
    }
  }

  lemma FedSequenceContinues(e: EngineState, t: Turn, f: Sequences.SequenceFeed)
    requires Continues(e, t) && f.id == t.e.lastId + 1
    ensures Continues(e, AfterSequence(FedSequence(t, f), Sequences.FeedSequence(t.e.sequences, f).1, f.id))
  {
    hide Sequences.FeedSequence;
    FeedSequenceInv(t.e.sequences, f, t.e.lastId);
    var outcome := Sequences.FeedSequence(t.e.sequences, f).1;
    var t' := AfterSequence(FedSequence(t, f), outcome, f.id);
    assert t'.d.timers == t.d.timers + if outcome.Advanced? then [t.e.Request(SequenceSlot, f.id, outcome.due)] else [];
    forall r | IsWaiting(t'.e, r) ensures IsWaiting(t.e, r) || r in t'.d.timers {
      if r.token.slot.SequenceSlot? && !SequenceWaits(t.e.sequences, r.token.id, r.due) {
        assert r == t.e.Request(SequenceSlot, f.id, r.due);
      }
    }
    ContinuesOn(e, t, t');
  }

  lemma FedChordContinues(e: EngineState, t: Turn, f: Chords.ChordFeed)
    requires Continues(e, t) && f.id == t.e.lastId + 1
    ensures Continues(e, AfterChord(FedChord(t, f), Chords.FeedChord(t.e.chords, f).1, f.id))
  {
    hide Chords.FeedChord;
    FeedChordInv(t.e.chords, f, t.e.lastId);
    var outcome := Chords.FeedChord(t.e.chords, f).1;
    var t' := AfterChord(FedChord(t, f), outcome, f.id);
    assert t'.d.timers == t.d.timers + if outcome.Started? then [t.e.Request(ChordSlot, f.id, outcome.due)] else [];
    forall r | IsWaiting(t'.e, r) ensures IsWaiting(t.e, r) || r in t'.d.timers {
      if r.token.slot.ChordSlot? && !ChordWaits(t.e.chords, r.token.id, r.due) {
        assert r == t.e.Request(ChordSlot, f.id, r.due);
      }
    }
    ContinuesOn(e, t, t');
  }

  /** The turn's tables and timers are the same. */
  lemma SameTablesContinue(e: EngineState, t: Turn, t': Turn)
    requires Continues(e, t)
    requires t'.e.gestures == t.e.gestures && t'.e.chords == t.e.chords && t'.e.sequences == t.e.sequences
    requires t'.e.generation == t.e.generation && t'.e.lastId == t.e.lastId && t'.d.timers == t.d.timers
    ensures Continues(e, t')
  {
    forall r | IsWaiting(t'.e, r) ensures IsWaiting(t.e, r) {}
  }

  lemma {:induction false} VisitFromContinues(e: EngineState, t: Turn, bindings: seq<Binding>, i: nat, winner: Option<nat>, wasRepeat: bool, press: KeyDown, env: Env)
    requires i <= |bindings| && (winner.Some? ==> winner.value < |bindings|)
    requires Continues(e, t)
    ensures Continues(e, VisitFrom(t, bindings, i, winner, wasRepeat, press, env))
    decreases |bindings| - i
  {
    hide Continues;
    if i < |bindings| {
      var b := bindings[i];
      var t' := VisitBinding(t, bindings, i, winner, wasRepeat, press, env);
      if b.kind.Combo? || wasRepeat || !b.condition.Evaluate(env.foreground) {
        SameTablesContinue(e, t, t');
      } else if b.kind.Sequence? {
        FedSequenceContinues(e, t, SequenceFeedOf(t, b, press, env.now));
      } else {
        FedChordContinues(e, t, ChordFeedOf(t, b, press, env.now));
      }
      VisitFromContinues(e, t', bindings, i + 1, winner, wasRepeat, press, env);
    }
  }

  /** The gestures of one key changed, and at most its new arming waits. */
  lemma GesturesContinue(e: EngineState, t: Turn, vk: Vk, added: Option<nat>)
    requires TableInv(e.gestures, e.lastId) && ChordInv(e.chords, e.lastId) && SequenceInv(e.sequences, e.lastId)
    requires t.e.chords == e.chords && t.e.sequences == e.sequences && t.e.generation == e.generation
    requires t.e.lastId == e.lastId + 1 && TableInv(t.e.gestures, t.e.lastId)
    requires WaitsFrom(t.e.gestures, e.gestures, vk, t.e.lastId, added)
    requires t.d.timers == if added.Some? then [e.Request(GestureSlot(vk), t.e.lastId, added.value)] else []
    ensures Continues(e, t)
  {
    forall r | IsWaiting(t.e, r) ensures IsWaiting(e, r) || r in t.d.timers {
      if r.token.slot.GestureSlot? && !IsWait(e.gestures, r.token.slot.vk, r.token.id, r.due) {
        assert r == e.Request(GestureSlot(vk), t.e.lastId, r.due);
      }
    }
  }

  lemma ArmGroupContinues(e: EngineState, group: Option<GroupArming<Action>>, vk: Vk, now: nat)
    requires TableInv(e.gestures, e.lastId) && ChordInv(e.chords, e.lastId) && SequenceInv(e.sequences, e.lastId)
    ensures var t := ArmGroup(e, group, vk, now);
            Continues(e, t) && forall p :: p in t.e.gestures.presses ==> p in e.gestures.presses || p.vk == vk
  {
    hide PressOf, Kept, EndedTaps;
    KeptInv(e.gestures, vk, e.keys, now, e.lastId);
    var kept := e.gestures.(presses := Kept(e.gestures.presses, vk, e.keys, now));
    PressInv(kept, vk, group, now, e.lastId + 1, e.lastId);
    GesturesContinue(e, ArmGroup(e, group, vk, now), vk, PressOf(kept, vk, group, now, e.lastId + 1).holdDue);
  }

  lemma KeyDownContinues(e: EngineState, vk: Vk, bindings: seq<Binding>, env: Env)
    requires TableInv(e.gestures, e.lastId) && ChordInv(e.chords, e.lastId) && SequenceInv(e.sequences, e.lastId)
    ensures var t := EngineStates.OnKeyDown(e, vk, bindings, env);
            && Continues(e, t)
            && forall p :: p in t.e.gestures.presses ==> p in e.gestures.presses || (p.vk == vk && !e.keys.Active(vk))
  {
    var wasRepeat := e.keys.Active(vk);
    var held := e.(keys := e.keys.Press(vk));
    var press := KeyDown(vk, held.keys.active, env.foreground);
    var winner := ElectOf(bindings, press);
    var start := if wasRepeat then Turn(held, Nothing) else ArmGroup(held, GroupOf(bindings, winner, press), vk, env.now);
    forall r | IsWaiting(held, r) ensures IsWaiting(e, r) {}
    if !wasRepeat {
      ArmGroupContinues(held, GroupOf(bindings, winner, press), vk, env.now);
    }
    assert Continues(e, start);
    VisitFromContinues(e, start, bindings, 0, winner, wasRepeat, press, env);
    VisitFromMarksOnly(start, bindings, 0, winner, wasRepeat, press, env);
    var visited := VisitFrom(start, bindings, 0, winner, wasRepeat, press, env);
    SameTablesContinue(e, visited, EngineStates.OnKeyDown(e, vk, bindings, env));
  }

  lemma ResolveContinues(e: EngineState, vk: Vk, now: nat)
    requires TableInv(e.gestures, e.lastId) && ChordInv(e.chords, e.lastId) && SequenceInv(e.sequences, e.lastId)
    ensures var t := ResolvePress(e, vk, now).0;
            && Continues(e, t)
            && forall p :: p in t.e.gestures.presses ==>
                 (p in e.gestures.presses || !p.phase.Held?) && (p.vk == vk ==> !p.phase.Held?)
  {
    var id := e.lastId + 1;
    ReleaseInv(e.gestures, vk, now, e.keys.IsPassed(vk), id, e.lastId);
    var t := ResolvePress(e, vk, now).0;
    GesturesContinue(e, t, vk, ReleaseOf(e.gestures, vk, now, e.keys.IsPassed(vk), id).1.windowDue);
  }

  lemma KeyUpContinues(e: EngineState, vk: Vk, env: Env)
    requires TableInv(e.gestures, e.lastId) && ChordInv(e.chords, e.lastId) && SequenceInv(e.sequences, e.lastId)
    ensures var t := EngineStates.OnKeyUp(e, vk, env);
            && Continues(e, t)
            && forall p :: p in t.e.gestures.presses ==>
                 (p in e.gestures.presses || !p.phase.Held?) && (p.vk == vk ==> !p.phase.Held?)
  {
    var up := e.(keys := e.keys.Release(vk));
    ResolveContinues(up, vk, env.now);
    var resolved := ResolvePress(up, vk, env.now).0;
    forall r | IsWaiting(up, r) ensures IsWaiting(e, r) {}
    assert Continues(e, resolved);
    SameTablesContinue(e, resolved, EngineStates.OnKeyUp(e, vk, env));
  }

  /** Every step keeps the invariant; every wait afterwards is an old one of
      the same generation or asked for a timer in this step; and the tokens of
      this step are new. */
  lemma StepInv(e: EngineState, op: EngineOp)
    requires EngineInv(e)
    ensures var t := Step(e, op);
            && EngineInv(t.e)
            && e.generation <= t.e.generation && e.lastId <= t.e.lastId
            && OldOrNew(e.sequences, t.e.sequences, e.lastId)
            && (forall r :: IsWaiting(t.e, r) ==>
                  (IsWaiting(e, r) && t.e.generation == e.generation) || r in t.d.timers)
            && (forall r :: r in t.d.timers ==> Issued(t.e, r) && e.lastId < r.token.id)
            && OneEach(t.d.timers, e.lastId)
  {
    hide OnKey, EngineInv, IsWaiting, Issued, Reset;
    match op
    case KeyOp(event, bindings, env) => KeyOpInv(e, event, bindings, env);
    case TimerOp(token) => TimerOpInv(e, token);
    case ForgetOp(token) => ForgetOpInv(e, token);
    case ResetOp(reason, env) => ResetOpInv(e, reason, env);
    case DrainOp(notes, env) => QuietInv(e, Step(e, op).e);
    case ForegroundOp => QuietInv(e, Step(e, op).e);
    case ReturnedOp => QuietInv(e, Step(e, op).e);
    case InjectedOp(event) => QuietInv(e, Step(e, op).e);
  }

  lemma ResetOpInv(e: EngineState, reason: ResetReason, env: Env)
    requires EngineInv(e)
    ensures EngineInv(Reset(e, env, reason)) && forall r :: !IsWaiting(Reset(e, env, reason), r)
    ensures Reset(e, env, reason).sequences == []
    ensures Reset(e, env, reason).generation == e.generation + 1 && Reset(e, env, reason).lastId == e.lastId
  {}

  /** A step that touches no table and no record. */
  lemma QuietInv(e: EngineState, e': EngineState)
    requires EngineInv(e)
    requires e'.gestures == e.gestures && e'.chords == e.chords && e'.sequences == e.sequences
    requires e'.generation == e.generation && e'.lastId == e.lastId && e'.keys.last == e.keys.last
    ensures EngineInv(e')
    ensures forall r :: IsWaiting(e', r) ==> IsWaiting(e, r)
  {}

  lemma KeyOpInv(e: EngineState, event: KeyEvent, bindings: seq<Binding>, env: Env)
    requires EngineInv(e)
    ensures Continues(e, OnKey(e, event, bindings, env)) && EngineInv(OnKey(e, event, bindings, env).e)
  {
    var e1 := e.(maskOwed := false, resync := e.resync.Event(event.vk, true));
    var t := OnKey(e, event, bindings, env);
    match event.direction
    case Down =>
      var checked := e1.(keys := e1.keys.ClearReleased(env.keyDown, event.vk, ALL));
      QuietInv(e, checked);
      KeyDownContinues(checked, event.vk, bindings, env);
      SameTablesContinue(checked, EngineStates.OnKeyDown(checked, event.vk, bindings, env), t);
      if event.vk < 256 {
        KeyDownVerdict(checked, event.vk, bindings, env);
      } else {
        KeyDownOutside(checked, event.vk, bindings, env);
      }
    case Up =>
      QuietInv(e, e1);
      KeyUpContinues(e1, event.vk, env);
      SameTablesContinue(e1, EngineStates.OnKeyUp(e1, event.vk, env), t);
  }

  /** A code outside the table leaves the records of the others as any event. */
  lemma KeyDownOutside(e: EngineState, vk: Vk, bindings: seq<Binding>, env: Env)
    requires vk >= 256
    ensures MarksOnly(e.keys, EngineStates.OnKeyDown(e, vk, bindings, env).e.keys)
  {
    var press := KeyDown(vk, e.keys.active, env.foreground);
    var winner := ElectOf(bindings, press);
    VisitFromMarksOnly(ArmGroup(e, GroupOf(bindings, winner, press), vk, env.now), bindings, 0, winner, false, press, env);
  }

  lemma TimerOpInv(e: EngineState, token: TimerToken)
    requires EngineInv(e)
    ensures EngineInv(OnTimer(e, token).e) && OldOrNew(e.sequences, OnTimer(e, token).e.sequences, e.lastId)
    ensures forall r :: IsWaiting(OnTimer(e, token).e, r) ==> IsWaiting(e, r)
  {
    if token.generation == e.generation {
      match token.slot
      case GestureSlot(vk) => TimerInv(e.gestures, vk, token.id, e.lastId);
      case ChordSlot => ExpiredChords(e.chords, token.id);
      case SequenceSlot =>
        ExpiredSequences(e.sequences, token.id);
        ExpiredSequenceInv(e.sequences, token.id, e.lastId);
    }
  }

  lemma ForgetOpInv(e: EngineState, token: TimerToken)
    requires EngineInv(e)
    ensures EngineInv(ForgetTimer(e, token).0)
    ensures forall r :: IsWaiting(ForgetTimer(e, token).0, r) ==> IsWaiting(e, r)
  {
    if token.generation == e.generation && token.slot.GestureSlot? {
      ForgetInv(e.gestures, token.slot.vk, token.id, e.lastId);
    }
  }

  lemma {:induction false} RunInv(e: EngineState, ops: seq<EngineOp>)
    requires EngineInv(e)
    ensures EngineInv(RunOps(e, ops))
    ensures e.generation <= RunOps(e, ops).generation && e.lastId <= RunOps(e, ops).lastId
    decreases |ops|
  {
    if ops != [] {
      StepInv(e, ops[0]);
      RunInv(Step(e, ops[0]).e, ops[1..]);
    }
  }
}
