/** The shared table of pending sequences behaves as one machine for each step list. */
module SequenceMachines {
  import opened Options
  import opened Modifiers
  import opened KeySpecs
  import opened Bindings
  import opened SequenceTables
  import opened SequenceRuns
  import EngineFacts

  /** How far a step list has come. */
  datatype Progress = Idle | Going(next: nat, due: nat, action: Action)

  predicate Continues(p: Progress, f: SequenceFeed) {
    p.Going? && f.now < p.due && MatchesStep(f, f.steps, p.next)
  }

  /** One key-down: the next step, in time; else the first step; else nothing.
      The action is that of the binding fed at the first step. */
  function React(p: Progress, f: SequenceFeed): (Progress, SequenceOutcome) {
    var reached := if Continues(p, f) then p.next + 1 else if MatchesStep(f, f.steps, 0) then 1 else 0;
    var action := if Continues(p, f) then p.action else f.action;
    if reached == 0 then (Idle, NotMatching)
    else if reached == |f.steps| then (Idle, Finished(action, LastStepKeys(f.steps)))
    else (Going(reached, f.now + f.maxGap, action), Advanced(f.now + f.maxGap))
  }

  function ProgressOf(fed: seq<SequenceFeed>): Progress {
    if fed == [] then Idle else React(ProgressOf(fed[..|fed| - 1]), fed[|fed| - 1]).0
  }

  ghost function ProgressOn(history: seq<SequenceFeed>, steps: seq<KeyCombination>): Progress {
    ProgressOf(FedTo(history, steps))
  }

  /** Time does not run backwards, and an expiry timer comes at its entry's
      deadline or later. */
  ghost predicate InTime(r: SequenceRun, ops: seq<SequenceOp>, now: nat)
    decreases |ops|
  {
    ops == [] ||
    (match ops[0]
     case Fed(f) => now <= f.now && InTime(Next(r, ops[0]), ops[1..], f.now)
     case TimerExpired(id, at) =>
       && now <= at && (forall p :: p in r.table && p.id == id ==> p.expiresAt <= at)
       && InTime(Next(r, ops[0]), ops[1..], at))
  }

  // ----- the table mirrors the machines -----

  ghost predicate IsEntry(ps: seq<PendingSequence>, steps: seq<KeyCombination>, now: nat, p: PendingSequence) {
    p in ps && p.expiresAt > now && Alike(p.steps, steps)
  }

  ghost predicate Shows(p: PendingSequence, progress: Progress) {
    progress == Going(p.nextStep, p.expiresAt, p.action)
  }

  ghost predicate HasEntry(ps: seq<PendingSequence>, steps: seq<KeyCombination>, now: nat) {
    exists p :: IsEntry(ps, steps, now, p)
  }

  /** For one step list: an entry shows how far its machine is, and a machine
      that is going has an entry. */
  ghost predicate Mirrors(ps: seq<PendingSequence>, steps: seq<KeyCombination>, progress: Progress, now: nat) {
    && (forall p :: IsEntry(ps, steps, now, p) ==> Shows(p, progress))
    && (progress.Going? && progress.due > now ==> HasEntry(ps, steps, now))
  }

  ghost predicate MirrorsAll(r: SequenceRun, now: nat) {
    && RunInv(r)
    && forall steps :: Loadable(steps) ==> Mirrors(r.table, steps, ProgressOn(r.history, steps), now)
  }

  lemma LaterMirrors(ps: seq<PendingSequence>, steps: seq<KeyCombination>, progress: Progress, now: nat, later: nat)
    requires Mirrors(ps, steps, progress, now) && now <= later
    ensures Mirrors(ps, steps, progress, later)
  {
    forall p | IsEntry(ps, steps, later, p) ensures Shows(p, progress) {
      assert IsEntry(ps, steps, now, p);
    }
    if progress.Going? && progress.due > later {
      var p :| IsEntry(ps, steps, now, p);
      assert IsEntry(ps, steps, later, p);
    }
  }

  lemma ExpiredMirrors(ps: seq<PendingSequence>, steps: seq<KeyCombination>, progress: Progress, id: nat, now: nat)
    requires Mirrors(ps, steps, progress, now)
    requires forall p :: p in ps && p.id == id ==> p.expiresAt <= now
    ensures Mirrors(ExpireSequence(ps, id), steps, progress, now)
  {
    hide ExpireSequence;
    ExpireMembers(ps, id);
    forall p | IsEntry(ExpireSequence(ps, id), steps, now, p) ensures Shows(p, progress) {
      assert IsEntry(ps, steps, now, p);
    }
    if progress.Going? && progress.due > now {
      var p :| IsEntry(ps, steps, now, p);
      assert IsEntry(ExpireSequence(ps, id), steps, now, p);
    }
  }

  lemma {:induction false} ExpireMembers(ps: seq<PendingSequence>, id: nat)
    ensures forall p :: p in ExpireSequence(ps, id) <==> p in ps && p.id != id
  {
    if ps != [] {
      ExpireMembers(ps[1..], id);
    }
  }

  lemma {:induction false} UnexpiredMembers(ps: seq<PendingSequence>, now: nat)
    ensures forall p :: p in Unexpired(ps, now) <==> p in ps && p.expiresAt > now
  {
    if ps != [] {
      UnexpiredMembers(ps[1..], now);
    }
  }

  // ----- one key-down -----

  /** What a key-down leaves in the table: the unexpired entries of other step
      lists, and for its own list what the machine shows. */
  ghost predicate TableAfter(ps: seq<PendingSequence>, f: SequenceFeed, table: seq<PendingSequence>, progress: Progress) {
    && (forall p :: p in ps && !Alike(f.steps, p.steps) ==> p in table)
    && (forall p :: p in table ==> (p in ps && !Alike(f.steps, p.steps)) || (Alike(p.steps, f.steps) && Shows(p, progress)))
    && (progress.Going? ==> exists p :: p in table && Alike(p.steps, f.steps))
  }

  lemma StartReacts(ps: seq<PendingSequence>, f: SequenceFeed, progress: Progress)
    requires f.steps != [] && !Continues(progress, f)
    requires forall p :: p in ps ==> !Alike(f.steps, p.steps)
    ensures var (table, outcome) := StartSequence(ps, f);
            outcome == React(progress, f).1 && TableAfter(ps, f, table, React(progress, f).0)
  {
    var entry := PendingSequence(f.steps, 1, f.action, f.now + f.maxGap, f.id);
    assert Alike(entry.steps, f.steps);
    assert entry in ps + [entry];
  }

  lemma AdvanceReacts(ps: seq<PendingSequence>, f: SequenceFeed, i: nat, progress: Progress)
    requires i < |ps| && Alike(ps[i].steps, f.steps) && Shows(ps[i], progress) && Continues(progress, f)
    requires forall j :: 0 <= j < |ps| && j != i ==> !Alike(f.steps, ps[j].steps)
    ensures var (table, outcome) := AdvanceSequence(ps, f, i);
            outcome == React(progress, f).1 && TableAfter(ps, f, table, React(progress, f).0)
  {
    hide Alike, MatchesStep;
    AlikeBothWays(f.steps, ps[i].steps);
    var advanced := ps[i].(nextStep := ps[i].nextStep + 1, expiresAt := f.now + f.maxGap, id := f.id);
    assert advanced in ps[i := advanced] by {
      assert ps[i := advanced][i] == advanced;
    }
    forall p | p in ps && !Alike(f.steps, p.steps) ensures p in AdvanceSequence(ps, f, i).0 {
      var j :| 0 <= j < |ps| && ps[j] == p;
      assert j != i;
      assert ps[i := advanced][j] == p;
      if j < i {
        assert (ps[..i] + ps[i + 1..])[j] == p;
      } else {
        assert (ps[..i] + ps[i + 1..])[j - 1] == p;
      }
    }
  }

  lemma AlikeBothWays(a: seq<KeyCombination>, b: seq<KeyCombination>)
    ensures Alike(a, b) == Alike(b, a)
  {}

  lemma RestartReacts(ps: seq<PendingSequence>, f: SequenceFeed, i: nat, progress: Progress)
    requires f.steps != [] && !Continues(progress, f)
    requires i < |ps| && Alike(f.steps, ps[i].steps)
    requires forall j :: 0 <= j < |ps| && j != i ==> !Alike(f.steps, ps[j].steps)
    ensures var (table, outcome) := StartSequence(ps[..i] + ps[i + 1..], f);
            outcome == React(progress, f).1 && TableAfter(ps, f, table, React(progress, f).0)
  {
    hide Alike, MatchesStep, StartSequence;
    var rest := ps[..i] + ps[i + 1..];
    StartReacts(rest, f, progress);
    forall p | p in ps && !Alike(f.steps, p.steps) ensures p in rest {
      var j :| 0 <= j < |ps| && ps[j] == p;
      assert p == if j < i then rest[j] else rest[j - 1];
    }
    assert forall p :: p in rest ==> p in ps;
  }

  lemma FeedReacts(r: SequenceRun, f: SequenceFeed, progress: Progress)
    requires RunInv(r) && Loadable(f.steps) && f.steps != []
    requires Mirrors(r.table, f.steps, progress, f.now)
    ensures var (table, outcome) := FeedSequence(r.table, f);
            outcome == React(progress, f).1 && TableAfter(Unexpired(r.table, f.now), f, table, React(progress, f).0)
  {
    hide StartSequence, AdvanceSequence, Grounded, Loadable, Alike, Unexpired, MatchesStep, React, TableAfter;
    var ps := Unexpired(r.table, f.now);
    UnexpiredMembers(r.table, f.now);
    UnexpiredKeepsOrder(r.table, f.now);
    PlaceOfAlike(ps, r.history, f);
    var i := PlaceOf(ps, f.steps);
    if i == |ps| {
      forall p ensures !IsEntry(r.table, f.steps, f.now, p) {
        AlikeBothWays(p.steps, f.steps);
      }
      StartReacts(ps, f, progress);
    } else {
      assert ps[i] in ps;
      assert IsEntry(r.table, f.steps, f.now, ps[i]);
      assert Shows(ps[i], progress);
      AlikeBothWays(ps[i].steps, f.steps);
      WithoutEntry(ps, r.history, f, i);
      if MatchesStep(f, f.steps, ps[i].nextStep) {
        AdvanceReacts(ps, f, i, progress);
      } else {
        RestartReacts(ps, f, i, progress);
      }
    }
  }

  /** The machine of the key-down's own list goes on. */
  lemma OwnMirrors(r: SequenceRun, f: SequenceFeed, steps: seq<KeyCombination>, table: seq<PendingSequence>, progress: Progress)
    requires Alike(f.steps, steps) && TableAfter(Unexpired(r.table, f.now), f, table, progress)
    ensures Mirrors(table, steps, progress, f.now)
  {
    hide Alike;
    AlikeBothWays(f.steps, steps);
    forall p | IsEntry(table, steps, f.now, p) ensures Shows(p, progress) {
      AlikeTransitively(f.steps, steps, p.steps);
      AlikeBothWays(p.steps, steps);
    }
    if progress.Going? && progress.due > f.now {
      var p :| p in table && Alike(p.steps, f.steps);
      AlikeBothWays(p.steps, f.steps);
      AlikeTransitively(p.steps, f.steps, steps);
      assert IsEntry(table, steps, f.now, p);
    }
  }

  lemma AlikeTransitively(a: seq<KeyCombination>, b: seq<KeyCombination>, c: seq<KeyCombination>)
    ensures Alike(a, b) && Alike(b, c) ==> Alike(a, c)
  {}

  /** The machines of the other lists stay where they are. */
  lemma OtherMirrors(r: SequenceRun, f: SequenceFeed, steps: seq<KeyCombination>, table: seq<PendingSequence>, own: Progress, progress: Progress)
    requires !Alike(f.steps, steps) && TableAfter(Unexpired(r.table, f.now), f, table, own)
    requires Mirrors(r.table, steps, progress, f.now)
    ensures Mirrors(table, steps, progress, f.now)
  {
    hide Alike, Unexpired;
    UnexpiredMembers(r.table, f.now);
    forall p | IsEntry(table, steps, f.now, p) ensures Shows(p, progress) {
      AlikeBothWays(p.steps, f.steps);
      AlikeTransitively(f.steps, p.steps, steps);
      assert IsEntry(r.table, steps, f.now, p);
    }
    if progress.Going? && progress.due > f.now {
      var p :| IsEntry(r.table, steps, f.now, p);
      AlikeTransitively(f.steps, p.steps, steps);
      assert IsEntry(table, steps, f.now, p);
    }
  }

  lemma ProgressGrows(history: seq<SequenceFeed>, f: SequenceFeed, steps: seq<KeyCombination>)
    ensures ProgressOn(history + [f], steps)
         == if Alike(f.steps, steps) then React(ProgressOn(history, steps), f).0 else ProgressOn(history, steps)
  {
    hide React, Alike;
    FedToGrows(history, f, steps);
    var fed := FedTo(history, steps);
    assert (fed + [f])[..|fed|] == fed;
    assert fed + [] == fed;
  }

  lemma FeedMirrors(r: SequenceRun, f: SequenceFeed)
    requires MirrorsAll(r, f.now) && Loadable(f.steps) && f.steps != []
    ensures MirrorsAll(Next(r, Fed(f)), f.now)
    ensures FeedSequence(r.table, f).1 == React(ProgressOn(r.history, f.steps), f).1
  {
    hide Alike, Loadable, FeedSequence, React, TableAfter, Mirrors, RunInv, Unexpired, ProgressOf, FedTo;
    var own := ProgressOn(r.history, f.steps);
    FeedReacts(r, f, own);
    FeedKeepsInv(r, f);
    var table := FeedSequence(r.table, f).0;
    forall steps | Loadable(steps) ensures Mirrors(table, steps, ProgressOn(r.history + [f], steps), f.now) {
      ProgressGrows(r.history, f, steps);
      if Alike(f.steps, steps) {
        FedToAlike(r.history, f.steps, steps);
        OwnMirrors(r, f, steps, table, React(own, f).0);
      } else {
        OtherMirrors(r, f, steps, table, React(own, f).0, ProgressOn(r.history, steps));
      }
    }
  }

  lemma TimerMirrors(r: SequenceRun, id: nat, at: nat)
    requires MirrorsAll(r, at)
    requires forall p :: p in r.table && p.id == id ==> p.expiresAt <= at
    ensures MirrorsAll(Next(r, TimerExpired(id, at)), at)
  {
    hide Mirrors, Loadable, ExpireSequence, ProgressOf, FedTo, Grounded;
    EngineFacts.ExpiredSequences(r.table, id);
    ExpiryKeepsOrder(r.table, id);
    ExpireMembers(r.table, id);
    forall steps | Loadable(steps) ensures Mirrors(ExpireSequence(r.table, id), steps, ProgressOn(r.history, steps), at) {
      ExpiredMirrors(r.table, steps, ProgressOn(r.history, steps), id, at);
    }
  }

  lemma LaterMirrorsAll(r: SequenceRun, now: nat, later: nat)
    requires MirrorsAll(r, now) && now <= later
    ensures MirrorsAll(r, later)
  {
    hide Mirrors, Loadable, ProgressOf, FedTo, RunInv;
    forall steps | Loadable(steps) ensures Mirrors(r.table, steps, ProgressOn(r.history, steps), later) {
      LaterMirrors(r.table, steps, ProgressOn(r.history, steps), now, later);
    }
  }

  ghost predicate NoEmptySteps(ops: seq<SequenceOp>) {
    forall op :: op in ops && op.Fed? ==> op.feed.steps != []
  }

  lemma {:induction false} RunMirrors(r: SequenceRun, ops: seq<SequenceOp>, now: nat)
    requires MirrorsAll(r, now) && LoadableOps(ops) && NoEmptySteps(ops) && InTime(r, ops, now)
    ensures MirrorsAll(RunSequences(r, ops), EndOf(ops, now))
    decreases |ops|
  {
    hide MirrorsAll, Loadable;
    if ops != [] {
      match ops[0] {
        case Fed(f) =>
          LaterMirrorsAll(r, now, f.now);
          FeedMirrors(r, f);
          RunMirrors(Next(r, ops[0]), ops[1..], f.now);
        case TimerExpired(id, at) =>
          LaterMirrorsAll(r, now, at);
          TimerMirrors(r, id, at);
          RunMirrors(Next(r, ops[0]), ops[1..], at);
      }
    }
  }

  /** The time of the last thing that happened. */
  function EndOf(ops: seq<SequenceOp>, now: nat): nat {
    if ops == [] then now
    else EndOf(ops[1..], match ops[0] case Fed(f) => f.now case TimerExpired(_, at) => at)
  }

  /** In every run in time order, whatever lists share the table and whether or
      not the expiry timers come: each key-down's outcome is exactly that of
      its own list's machine on the key-downs fed to that list. */
  lemma EachSequenceIsItsMachine(ops: seq<SequenceOp>, f: SequenceFeed)
    requires LoadableOps(ops) && NoEmptySteps(ops) && InTime(SequenceRun([], []), ops, 0)
    requires Loadable(f.steps) && f.steps != [] && EndOf(ops, 0) <= f.now
    ensures var r := RunSequences(SequenceRun([], []), ops);
            FeedSequence(r.table, f).1 == React(ProgressOf(FedTo(r.history, f.steps)), f).1
  {
    hide FeedSequence, React;
    var start := SequenceRun([], []);
    assert MirrorsAll(start, 0);
    RunMirrors(start, ops, 0);
    var r := RunSequences(start, ops);
    LaterMirrorsAll(r, EndOf(ops, 0), f.now);
    FeedMirrors(r, f);
  }
}
