/** Exactly when a sequence starts, advances and completes, told by the key-downs fed to it alone. */
module SequenceCompletes {
  import opened Options
  import opened Modifiers
  import opened KeySpecs
  import opened Bindings
  import opened Matching
  import opened MatchingRules
  import opened SequenceTables
  import opened SequenceRuns
  import opened SequenceMachines

  /** After the key-down, a code of each key of the step is held. */
  ghost predicate IsPressed(f: SequenceFeed, steps: seq<KeyCombination>, step: nat) {
    step < |steps| && forall key :: key in steps[step].keys ==> IsHeld(key, f.held)
  }

  lemma MatchesStepMeans(f: SequenceFeed, steps: seq<KeyCombination>, step: nat)
    ensures MatchesStep(f, steps, step) <==> IsPressed(f, steps, step)
  {
    hide KeysDown, IsHeld;
    if step < |steps| {
      KeysDownMeans(steps[step], f.held);
    }
  }

  lemma {:induction false} PayloadCodesMeans(keys: seq<KeySpec>, code: Vk)
    ensures code in PayloadCodes(keys) <==> Key(code) in keys && code !in ALL
  {
    if keys != [] {
      PayloadCodesMeans(keys[1..], code);
      assert keys == [keys[0]] + keys[1..];
    }
  }

  /** The key-ups a completed sequence holds back are those of its last step's
      keys that are no modifiers. */
  lemma LastStepKeysMeans(steps: seq<KeyCombination>, code: Vk)
    ensures code in LastStepKeys(steps) <==> steps != [] && Key(code) in steps[|steps| - 1].keys && code !in ALL
  {
    if steps != [] {
      PayloadCodesMeans(steps[|steps| - 1].keys, code);
    }
  }

  /** The key-down comes within the gap that the one before it set. */
  ghost predicate InGap(fed: seq<SequenceFeed>, f: SequenceFeed) {
    fed != [] && f.now < fed[|fed| - 1].now + fed[|fed| - 1].maxGap
  }

  /** How many steps are done after one more key-down, before a full list is
      complete: the next one, in time; else the first one; else none. */
  ghost function DoneBy(fed: seq<SequenceFeed>, f: SequenceFeed, steps: seq<KeyCombination>): (done: nat)
    ensures done <= |fed| + 1
    decreases |fed|, 1
  {
    var done := StepsDone(fed, steps);
    if done > 0 && InGap(fed, f) && IsPressed(f, steps, done) then done + 1
    else if IsPressed(f, steps, 0) then 1
    else 0
  }

  /** How many steps of the list the last key-downs are: none after one that
      matched none or completed it. */
  ghost function StepsDone(fed: seq<SequenceFeed>, steps: seq<KeyCombination>): (done: nat)
    ensures done <= |fed|
    decreases |fed|, 0
  {
    if fed == [] then 0
    else
      var n := |fed| - 1;
      var reached := DoneBy(fed[..n], fed[n], steps);
      if reached == |steps| then 0 else reached
  }

  ghost predicate IsProgress(p: Progress, fed: seq<SequenceFeed>, done: nat) {
    if done == 0 then p == Idle
    else
      && done <= |fed|
      && p == Going(done, fed[|fed| - 1].now + fed[|fed| - 1].maxGap, fed[|fed| - done].action)
  }

  lemma OneMoreDone(fed: seq<SequenceFeed>, f: SequenceFeed, steps: seq<KeyCombination>)
    ensures var reached := DoneBy(fed, f, steps);
            StepsDone(fed + [f], steps) == if reached == |steps| then 0 else reached
  {
    hide IsPressed;
    assert (fed + [f])[..|fed|] == fed;
  }

  /** What one more key-down comes to, told by those before it and by itself.
      The action is that of the key-down that was the first step. */
  ghost predicate OutcomeMeans(outcome: SequenceOutcome, fed: seq<SequenceFeed>, f: SequenceFeed, steps: seq<KeyCombination>) {
    var done, all := DoneBy(fed, f, steps), fed + [f];
    if done == 0 then outcome == NotMatching
    else if done < |steps| then outcome == Advanced(f.now + f.maxGap)
    else
      && outcome.Finished?
      && outcome.action == all[|all| - done].action
      && forall code: Vk :: code in outcome.lastStepKeys <==> IsPayloadOfLast(steps, code)
  }

  ghost predicate IsPayloadOfLast(steps: seq<KeyCombination>, code: Vk) {
    steps != [] && Key(code) in steps[|steps| - 1].keys && code !in ALL
  }

  lemma PayloadAlike(own: seq<KeyCombination>, steps: seq<KeyCombination>, code: Vk)
    requires Alike(own, steps)
    ensures code in LastStepKeys(own) <==> IsPayloadOfLast(steps, code)
  {
    LastStepKeysMeans(own, code);
    if own != [] {
      var last := |own| - 1;
      assert Key(code) in own[last].keys <==> Key(code) in KeySet(own[last].keys);
      assert Key(code) in steps[last].keys <==> Key(code) in KeySet(steps[last].keys);
    }
  }

  lemma StepAlike(f: SequenceFeed, steps: seq<KeyCombination>, step: nat)
    requires Alike(f.steps, steps)
    ensures MatchesStep(f, f.steps, step) <==> IsPressed(f, steps, step)
    ensures IsPressed(f, steps, step) ==> step < |steps|
  {
    hide MatchesStep;
    AlikeMatches(f, f.steps, steps, step);
    MatchesStepMeans(f, steps, step);
  }

  lemma ReactMeans(p: Progress, fed: seq<SequenceFeed>, f: SequenceFeed, steps: seq<KeyCombination>)
    requires Alike(f.steps, steps) && steps != [] && IsProgress(p, fed, StepsDone(fed, steps))
    ensures OutcomeMeans(React(p, f).1, fed, f, steps)
    ensures IsProgress(React(p, f).0, fed + [f], StepsDone(fed + [f], steps))
  {
    hide IsPressed, MatchesStep, StepsDone, LastStepKeys, IsPayloadOfLast;
    var done, all := StepsDone(fed, steps), fed + [f];
    OneMoreDone(fed, f, steps);
    StepAlike(f, steps, done);
    StepAlike(f, steps, 0);
    forall code: Vk ensures code in LastStepKeys(f.steps) <==> IsPayloadOfLast(steps, code) {
      PayloadAlike(f.steps, steps, code);
    }
    if done > 0 {
      assert all[|all| - (done + 1)] == fed[|fed| - done];
    }
  }

  lemma {:induction false} ProgressIsStepsDone(fed: seq<SequenceFeed>, steps: seq<KeyCombination>)
    requires steps != [] && forall f :: f in fed ==> Alike(f.steps, steps)
    ensures IsProgress(ProgressOf(fed), fed, StepsDone(fed, steps))
  {
    hide React, Alike, IsProgress, DoneBy;
    if fed == [] {
      NothingDone(steps);
    } else {
      var n := |fed| - 1;
      assert fed[n] in fed;
      ProgressIsStepsDone(fed[..n], steps);
      assert fed[..n] + [fed[n]] == fed;
      ReactMeans(ProgressOf(fed[..n]), fed[..n], fed[n], steps);
    }
  }

  lemma NothingDone(steps: seq<KeyCombination>)
    ensures IsProgress(ProgressOf([]), [], StepsDone([], steps))
  {}

  lemma {:induction false} FedToIsAlike(history: seq<SequenceFeed>, steps: seq<KeyCombination>)
    ensures forall f :: f in FedTo(history, steps) ==> f in history && Alike(f.steps, steps)
  {
    if history != [] {
      FedToIsAlike(history[..|history| - 1], steps);
    }
  }

  lemma IdleLeavesNoEntry(table: seq<PendingSequence>, f: SequenceFeed, ps: seq<PendingSequence>)
    requires TableAfter(ps, f, table, Idle)
    ensures forall p :: p in table ==> !Alike(f.steps, p.steps)
  {
    hide Alike;
    forall p: PendingSequence ensures Alike(p.steps, f.steps) == Alike(f.steps, p.steps) {
      AlikeBothWays(p.steps, f.steps);
    }
  }

  lemma FinishedIsIdle(p: Progress, f: SequenceFeed)
    ensures React(p, f).1.Finished? || React(p, f).1.NotMatching? ==> React(p, f).0 == Idle
  {}

  /** In every run in time order, whatever lists share the table and whether or
      not the expiry timers come. A key-down is one step more if a code of each
      key of the next step is held, within the gap that the key-down before it
      set; else it is the first step, or none. The list completes exactly at
      its last step: with the action of the key-down that was its first, the
      payload codes of its last step, and no entry of its steps left. */
  lemma SequenceCompletesExactly(ops: seq<SequenceOp>, f: SequenceFeed)
    requires LoadableOps(ops) && NoEmptySteps(ops) && InTime(SequenceRun([], []), ops, 0)
    requires Loadable(f.steps) && f.steps != [] && EndOf(ops, 0) <= f.now
    ensures var r := RunSequences(SequenceRun([], []), ops);
            var (table, outcome) := FeedSequence(r.table, f);
            && OutcomeMeans(outcome, FedTo(r.history, f.steps), f, f.steps)
            && (outcome.Finished? || outcome.NotMatching? ==> forall p :: p in table ==> !Alike(f.steps, p.steps))
  {
    hide FeedSequence, React, TableAfter, Loadable, IsProgress, OutcomeMeans, RunInv, Mirrors, ProgressOf, FedTo, InTime;
    var start, steps := SequenceRun([], []), f.steps;
    StartMirrors();
    RunMirrors(start, ops, 0);
    var r := RunSequences(start, ops);
    LaterMirrorsAll(r, EndOf(ops, 0), f.now);
    FeedMirrors(r, f);
    var fed := FedTo(r.history, steps);
    FedToIsAlike(r.history, steps);
    ProgressIsStepsDone(fed, steps);
    ReactMeans(ProgressOf(fed), fed, f, steps);
    FinishedIsIdle(ProgressOf(fed), f);
    FeedReacts(r, f, ProgressOf(fed));
    if React(ProgressOf(fed), f).0 == Idle {
      IdleLeavesNoEntry(FeedSequence(r.table, f).0, f, Unexpired(r.table, f.now));
    }
  }

  lemma StartMirrors()
    ensures MirrorsAll(SequenceRun([], []), 0)
  {}
}
