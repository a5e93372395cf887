/** What a completed sequence says about the key-downs that led to it. */
module SequenceRuns {
  import opened Options
  import opened Modifiers
  import opened KeySpecs
  import opened Bindings
  import opened Matching
  import opened SequenceTables
  import opened EngineFacts

  /** The builders list no key of a step twice. */
  ghost predicate Loadable(steps: seq<KeyCombination>) {
    forall i :: 0 <= i < |steps| ==> steps[i].NoDuplicates()
  }

  /** The same steps, each with the same set of keys. */
  ghost predicate Alike(a: seq<KeyCombination>, b: seq<KeyCombination>) {
    |a| == |b| && forall i :: 0 <= i < |a| ==> KeySet(a[i].keys) == KeySet(b[i].keys)
  }

  lemma SameStepsIsAlike(a: seq<KeyCombination>, b: seq<KeyCombination>)
    requires Loadable(a) && Loadable(b)
    ensures SameSteps(a, b) <==> Alike(a, b)
  {
    if |a| == |b| {
      forall i | 0 <= i < |a| ensures a[i].SameAs(b[i]) <==> KeySet(a[i].keys) == KeySet(b[i].keys) {
        SameAsIsSetEquality(a[i], b[i]);
      }
    }
  }

  lemma AlikeMatches(f: SequenceFeed, a: seq<KeyCombination>, b: seq<KeyCombination>, step: nat)
    requires Alike(a, b)
    ensures MatchesStep(f, a, step) <==> MatchesStep(f, b, step)
  {
    if step < |a| {
      assert forall key :: key in a[step].keys <==> key in KeySet(a[step].keys);
      assert forall key :: key in b[step].keys <==> key in KeySet(b[step].keys);
    }
  }

  datatype SequenceOp = Fed(feed: SequenceFeed) | TimerExpired(id: nat, at: nat)

  datatype SequenceRun = SequenceRun(table: seq<PendingSequence>, history: seq<SequenceFeed>)

  function Next(r: SequenceRun, op: SequenceOp): SequenceRun {
    match op
    case Fed(f) => SequenceRun(FeedSequence(r.table, f).0, r.history + [f])
    case TimerExpired(id, _) => r.(table := ExpireSequence(r.table, id))
  }

  function RunSequences(r: SequenceRun, ops: seq<SequenceOp>): SequenceRun
    decreases |ops|
  {
    if ops == [] then r else RunSequences(Next(r, ops[0]), ops[1..])
  }

  ghost predicate LoadableOps(ops: seq<SequenceOp>) {
    forall op :: op in ops && op.Fed? ==> Loadable(op.feed.steps)
  }

  /** The key-downs of a history that were fed to these steps, in order. */
  ghost function FedTo(history: seq<SequenceFeed>, steps: seq<KeyCombination>): seq<SequenceFeed> {
    if history == [] then [] else
    var n := |history| - 1;
    FedTo(history[..n], steps) + if Alike(history[n].steps, steps) then [history[n]] else []
  }

  lemma FedToGrows(history: seq<SequenceFeed>, f: SequenceFeed, steps: seq<KeyCombination>)
    ensures FedTo(history + [f], steps) == FedTo(history, steps) + if Alike(f.steps, steps) then [f] else []
  {
    assert (history + [f])[..|history|] == history;
  }

  lemma {:induction false} FedToAlike(history: seq<SequenceFeed>, a: seq<KeyCombination>, b: seq<KeyCombination>)
    requires Alike(a, b)
    ensures FedTo(history, a) == FedTo(history, b)
  {
    if history != [] {
      FedToAlike(history[..|history| - 1], a, b);
    }
  }

  /** The last `n` of these key-downs matched the first `n` steps in order,
      each strictly within the gap that the one before set. */
  ghost predicate LastMatched(fed: seq<SequenceFeed>, steps: seq<KeyCombination>, n: nat) {
    n == 0 ||
    (var last := |fed| - 1;
     && fed != []
     && MatchesStep(fed[last], steps, n - 1)
     && (n > 1 ==> last > 0 && fed[last].now < fed[last - 1].now + fed[last - 1].maxGap)
     && LastMatched(fed[..last], steps, n - 1))
  }

  lemma {:induction false} LastMatchedAlike(fed: seq<SequenceFeed>, a: seq<KeyCombination>, b: seq<KeyCombination>, n: nat)
    requires Alike(a, b) && LastMatched(fed, a, n)
    ensures LastMatched(fed, b, n)
  {
    if n > 0 {
      AlikeMatches(fed[|fed| - 1], a, b, n - 1);
      LastMatchedAlike(fed[..|fed| - 1], a, b, n - 1);
    }
  }

  lemma AlikeIsSymmetric(a: seq<KeyCombination>, b: seq<KeyCombination>)
    ensures Alike(a, b) == Alike(b, a)
  {}

  lemma AlikeIsTransitive(a: seq<KeyCombination>, b: seq<KeyCombination>, c: seq<KeyCombination>)
    requires Alike(a, b) && Alike(b, c)
    ensures Alike(a, c)
  {}

  ghost predicate Grounded(p: PendingSequence, history: seq<SequenceFeed>) {
    var fed := FedTo(history, p.steps);
    && Loadable(p.steps)
    && 1 <= p.nextStep < |p.steps|
    && LastMatched(fed, p.steps, p.nextStep)
    && p.expiresAt == fed[|fed| - 1].now + fed[|fed| - 1].maxGap
  }

  ghost predicate OnePerSteps(ps: seq<PendingSequence>) {
    forall i, j :: 0 <= i < j < |ps| ==> !Alike(ps[i].steps, ps[j].steps)
  }

  ghost predicate RunInv(r: SequenceRun) {
    && (forall p :: p in r.table ==> Grounded(p, r.history))
    && OnePerSteps(r.table)
  }

  lemma OtherStepsUnmoved(p: PendingSequence, history: seq<SequenceFeed>, f: SequenceFeed)
    requires Grounded(p, history) && !Alike(f.steps, p.steps)
    ensures Grounded(p, history + [f])
  {
    FedToGrows(history, f, p.steps);
    assert FedTo(history + [f], p.steps) == FedTo(history, p.steps);
  }

  /** One more key-down that matched the next step, in time. */
  lemma MatchGrows(p: PendingSequence, history: seq<SequenceFeed>, f: SequenceFeed)
    requires Grounded(p, history) && Alike(f.steps, p.steps)
    requires MatchesStep(f, f.steps, p.nextStep) && f.now < p.expiresAt
    ensures LastMatched(FedTo(history + [f], p.steps), p.steps, p.nextStep + 1)
  {
    var fed := FedTo(history, p.steps);
    FedToGrows(history, f, p.steps);
    AlikeMatches(f, f.steps, p.steps, p.nextStep);
    assert (fed + [f])[..|fed|] == fed;
  }

  lemma FirstMatch(history: seq<SequenceFeed>, f: SequenceFeed)
    requires MatchesStep(f, f.steps, 0)
    ensures LastMatched(FedTo(history + [f], f.steps), f.steps, 1)
    ensures FedTo(history + [f], f.steps) == FedTo(history, f.steps) + [f]
  {
    FedToGrows(history, f, f.steps);
  }

  lemma {:induction false} UnexpiredKeepsOrder(ps: seq<PendingSequence>, now: nat)
    requires OnePerSteps(ps)
    ensures OnePerSteps(Unexpired(ps, now))
  {
    if ps != [] {
      var rest := ps[1..];
      assert forall i :: 0 <= i < |rest| ==> rest[i] == ps[i + 1];
      UnexpiredKeepsOrder(rest, now);
      UnexpiredSequences(rest, now);
      if ps[0].expiresAt > now {
        PrependSteps(ps[0], Unexpired(rest, now));
      }
    }
  }

  lemma PrependSteps(p: PendingSequence, ps: seq<PendingSequence>)
    requires OnePerSteps(ps) && forall q :: q in ps ==> !Alike(p.steps, q.steps)
    ensures OnePerSteps([p] + ps)
  {}

  lemma {:induction false} ExpiryKeepsOrder(ps: seq<PendingSequence>, id: nat)
    requires OnePerSteps(ps)
    ensures OnePerSteps(ExpireSequence(ps, id))
  {
    if ps != [] {
      var rest := ps[1..];
      assert forall i :: 0 <= i < |rest| ==> rest[i] == ps[i + 1];
      ExpiryKeepsOrder(rest, id);
      ExpiredSequences(rest, id);
      if ps[0].id != id {
        PrependSteps(ps[0], ExpireSequence(rest, id));
      }
    }
  }

  /** The table with no entry for the steps of `f`. */
  ghost predicate Others(ps: seq<PendingSequence>, history: seq<SequenceFeed>, f: SequenceFeed) {
    && OnePerSteps(ps)
    && forall p :: p in ps ==> Grounded(p, history) && !Alike(f.steps, p.steps)
  }

  ghost predicate CompletionExplained(history: seq<SequenceFeed>, f: SequenceFeed, outcome: SequenceOutcome) {
    outcome.Finished? ==> LastMatched(FedTo(history, f.steps), f.steps, |f.steps|)
  }

  lemma StartKeepsInv(ps: seq<PendingSequence>, history: seq<SequenceFeed>, f: SequenceFeed)
    requires Others(ps, history, f) && Loadable(f.steps) && f.steps != []
    ensures RunInv(SequenceRun(StartSequence(ps, f).0, history + [f]))
    ensures CompletionExplained(history + [f], f, StartSequence(ps, f).1)
  {
    forall p | p in ps ensures Grounded(p, history + [f]) {
      OtherStepsUnmoved(p, history, f);
    }
    if MatchesStep(f, f.steps, 0) {
      FirstMatch(history, f);
      if |f.steps| > 1 {
        var entry := PendingSequence(f.steps, 1, f.action, f.now + f.maxGap, f.id);
        assert Grounded(entry, history + [f]);
        forall p | p in ps ensures !Alike(p.steps, f.steps) {
          AlikeIsSymmetric(p.steps, f.steps);
        }
      }
    }
  }

  /** The other entries once the one for the steps of `f` is taken out. */
  lemma WithoutEntry(ps: seq<PendingSequence>, history: seq<SequenceFeed>, f: SequenceFeed, i: nat)
    requires OnePerSteps(ps) && i < |ps| && Alike(ps[i].steps, f.steps)
    requires forall p :: p in ps ==> Grounded(p, history)
    ensures Others(ps[..i] + ps[i + 1..], history, f)
    ensures forall j :: 0 <= j < |ps| && j != i ==> !Alike(f.steps, ps[j].steps)
  {
    forall j | 0 <= j < |ps| && j != i ensures !Alike(f.steps, ps[j].steps) {
      AlikeIsSymmetric(ps[i].steps, ps[j].steps);
      if Alike(f.steps, ps[j].steps) {
        AlikeIsTransitive(ps[i].steps, f.steps, ps[j].steps);
      }
    }
  }

  lemma AdvanceKeepsInv(ps: seq<PendingSequence>, history: seq<SequenceFeed>, f: SequenceFeed, i: nat)
    requires OnePerSteps(ps) && i < |ps| && Alike(ps[i].steps, f.steps)
    requires forall p :: p in ps ==> Grounded(p, history)
    requires MatchesStep(f, f.steps, ps[i].nextStep) && f.now < ps[i].expiresAt
    ensures RunInv(SequenceRun(AdvanceSequence(ps, f, i).0, history + [f]))
    ensures CompletionExplained(history + [f], f, AdvanceSequence(ps, f, i).1)
  {
    var p := ps[i];
    AlikeIsSymmetric(f.steps, p.steps);
    MatchGrows(p, history, f);
    WithoutEntry(ps, history, f, i);
    forall j | 0 <= j < |ps| && j != i ensures Grounded(ps[j], history + [f]) {
      OtherStepsUnmoved(ps[j], history, f);
    }
    FedToGrows(history, f, p.steps);
    FedToAlike(history + [f], f.steps, p.steps);
    if p.nextStep + 1 == |f.steps| {
      LastMatchedAlike(FedTo(history + [f], f.steps), p.steps, f.steps, |f.steps|);
    }
  }

  lemma FeedToEntry(ps: seq<PendingSequence>, history: seq<SequenceFeed>, f: SequenceFeed, i: nat)
    requires OnePerSteps(ps) && i < |ps| && Alike(ps[i].steps, f.steps) && Loadable(f.steps) && f.steps != []
    requires forall p :: p in ps ==> Grounded(p, history) && p.expiresAt > f.now
    requires !MatchesStep(f, f.steps, ps[i].nextStep)
    ensures RunInv(SequenceRun(StartSequence(ps[..i] + ps[i + 1..], f).0, history + [f]))
    ensures CompletionExplained(history + [f], f, StartSequence(ps[..i] + ps[i + 1..], f).1)
  {
    hide StartSequence, Grounded;
    WithoutEntry(ps, history, f, i);
    StartKeepsInv(ps[..i] + ps[i + 1..], history, f);
  }

  lemma PlaceOfAlike(ps: seq<PendingSequence>, history: seq<SequenceFeed>, f: SequenceFeed)
    requires Loadable(f.steps) && forall p :: p in ps ==> Grounded(p, history)
    ensures var i := PlaceOf(ps, f.steps);
            if i < |ps| then Alike(ps[i].steps, f.steps) else forall p :: p in ps ==> !Alike(f.steps, p.steps)
  {
    forall p | p in ps ensures SameSteps(p.steps, f.steps) <==> Alike(f.steps, p.steps) {
      SameStepsIsAlike(p.steps, f.steps);
      AlikeIsSymmetric(p.steps, f.steps);
    }
    var i := PlaceOf(ps, f.steps);
    if i < |ps| {
      AlikeIsSymmetric(ps[i].steps, f.steps);
    }
  }

  /** A binding without steps feeds nothing. */
  lemma NoStepsKeepInv(r: SequenceRun, f: SequenceFeed)
    requires RunInv(r) && f.steps == []
    ensures RunInv(Next(r, Fed(f))) && FeedSequence(r.table, f).1 == NotMatching
  {
    hide LastMatched, FedTo, OnePerSteps, Loadable;
    forall p | p in r.table ensures Grounded(p, r.history + [f]) {
      OtherStepsUnmoved(p, r.history, f);
    }
  }

  /** The unexpired entries, as the feed finds them. */
  ghost predicate Found(ps: seq<PendingSequence>, history: seq<SequenceFeed>, f: SequenceFeed) {
    OnePerSteps(ps) && forall p :: p in ps ==> Grounded(p, history) && p.expiresAt > f.now
  }

  lemma FoundKeepsInv(ps: seq<PendingSequence>, history: seq<SequenceFeed>, f: SequenceFeed)
    requires Found(ps, history, f) && Loadable(f.steps) && f.steps != []
    ensures RunInv(SequenceRun(FeedFound(ps, f).0, history + [f]))
    ensures CompletionExplained(history + [f], f, FeedFound(ps, f).1)
  {
    hide StartSequence, AdvanceSequence, Grounded, Loadable, Alike, MatchesStep, OnePerSteps, RunInv, CompletionExplained;
    PlaceOfAlike(ps, history, f);
    var i := PlaceOf(ps, f.steps);
    if i == |ps| {
      StartKeepsInv(ps, history, f);
    } else if MatchesStep(f, f.steps, ps[i].nextStep) {
      AdvanceKeepsInv(ps, history, f, i);
    } else {
      FeedToEntry(ps, history, f, i);
    }
  }

  lemma FeedKeepsInv(r: SequenceRun, f: SequenceFeed)
    requires RunInv(r) && Loadable(f.steps)
    ensures RunInv(Next(r, Fed(f)))
    ensures CompletionExplained(r.history + [f], f, FeedSequence(r.table, f).1)
  {
    hide StartSequence, AdvanceSequence, Grounded, Loadable, Alike, Unexpired, MatchesStep, LastMatched, SameSteps, FedTo, OnePerSteps;
    if f.steps == [] {
      NoStepsKeepInv(r, f);
    } else {
      UnexpiredSequences(r.table, f.now);
      UnexpiredKeepsOrder(r.table, f.now);
      FoundKeepsInv(Unexpired(r.table, f.now), r.history, f);
      hide FeedFound, RunInv, CompletionExplained;
    }
  }

  lemma {:induction false} RunKeepsInv(r: SequenceRun, ops: seq<SequenceOp>)
    requires RunInv(r) && LoadableOps(ops)
    ensures RunInv(RunSequences(r, ops))
    decreases |ops|
  {
    if ops != [] {
      match ops[0] {
        case Fed(f) => FeedKeepsInv(r, f);
        case TimerExpired(id, _) =>
          ExpiredSequences(r.table, id);
          ExpiryKeepsOrder(r.table, id);
      }
      RunKeepsInv(Next(r, ops[0]), ops[1..]);
    }
  }

  /** In every run, with expiry timers at any time: a pending sequence waits
      for a step after its first and within its list, and no two wait for the
      same steps; and when a sequence of n steps completes, the last n
      key-downs fed to its steps matched them in order, each strictly within
      the gap set by the one before. */
  lemma SequenceHistory(ops: seq<SequenceOp>, f: SequenceFeed)
    requires LoadableOps(ops) && Loadable(f.steps)
    ensures var r := RunSequences(SequenceRun([], []), ops);
            && (forall p :: p in r.table ==> 1 <= p.nextStep < |p.steps|)
            && OnePerSteps(r.table)
            && (FeedSequence(r.table, f).1.Finished? ==>
                  LastMatched(FedTo(r.history + [f], f.steps), f.steps, |f.steps|))
  {
    RunKeepsInv(SequenceRun([], []), ops);
    FeedKeepsInv(RunSequences(SequenceRun([], []), ops), f);
  }
}
