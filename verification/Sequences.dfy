/** Pending sequences: steps pressed in order, each within a gap of the one
    before. */
module SequenceTables {
  import opened Options
  import opened Modifiers
  import opened KeySpecs
  import opened Bindings
  import opened Seqs
  import opened Matching

  datatype PendingSequence = PendingSequence(
    steps: seq<KeyCombination>,
    nextStep: nat,
    action: Action,
    expiresAt: nat,
    id: nat)

  datatype SequenceOutcome =
    | NotMatching
    | Advanced(due: nat)
    | Finished(action: Action, lastStepKeys: seq<Vk>)

  /** Step lists are compared step by step, each step's keys in any order. */
  predicate SameSteps(a: seq<KeyCombination>, b: seq<KeyCombination>) {
    |a| == |b| && forall i :: 0 <= i < |a| ==> a[i].SameAs(b[i])
  }

  /** The codes of the non-modifier keys. */
  function PayloadCodes(keys: seq<KeySpec>): seq<Vk> {
    if keys == [] then [] else
    (if keys[0].Family().None? && keys[0].Key? then [keys[0].vk] else []) + PayloadCodes(keys[1..])
  }

  function LastStepKeys(steps: seq<KeyCombination>): seq<Vk> {
    if steps == [] then [] else PayloadCodes(steps[|steps| - 1].keys)
  }

  function Unexpired(ps: seq<PendingSequence>, now: nat): seq<PendingSequence> {
    if ps == [] then [] else (if ps[0].expiresAt > now then [ps[0]] else []) + Unexpired(ps[1..], now)
  }

  function PlaceOf(ps: seq<PendingSequence>, steps: seq<KeyCombination>): (place: nat)
    ensures place <= |ps|
    ensures place < |ps| ==> SameSteps(ps[place].steps, steps)
    ensures forall i :: 0 <= i < place ==> !SameSteps(ps[i].steps, steps)
  {
    if ps == [] || SameSteps(ps[0].steps, steps) then 0 else 1 + PlaceOf(ps[1..], steps)
  }

  /** One key-down fed to one sequence binding; `held` are the keys held after it. */
  datatype SequenceFeed = SequenceFeed(held: Flags, action: Action, steps: seq<KeyCombination>, maxGap: nat, now: nat, id: nat)

  predicate MatchesStep(f: SequenceFeed, steps: seq<KeyCombination>, step: nat) {
    step < |steps| && KeysDown(steps[step], f.held)
  }

  /** No entry for these steps is left: does the key-down start them? */
  function StartSequence(ps: seq<PendingSequence>, f: SequenceFeed): (seq<PendingSequence>, SequenceOutcome) {
    if !MatchesStep(f, f.steps, 0) then (ps, NotMatching)
    else if |f.steps| == 1 then (ps, Finished(f.action, LastStepKeys(f.steps)))
    else (ps + [PendingSequence(f.steps, 1, f.action, f.now + f.maxGap, f.id)], Advanced(f.now + f.maxGap))
  }

  /** The entry's next step matched. */
  function AdvanceSequence(ps: seq<PendingSequence>, f: SequenceFeed, i: nat): (seq<PendingSequence>, SequenceOutcome)
    requires i < |ps|
  {
    if ps[i].nextStep + 1 == |f.steps|
    then (ps[..i] + ps[i + 1..], Finished(ps[i].action, LastStepKeys(f.steps)))
    else (ps[i := ps[i].(nextStep := ps[i].nextStep + 1, expiresAt := f.now + f.maxGap, id := f.id)],
          Advanced(f.now + f.maxGap))
  }

  /** What a key-down does with the unexpired entries. */
  function FeedFound(ps: seq<PendingSequence>, f: SequenceFeed): (seq<PendingSequence>, SequenceOutcome) {
    var i := PlaceOf(ps, f.steps);
    if i == |ps| then StartSequence(ps, f)
    else if MatchesStep(f, f.steps, ps[i].nextStep) then AdvanceSequence(ps, f, i)
    else StartSequence(ps[..i] + ps[i + 1..], f)
  }

  function FeedSequence(table: seq<PendingSequence>, f: SequenceFeed): (seq<PendingSequence>, SequenceOutcome) {
    if f.steps == [] then (table, NotMatching) else FeedFound(Unexpired(table, f.now), f)
  }

  function ExpireSequence(ps: seq<PendingSequence>, id: nat): seq<PendingSequence> {
    if ps == [] then [] else (if ps[0].id != id then [ps[0]] else []) + ExpireSequence(ps[1..], id)
  }

  predicate IsSequenceLive(ps: seq<PendingSequence>, id: nat) {
    exists i :: 0 <= i < |ps| && ps[i].id == id
  }

  class Sequences {
    var pending: seq<PendingSequence>

    constructor ()
      ensures pending == []
    {
      pending := [];
    }

    method OnKeyDown(f: SequenceFeed) returns (outcome: SequenceOutcome)
      modifies this
      ensures (pending, outcome) == FeedSequence(old(pending), f)
    {
      if f.steps == [] {
        return NotMatching;
      }
      RetainUnexpired(f.now);
      var index := Position(f.steps);
      if index < |pending| {
        var nextStep := pending[index].nextStep;
        if nextStep < |f.steps| && KeysDown(f.steps[nextStep], f.held) {
          var entry := pending[index].(nextStep := nextStep + 1, expiresAt := f.now + f.maxGap, id := f.id);
          pending := pending[index := entry];
          if entry.nextStep == |f.steps| {
            pending := pending[..index] + pending[index + 1..];
            return Finished(entry.action, LastStepKeys(f.steps));
          }
          return Advanced(entry.expiresAt);
        }
        pending := pending[..index] + pending[index + 1..];
      }
      if KeysDown(f.steps[0], f.held) {
        if |f.steps| == 1 {
          return Finished(f.action, LastStepKeys(f.steps));
        }
        var due := f.now + f.maxGap;
        pending := pending + [PendingSequence(f.steps, 1, f.action, due, f.id)];
        return Advanced(due);
      }
      outcome := NotMatching;
    }

    method RetainUnexpired(now: nat)
      modifies this
      ensures pending == Unexpired(old(pending), now)
    {
      var kept: seq<PendingSequence> := [];
      ghost var rest := pending;
      for n := 0 to |pending|
        invariant pending == old(pending) && rest == pending[n..]
        invariant Unexpired(pending, now) == kept + Unexpired(rest, now)
      {
        ghost var tail := rest[1..];
        assert Unexpired(rest, now) == (if rest[0].expiresAt > now then [rest[0]] else []) + Unexpired(tail, now);
        hide Unexpired;
        Regroup(kept, [rest[0]], Unexpired(tail, now));
        if pending[n].expiresAt > now {
          kept := kept + [pending[n]];
        }
        rest := tail;
      }
      pending := kept;
    }

    method Position(steps: seq<KeyCombination>) returns (index: nat)
      ensures index == PlaceOf(pending, steps)
    {
      index := 0;
      while index < |pending| && !SameSteps(pending[index].steps, steps)
        invariant index <= |pending|
        invariant PlaceOf(pending, steps) == index + PlaceOf(pending[index..], steps)
      {
        assert pending[index..][1..] == pending[index + 1..];
        index := index + 1;
      }
    }

    method Expire(id: nat)
      modifies this
      ensures pending == ExpireSequence(old(pending), id)
    {
      var kept: seq<PendingSequence> := [];
      ghost var rest := pending;
      for n := 0 to |pending|
        invariant pending == old(pending) && rest == pending[n..]
        invariant ExpireSequence(pending, id) == kept + ExpireSequence(rest, id)
      {
        ghost var tail := rest[1..];
        assert ExpireSequence(rest, id) == (if rest[0].id != id then [rest[0]] else []) + ExpireSequence(tail, id);
        hide ExpireSequence;
        Regroup(kept, [rest[0]], ExpireSequence(tail, id));
        if pending[n].id != id {
          kept := kept + [pending[n]];
        }
        rest := tail;
      }
      pending := kept;
    }

    predicate IsLive(id: nat)
      reads this
    {
      IsSequenceLive(pending, id)
    }
  }
}
