/** Timer tokens and requests, and the queue the main thread keeps them in. */
module Timers {
  import opened Options
  import opened Modifiers
  import opened Seqs

  datatype TimerSlot = GestureSlot(vk: Vk) | ChordSlot | SequenceSlot

  /** Names one arming: the engine's reset generation, the table and the
      engine-wide number of the arming. */
  datatype TimerToken = TimerToken(generation: nat, slot: TimerSlot, id: nat)

  datatype TimerRequest = TimerRequest(token: TimerToken, due: nat)

  /** The place of the request handed out next at `now`, or the length. */
  function NextPlace(queue: seq<TimerRequest>, now: nat): (place: nat)
    ensures place <= |queue|
    ensures place == |queue| ==> forall j :: 0 <= j < |queue| ==> queue[j].due > now
    ensures place < |queue| ==>
              && queue[place].due <= now
              && (forall j :: 0 <= j < place ==> queue[j].due > queue[place].due)
              && (forall j :: place < j < |queue| ==> queue[j].due >= queue[place].due)
  {
    if queue == [] then 0 else
    var later := 1 + NextPlace(queue[1..], now);
    assert forall j :: 1 <= j < |queue| ==> queue[j] == queue[1..][j - 1];
    if queue[0].due <= now && (later == |queue| || queue[0].due <= queue[later].due) then 0 else later
  }

  function WithoutAt(queue: seq<TimerRequest>, place: nat): (rest: seq<TimerRequest>)
    requires place < |queue|
    ensures |rest| == |queue| - 1
  {
    queue[..place] + queue[place + 1..]
  }

  function RetainLive(queue: seq<TimerRequest>, live: TimerToken -> bool): (kept: seq<TimerRequest>)
    ensures forall r :: r in kept <==> r in queue && live(r.token)
  {
    if queue == [] then [] else (if live(queue[0].token) then [queue[0]] else []) + RetainLive(queue[1..], live)
  }

  /** Every request due by `now`, in the order they are handed out. */
  function HandedOut(queue: seq<TimerRequest>, now: nat): seq<TimerRequest>
    decreases |queue|
  {
    var place := NextPlace(queue, now);
    if place == |queue| then [] else [queue[place]] + HandedOut(WithoutAt(queue, place), now)
  }

  function LeftAfter(queue: seq<TimerRequest>, now: nat): seq<TimerRequest> {
    if queue == [] then [] else (if queue[0].due > now then [queue[0]] else []) + LeftAfter(queue[1..], now)
  }

  /** The requests due at exactly `due`, in start order. */
  ghost function DueAt(queue: seq<TimerRequest>, due: nat): seq<TimerRequest> {
    if queue == [] then [] else (if queue[0].due == due then [queue[0]] else []) + DueAt(queue[1..], due)
  }

  lemma {:induction false} NoneDueAt(a: seq<TimerRequest>, due: nat)
    requires forall r :: r in a ==> r.due != due
    ensures DueAt(a, due) == []
  {
    if a != [] {
      NoneDueAt(a[1..], due);
    }
  }

  lemma {:induction false} AllLeft(queue: seq<TimerRequest>, now: nat)
    requires forall r :: r in queue ==> r.due > now
    ensures LeftAfter(queue, now) == queue
  {
    if queue != [] {
      AllLeft(queue[1..], now);
    }
  }

  ghost predicate EarliestFirst(queue: seq<TimerRequest>) {
    forall i, j :: 0 <= i < j < |queue| ==> queue[i].due <= queue[j].due
  }

  lemma {:induction false} HandedOutFacts(queue: seq<TimerRequest>, now: nat)
    ensures forall r :: r in HandedOut(queue, now) ==> r in queue && r.due <= now
    ensures EarliestFirst(HandedOut(queue, now))
    decreases |queue|
  {
    var place := NextPlace(queue, now);
    if place < |queue| {
      var rest := WithoutAt(queue, place);
      HandedOutFacts(rest, now);
      assert forall r :: r in rest ==> r in queue;
      forall r | r in rest ensures r.due >= queue[place].due {
        var j :| 0 <= j < |rest| && rest[j] == r;
        assert r == if j < place then queue[j] else queue[j + 1];
      }
    }
  }

  /** Taking one request out leaves those due at another time; those due with
      it lose their first. */
  lemma {:induction false} DueAtWithout(queue: seq<TimerRequest>, place: nat, due: nat)
    requires place < |queue|
    requires queue[place].due == due ==> forall j :: 0 <= j < place ==> queue[j].due != due
    ensures DueAt(queue, due) ==
            (if queue[place].due == due then [queue[place]] else []) + DueAt(WithoutAt(queue, place), due)
  {
    if place == 0 {
      assert WithoutAt(queue, place) == queue[1..];
    } else {
      WithoutTail(queue, place);
      DueAtWithout(queue[1..], place - 1, due);
    }
  }

  lemma WithoutTail(queue: seq<TimerRequest>, place: nat)
    requires 0 < place < |queue|
    ensures var rest := WithoutAt(queue, place);
            rest != [] && rest[0] == queue[0] && rest[1..] == WithoutAt(queue[1..], place - 1)
  {}

  lemma {:induction false} HandedOutKeepsStartOrder(queue: seq<TimerRequest>, now: nat, due: nat)
    requires due <= now
    ensures DueAt(HandedOut(queue, now), due) == DueAt(queue, due)
    decreases |queue|
  {
    hide WithoutAt;
    var place := NextPlace(queue, now);
    if place == |queue| {
      NoneDueAt(queue, due);
    } else {
      HandedOutKeepsStartOrder(WithoutAt(queue, place), now, due);
      DueAtWithout(queue, place, due);
      var handed := HandedOut(queue, now);
      assert handed[0] == queue[place] && handed[1..] == HandedOut(WithoutAt(queue, place), now);
    }
  }

  lemma {:induction false} DueIsNotLeft(queue: seq<TimerRequest>, place: nat, now: nat)
    requires place < |queue| && queue[place].due <= now
    ensures LeftAfter(WithoutAt(queue, place), now) == LeftAfter(queue, now)
    ensures multiset(queue) == multiset(WithoutAt(queue, place)) + multiset{queue[place]}
  {
    assert queue == [queue[0]] + queue[1..];
    if place == 0 {
      assert WithoutAt(queue, place) == queue[1..];
    } else {
      WithoutTail(queue, place);
      DueIsNotLeft(queue[1..], place - 1, now);
      assert WithoutAt(queue, place) == [queue[0]] + WithoutAt(queue[1..], place - 1);
    }
  }

  lemma {:induction false} HandedOutLeaves(queue: seq<TimerRequest>, now: nat)
    ensures multiset(HandedOut(queue, now)) + multiset(LeftAfter(queue, now)) == multiset(queue)
    decreases |queue|
  {
    var place := NextPlace(queue, now);
    if place == |queue| {
      AllLeft(queue, now);
    } else {
      DueIsNotLeft(queue, place, now);
      HandedOutLeaves(WithoutAt(queue, place), now);
    }
  }

  /** Handing out until nothing is due is a stable sort by due time of the
      requests due by `now`, and leaves exactly the others, in start order. */
  lemma DrainIsAStableSort(queue: seq<TimerRequest>, now: nat)
    ensures EarliestFirst(HandedOut(queue, now))
    ensures forall r :: r in HandedOut(queue, now) <==> r in queue && r.due <= now
    ensures multiset(HandedOut(queue, now)) + multiset(LeftAfter(queue, now)) == multiset(queue)
    ensures forall due: nat :: due <= now ==> DueAt(HandedOut(queue, now), due) == DueAt(queue, due)
  {
    HandedOutFacts(queue, now);
    HandedOutLeaves(queue, now);
    forall due: nat | due <= now ensures DueAt(HandedOut(queue, now), due) == DueAt(queue, due) {
      HandedOutKeepsStartOrder(queue, now, due);
    }
    forall r | r in queue && r.due <= now ensures r in HandedOut(queue, now) {
      assert r in multiset(queue);
      LeftIsLate(queue, now);
      assert r !in multiset(LeftAfter(queue, now));
    }
  }

  lemma {:induction false} LeftIsLate(queue: seq<TimerRequest>, now: nat)
    ensures forall r :: r in LeftAfter(queue, now) ==> r.due > now
  {
    if queue != [] {
      LeftIsLate(queue[1..], now);
    }
  }

  class TimerQueue {
    var pending: seq<TimerRequest>

    constructor ()
      ensures pending == []
    {
      pending := [];
    }

    /** The earliest due time queued. */
    method NextDue() returns (due: Option<nat>)
      ensures due.None? <==> pending == []
      ensures due.Some? ==> (exists r :: r in pending && r.due == due.value) && forall r :: r in pending ==> due.value <= r.due
    {
      due := None;
      for n := 0 to |pending|
        invariant due.None? <==> n == 0
        invariant due.Some? ==> exists j :: 0 <= j < n && pending[j].due == due.value
        invariant due.Some? ==> forall j :: 0 <= j < n ==> due.value <= pending[j].due
      {
        if due.None? || pending[n].due < due.value {
          due := Some(pending[n].due);
        }
      }
    }

    method TakeDue(now: nat) returns (taken: Option<TimerRequest>)
      modifies this
      ensures var place := NextPlace(old(pending), now);
              if place == |old(pending)| then taken == None && pending == old(pending)
              else taken == Some(old(pending)[place]) && pending == WithoutAt(old(pending), place)
    {
      var best: Option<nat> := None;
      for n := 0 to |pending|
        invariant match best
                  case None => forall j :: 0 <= j < n ==> pending[j].due > now
                  case Some(b) =>
                    && b < n && pending[b].due <= now
                    && (forall j :: 0 <= j < b ==> pending[j].due > pending[b].due)
                    && (forall j :: b < j < n ==> pending[j].due >= pending[b].due)
      {
        if pending[n].due <= now && (best.None? || pending[n].due < pending[best.value].due) {
          best := Some(n);
        }
      }
      if best.None? {
        return None;
      }
      taken := Some(pending[best.value]);
      pending := pending[..best.value] + pending[best.value + 1..];
    }

    /** A queue has room for every timer. */
    method Start(request: TimerRequest) returns (started: bool)
      modifies this
      ensures started && pending == old(pending) + [request]
    {
      pending := pending + [request];
      started := true;
    }

    method Retain(live: TimerToken -> bool)
      modifies this
      ensures pending == RetainLive(old(pending), live)
    {
      var kept: seq<TimerRequest> := [];
      ghost var rest := pending;
      for n := 0 to |pending|
        invariant pending == old(pending) && rest == pending[n..]
        invariant RetainLive(pending, live) == kept + RetainLive(rest, live)
      {
        ghost var tail := rest[1..];
        assert RetainLive(rest, live) == (if live(rest[0].token) then [rest[0]] else []) + RetainLive(tail, live);
        hide RetainLive;
        Regroup(kept, [rest[0]], RetainLive(tail, live));
        if live(pending[n].token) {
          kept := kept + [pending[n]];
        }
        rest := tail;
      }
      pending := kept;
    }
  }
}
