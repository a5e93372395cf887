/** Pruning the timer queue changes nothing about the order in which the others are handed out. */
module PrunedQueue {
  import opened Options
  import opened Timers

  lemma {:induction false} NotEmptyAt(queue: seq<TimerRequest>, due: nat)
    ensures DueAt(queue, due) != [] <==> exists i :: 0 <= i < |queue| && queue[i].due == due
  {
    if queue != [] {
      NotEmptyAt(queue[1..], due);
      if i :| 0 <= i < |queue[1..]| && queue[1..][i].due == due {
        assert queue[i + 1].due == due;
      }
      if i :| 0 <= i < |queue| && queue[i].due == due && i > 0 {
        assert queue[1..][i - 1].due == due;
      }
    }
  }

  lemma SameEarliest(a: seq<TimerRequest>, b: seq<TimerRequest>)
    requires EarliestFirst(a) && EarliestFirst(b) && a != []
    requires forall due: nat :: DueAt(a, due) == DueAt(b, due)
    ensures b != [] && b[0].due <= a[0].due
  {
    NotEmptyAt(a, a[0].due);
    NotEmptyAt(b, a[0].due);
  }

  /** A stable sort has one result. */
  lemma {:induction false} StableSortIsUnique(a: seq<TimerRequest>, b: seq<TimerRequest>)
    requires EarliestFirst(a) && EarliestFirst(b)
    requires forall due: nat :: DueAt(a, due) == DueAt(b, due)
    ensures a == b
  {
    if a == [] {
      if b != [] {
        SameEarliest(b, a);
      }
    } else {
      SameEarliest(a, b);
      SameEarliest(b, a);
      assert DueAt(a, a[0].due) == DueAt(b, a[0].due);
      assert a[0] == DueAt(a, a[0].due)[0] == b[0];
      forall due: nat ensures DueAt(a[1..], due) == DueAt(b[1..], due) {
        assert DueAt(a, due) == DueAt(b, due);
        SameTail(a, b, due);
      }
      StableSortIsUnique(a[1..], b[1..]);
    }
  }

  lemma SameTail(a: seq<TimerRequest>, b: seq<TimerRequest>, due: nat)
    requires a != [] && b != [] && a[0] == b[0] && DueAt(a, due) == DueAt(b, due)
    ensures DueAt(a[1..], due) == DueAt(b[1..], due)
  {
    if a[0].due == due {
      assert DueAt(a, due)[1..] == DueAt(a[1..], due);
      assert DueAt(b, due)[1..] == DueAt(b[1..], due);
    } else {
      assert DueAt(a, due) == DueAt(a[1..], due);
      assert DueAt(b, due) == DueAt(b[1..], due);
    }
  }

  lemma {:induction false} RetainedAt(queue: seq<TimerRequest>, live: TimerToken -> bool, due: nat)
    ensures DueAt(RetainLive(queue, live), due) == RetainLive(DueAt(queue, due), live)
  {
    if queue != [] {
      var rest := RetainLive(queue[1..], live);
      RetainedAt(queue[1..], live, due);
      if live(queue[0].token) {
        assert RetainLive(queue, live)[0] == queue[0] && RetainLive(queue, live)[1..] == rest;
      } else {
        assert RetainLive(queue, live) == rest;
      }
      if queue[0].due == due {
        assert DueAt(queue, due)[0] == queue[0] && DueAt(queue, due)[1..] == DueAt(queue[1..], due);
      } else {
        assert DueAt(queue, due) == DueAt(queue[1..], due);
      }
    }
  }

  lemma {:induction false} RetainedInOrder(queue: seq<TimerRequest>, live: TimerToken -> bool)
    requires EarliestFirst(queue)
    ensures EarliestFirst(RetainLive(queue, live))
  {
    if queue != [] {
      var rest := RetainLive(queue[1..], live);
      RetainedInOrder(queue[1..], live);
      forall r | r in rest ensures queue[0].due <= r.due {
        var i :| 0 <= i < |queue[1..]| && queue[1..][i] == r;
        assert queue[i + 1] == r;
      }
      if live(queue[0].token) {
        assert RetainLive(queue, live) == [queue[0]] + rest;
      } else {
        assert RetainLive(queue, live) == rest;
      }
    }
  }

  /** Dropping timers that no longer wait and then draining to `now` hands out
      exactly the others of what draining the whole queue hands out, and in
      the same order. */
  lemma PruningKeepsTheHandOut(queue: seq<TimerRequest>, live: TimerToken -> bool, now: nat)
    ensures HandedOut(RetainLive(queue, live), now) == RetainLive(HandedOut(queue, now), live)
  {
    var pruned, all := HandedOut(RetainLive(queue, live), now), HandedOut(queue, now);
    HandedOutFacts(RetainLive(queue, live), now);
    HandedOutFacts(queue, now);
    RetainedInOrder(all, live);
    forall due: nat ensures DueAt(pruned, due) == DueAt(RetainLive(all, live), due) {
      if due <= now {
        HandedOutKeepsStartOrder(RetainLive(queue, live), now, due);
        HandedOutKeepsStartOrder(queue, now, due);
        RetainedAt(queue, live, due);
        RetainedAt(all, live, due);
      } else {
        NoneDueAt(pruned, due);
        NoneDueAt(RetainLive(all, live), due);
      }
    }
    StableSortIsUnique(pruned, RetainLive(all, live));
  }
}
