/** The key events of a combo, sent as one batch, and the key-ups still owed
    when only the first events of the batch went out. */
module Combos {
  import opened Options
  import opened Modifiers

  datatype ComboEvent = Press(vk: Vk) | Release(vk: Vk)

  /** One half of the partition of the keys into modifiers and payload. */
  function Half(keys: seq<Vk>, modifiers: bool): seq<Vk> {
    if keys == [] then [] else (if (keys[0] in ALL) == modifiers then [keys[0]] else []) + Half(keys[1..], modifiers)
  }

  function Presses(keys: seq<Vk>): (events: seq<ComboEvent>)
    ensures |events| == |keys| && forall i :: 0 <= i < |keys| ==> events[i] == Press(keys[i])
  {
    seq(|keys|, i requires 0 <= i < |keys| => Press(keys[i]))
  }

  function Releases(keys: seq<Vk>): (events: seq<ComboEvent>)
    ensures |events| == |keys| && forall i :: 0 <= i < |keys| ==> events[i] == Release(keys[i])
  {
    seq(|keys|, i requires 0 <= i < |keys| => Release(keys[i]))
  }

  function Reversed(keys: seq<Vk>): (reversed: seq<Vk>)
    ensures |reversed| == |keys| && forall i :: 0 <= i < |keys| ==> reversed[i] == keys[|keys| - 1 - i]
  {
    seq(|keys|, i requires 0 <= i < |keys| => keys[|keys| - 1 - i])
  }

  function ModifiersOf(keys: seq<Vk>): seq<Vk> { Half(keys, true) }

  function PayloadOf(keys: seq<Vk>): seq<Vk> { Half(keys, false) }

  /** Modifiers down, payload down, payload up and modifiers up in reverse. */
  function ComboEvents(keys: seq<Vk>): seq<ComboEvent> {
    var modifiers, payload := ModifiersOf(keys), PayloadOf(keys);
    Presses(modifiers + payload) + Releases(Reversed(payload) + Reversed(modifiers))
  }

  /** The key-ups among `left` of keys whose key-down went out. */
  function Owed(done: seq<ComboEvent>, left: seq<ComboEvent>): seq<Vk> {
    if left == [] then []
    else (if left[0].Release? && Press(left[0].vk) in done then [left[0].vk] else []) + Owed(done, left[1..])
  }

  function Sent(keys: seq<Vk>, sent: nat): (went: nat)
    ensures went <= |ComboEvents(keys)|
  {
    if sent < |ComboEvents(keys)| then sent else |ComboEvents(keys)|
  }

  function UnreleasedKeys(keys: seq<Vk>, sent: nat): seq<Vk> {
    var events, went := ComboEvents(keys), Sent(keys, sent);
    Owed(events[..went], events[went..])
  }

  // ----- what a keyboard does with the events -----

  /** Plays events on a keyboard whose held keys are `down`, the latest last:
      a key goes down only if it is up, and only the key that went down last
      goes up. `None` if an event breaks this. */
  function Play(down: seq<Vk>, events: seq<ComboEvent>): Option<seq<Vk>>
    decreases |events|
  {
    if events == [] then Some(down)
    else
      match events[0]
      case Press(vk) => if vk in down then None else Play(down + [vk], events[1..])
      case Release(vk) => if down == [] || down[|down| - 1] != vk then None else Play(down[..|down| - 1], events[1..])
  }

  predicate NoDuplicates(keys: seq<Vk>) {
    forall i, j :: 0 <= i < j < |keys| ==> keys[i] != keys[j]
  }

  lemma {:induction false} PlayOn(down: seq<Vk>, first: seq<ComboEvent>, rest: seq<ComboEvent>)
    ensures Play(down, first + rest) ==
            (if Play(down, first).None? then None else Play(Play(down, first).value, rest))
    decreases |first|
  {
    if first == [] {
      assert first + rest == rest;
    } else {
      assert (first + rest)[1..] == first[1..] + rest;
      match first[0]
      case Press(vk) => PlayOn(down + [vk], first[1..], rest);
      case Release(vk) => if down != [] { PlayOn(down[..|down| - 1], first[1..], rest); }
    }
  }

  /** Key-downs in a row pass exactly when no key is pressed twice. */
  lemma {:induction false} PlayPresses(down: seq<Vk>, keys: seq<Vk>)
    requires NoDuplicates(down)
    ensures Play(down, Presses(keys)) == if NoDuplicates(down + keys) then Some(down + keys) else None
    decreases |keys|
  {
    if keys == [] {
      assert down + keys == down;
    } else {
      assert Presses(keys)[1..] == Presses(keys[1..]);
      assert down + [keys[0]] + keys[1..] == down + keys;
      if keys[0] in down {
        var i :| 0 <= i < |down| && down[i] == keys[0];
        assert (down + keys)[i] == (down + keys)[|down|];
      } else {
        PlayPresses(down + [keys[0]], keys[1..]);
      }
    }
  }

  lemma {:induction false} PlayReleases(down: seq<Vk>, keys: seq<Vk>)
    ensures Play(down + keys, Releases(Reversed(keys))) == Some(down)
    decreases |keys|
  {
    if keys == [] {
      assert down + keys == down;
    } else {
      var n := |keys| - 1;
      assert Releases(Reversed(keys))[1..] == Releases(Reversed(keys[..n]));
      assert (down + keys)[..|down| + n] == down + keys[..n];
      PlayReleases(down, keys[..n]);
    }
  }

  // ----- the order of the batch -----

  function Order(keys: seq<Vk>): seq<Vk> { ModifiersOf(keys) + PayloadOf(keys) }

  lemma {:induction false} HalvesMakeTheKeys(keys: seq<Vk>)
    ensures multiset(Half(keys, true)) + multiset(Half(keys, false)) == multiset(keys)
  {
    if keys != [] {
      HalvesMakeTheKeys(keys[1..]);
      assert keys == [keys[0]] + keys[1..];
    }
  }

  function Later(places: seq<nat>): (later: seq<nat>)
    ensures |later| == |places| && forall k :: 0 <= k < |places| ==> later[k] == places[k] + 1
  {
    seq(|places|, k requires 0 <= k < |places| => places[k] + 1)
  }

  lemma LaterMembers(places: seq<nat>, i: nat)
    ensures i in Later(places) <==> i > 0 && i - 1 in places
  {
    if i > 0 && i - 1 in places {
      var k :| 0 <= k < |places| && places[k] == i - 1;
      assert Later(places)[k] == i;
    }
  }

  /** The places of the modifiers, or of the other keys. */
  function Places(keys: seq<Vk>, modifiers: bool): seq<nat> {
    if keys == [] then [] else (if (keys[0] in ALL) == modifiers then [0] else []) + Later(Places(keys[1..], modifiers))
  }

  lemma {:induction false} PlacesAreAll(keys: seq<Vk>, modifiers: bool)
    ensures forall i: nat :: i in Places(keys, modifiers) <==> i < |keys| && (keys[i] in ALL <==> modifiers)
  {
    hide ALL;
    if keys != [] {
      PlacesAreAll(keys[1..], modifiers);
      forall i: nat ensures i in Later(Places(keys[1..], modifiers)) <==> i > 0 && i - 1 in Places(keys[1..], modifiers) {
        LaterMembers(Places(keys[1..], modifiers), i);
      }
    }
  }

  lemma {:induction false} PlacesIncrease(keys: seq<Vk>, modifiers: bool)
    ensures forall k, l :: 0 <= k < l < |Places(keys, modifiers)| ==> Places(keys, modifiers)[k] < Places(keys, modifiers)[l]
  {
    hide ALL;
    if keys != [] {
      PlacesIncrease(keys[1..], modifiers);
    }
  }

  lemma {:induction false} HalfIsAtItsPlaces(keys: seq<Vk>, modifiers: bool)
    ensures |Half(keys, modifiers)| == |Places(keys, modifiers)|
    ensures forall k :: 0 <= k < |Places(keys, modifiers)| ==>
              Places(keys, modifiers)[k] < |keys| && Half(keys, modifiers)[k] == keys[Places(keys, modifiers)[k]]
  {
    hide ALL;
    if keys != [] {
      HalfIsAtItsPlaces(keys[1..], modifiers);
    }
  }

  /** A half lists the modifiers, or the other keys, in the order of the keys:
      `places` are all their places, from left to right. */
  lemma HalfKeepsOrder(keys: seq<Vk>, modifiers: bool) returns (places: seq<nat>)
    ensures |places| == |Half(keys, modifiers)|
    ensures forall k :: 0 <= k < |places| ==> places[k] < |keys| && Half(keys, modifiers)[k] == keys[places[k]]
    ensures forall k, l :: 0 <= k < l < |places| ==> places[k] < places[l]
    ensures forall i: nat :: i in places <==> i < |keys| && (keys[i] in ALL <==> modifiers)
  {
    hide Half, Places, ALL;
    places := Places(keys, modifiers);
    PlacesAreAll(keys, modifiers);
    PlacesIncrease(keys, modifiers);
    HalfIsAtItsPlaces(keys, modifiers);
  }

  lemma {:induction false} DistinctCounts(keys: seq<Vk>)
    ensures NoDuplicates(keys) <==> forall vk :: vk in keys ==> multiset(keys)[vk] == 1
  {
    if keys != [] {
      DistinctCounts(keys[1..]);
      var tail := keys[1..];
      assert keys == [keys[0]] + tail;
      if keys[0] in tail {
        var j :| 0 <= j < |tail| && tail[j] == keys[0];
        assert keys[j + 1] == keys[0];
        assert multiset(keys)[keys[0]] == 1 + multiset(tail)[keys[0]];
      } else {
        assert multiset(tail)[keys[0]] == 0;
        assert NoDuplicates(keys) <==> NoDuplicates(tail) by {
          if NoDuplicates(keys) {
            forall i, j | 0 <= i < j < |tail| ensures tail[i] != tail[j] { assert keys[i + 1] != keys[j + 1]; }
          }
        }
        forall vk | vk in tail ensures multiset(keys)[vk] == multiset(tail)[vk] {}
      }
    }
  }

  lemma SameCountsSameDistinctness(a: seq<Vk>, b: seq<Vk>)
    requires multiset(a) == multiset(b)
    ensures NoDuplicates(a) <==> NoDuplicates(b)
  {
    hide NoDuplicates;
    DistinctCounts(a);
    DistinctCounts(b);
    assert forall vk :: vk in a <==> vk in multiset(b);
  }

  lemma OrderIsTheKeys(keys: seq<Vk>)
    ensures multiset(Order(keys)) == multiset(keys)
    ensures NoDuplicates(Order(keys)) <==> NoDuplicates(keys)
    ensures ComboEvents(keys) == Presses(Order(keys)) + Releases(Reversed(Order(keys)))
  {
    hide Half, NoDuplicates;
    HalvesMakeTheKeys(keys);
    SameCountsSameDistinctness(Order(keys), keys);
    assert Reversed(PayloadOf(keys)) + Reversed(ModifiersOf(keys)) == Reversed(Order(keys));
  }

  // ----- a batch cut short -----

  /** How many keys are down after the first `sent` events. */
  function DownAfter(keys: seq<Vk>, sent: nat): nat {
    var (went, total) := (Sent(keys, sent), |Order(keys)|);
    if went <= total then went else if went <= 2 * total then 2 * total - went else 0
  }

  lemma {:induction false} OwedConcat(done: seq<ComboEvent>, a: seq<ComboEvent>, b: seq<ComboEvent>)
    ensures Owed(done, a + b) == Owed(done, a) + Owed(done, b)
  {
    if a == [] {
      assert a + b == b;
    } else {
      assert (a + b)[1..] == a[1..] + b;
      OwedConcat(done, a[1..], b);
    }
  }

  lemma {:induction false} NothingOwed(done: seq<ComboEvent>, left: seq<ComboEvent>)
    requires forall event :: event in left && event.Release? ==> Press(event.vk) !in done
    ensures Owed(done, left) == []
  {
    if left != [] {
      NothingOwed(done, left[1..]);
    }
  }

  lemma {:induction false} AllOwed(done: seq<ComboEvent>, keys: seq<Vk>)
    requires forall vk :: vk in keys ==> Press(vk) in done
    ensures Owed(done, Releases(keys)) == keys
  {
    if keys != [] {
      assert Releases(keys)[1..] == Releases(keys[1..]);
      AllOwed(done, keys[1..]);
    }
  }

  /** Cut among the key-downs. */
  lemma CutEarly(order: seq<Vk>, went: nat)
    requires NoDuplicates(order) && went <= |order|
    ensures var events := Presses(order) + Releases(Reversed(order));
            && events[..went] == Presses(order[..went])
            && Owed(events[..went], events[went..]) == Reversed(order[..went])
  {
    hide Owed;
    var events := Presses(order) + Releases(Reversed(order));
    var pressed, unpressed := order[..went], order[went..];
    var done := Presses(pressed);
    assert events[..went] == done;
    assert events[went..] == (Presses(unpressed) + Releases(Reversed(unpressed))) + Releases(Reversed(pressed));
    OwedConcat(done, Presses(unpressed) + Releases(Reversed(unpressed)), Releases(Reversed(pressed)));
    NothingOwed(done, Presses(unpressed) + Releases(Reversed(unpressed)));
    forall vk | vk in Reversed(pressed) ensures Press(vk) in done {
      var i :| 0 <= i < |pressed| && Reversed(pressed)[i] == vk;
      assert done[|pressed| - 1 - i] == Press(vk);
    }
    AllOwed(done, Reversed(pressed));
  }

  /** Cut among the key-ups. */
  lemma CutLate(order: seq<Vk>, went: nat)
    requires |order| <= went <= 2 * |order|
    ensures var events := Presses(order) + Releases(Reversed(order));
            var still := order[..2 * |order| - went];
            && events[..went] == Presses(order) + Releases(Reversed(order[2 * |order| - went..]))
            && Owed(events[..went], events[went..]) == Reversed(still)
  {
    var events := Presses(order) + Releases(Reversed(order));
    var still, done := order[..2 * |order| - went], events[..went];
    assert events[went..] == Releases(Reversed(still));
    assert done == Presses(order) + Releases(Reversed(order[2 * |order| - went..]));
    forall vk | vk in Reversed(still) ensures Press(vk) in done {
      var i :| 0 <= i < |still| && Reversed(still)[i] == vk;
      assert done[|still| - 1 - i] == Press(vk);
    }
    AllOwed(done, Reversed(still));
  }

  lemma PlayedEarly(order: seq<Vk>, h: nat)
    requires NoDuplicates(order) && h <= |order|
    ensures Play([], Presses(order[..h])) == Some(order[..h])
  {
    hide Play;
    assert [] + order[..h] == order[..h];
    PlayPresses([], order[..h]);
  }

  lemma PlayedLate(order: seq<Vk>, h: nat)
    requires NoDuplicates(order) && h <= |order|
    ensures Play([], Presses(order) + Releases(Reversed(order[h..]))) == Some(order[..h])
  {
    hide Play;
    var down, up := order[..h], order[h..];
    assert down + up == order;
    assert order[..|order|] == order;
    PlayedEarly(order, |order|);
    PlayOn([], Presses(order), Releases(Reversed(up)));
    PlayReleases(down, up);
  }

  /** After any number of its events, the keys a batch has down are the first
      of its order, and the keys to release are exactly those, last down
      first. */
  lemma UnreleasedIsWhatIsDown(keys: seq<Vk>, sent: nat)
    requires NoDuplicates(keys)
    ensures DownAfter(keys, sent) <= |Order(keys)|
    ensures var down := Order(keys)[..DownAfter(keys, sent)];
            && Play([], ComboEvents(keys)[..Sent(keys, sent)]) == Some(down)
            && UnreleasedKeys(keys, sent) == Reversed(down)
  {
    hide Play, Owed, Order, NoDuplicates, Presses, Releases, Reversed, ComboEvents;
    OrderIsTheKeys(keys);
    var order, went := Order(keys), Sent(keys, sent);
    if went <= |order| {
      CutEarly(order, went);
      PlayedEarly(order, went);
    } else {
      CutLate(order, went);
      PlayedLate(order, 2 * |order| - went);
    }
  }

  /** A batch and what is released after it. */
  function CutShort(keys: seq<Vk>, sent: nat): seq<ComboEvent> {
    ComboEvents(keys)[..Sent(keys, sent)] + Releases(UnreleasedKeys(keys, sent))
  }

  lemma CutShortLeavesNothingDown(keys: seq<Vk>, sent: nat)
    requires NoDuplicates(keys)
    ensures Play([], CutShort(keys, sent)) == Some([])
  {
    UnreleasedIsWhatIsDown(keys, sent);
    var down := Order(keys)[..DownAfter(keys, sent)];
    PlayOn([], ComboEvents(keys)[..Sent(keys, sent)], Releases(Reversed(down)));
    PlayReleases([], down);
    assert [] + down == down;
  }

  /** However early `SendInput` stops, the events that went out and the
      releases after them are properly nested and leave every key up: for
      exactly the key lists that name no key twice. */
  lemma NestedExactlyWithoutDuplicates(keys: seq<Vk>)
    ensures NoDuplicates(keys) <==> forall sent: nat :: Play([], CutShort(keys, sent)) == Some([])
  {
    OrderIsTheKeys(keys);
    if NoDuplicates(keys) {
      forall sent: nat ensures Play([], CutShort(keys, sent)) == Some([]) {
        CutShortLeavesNothingDown(keys, sent);
      }
    } else {
      var all := |ComboEvents(keys)|;
      assert ComboEvents(keys)[..all] == ComboEvents(keys);
      assert CutShort(keys, all) == Presses(Order(keys)) + (Releases(Reversed(Order(keys))) + Releases(UnreleasedKeys(keys, all)));
      PlayPresses([], Order(keys));
      assert [] + Order(keys) == Order(keys);
      PlayOn([], Presses(Order(keys)), Releases(Reversed(Order(keys))) + Releases(UnreleasedKeys(keys, all)));
    }
  }

  lemma {:induction false} HalfMembers(keys: seq<Vk>, modifiers: bool)
    ensures forall vk :: vk in Half(keys, modifiers) <==> vk in keys && (vk in ALL) == modifiers
  {
    if keys != [] {
      HalfMembers(keys[1..], modifiers);
    }
  }

  /** Every payload key goes down, and comes up, while all the modifiers of the
      combo are down. */
  lemma PayloadInsideModifiers(keys: seq<Vk>, n: nat)
    requires NoDuplicates(keys) && n < |ComboEvents(keys)| && ComboEvents(keys)[n].vk !in ALL
    ensures exists down :: Play([], ComboEvents(keys)[..n]) == Some(down)
                        && forall modifier: Vk :: modifier in keys && modifier in ALL ==> modifier in down
  {
    UnreleasedIsWhatIsDown(keys, n);
    OrderIsTheKeys(keys);
    HalfMembers(keys, true);
    var order, modifiers := Order(keys), ModifiersOf(keys);
    var down := order[..DownAfter(keys, n)];
    forall i | 0 <= i < |modifiers| ensures order[i] in ALL {
      assert order[i] == modifiers[i] && modifiers[i] in modifiers;
    }
    assert ComboEvents(keys)[n].vk == if n < |order| then order[n] else order[2 * |order| - 1 - n];
    assert |modifiers| <= |down|;
    forall modifier: Vk | modifier in keys && modifier in ALL ensures modifier in down {
      var i :| 0 <= i < |modifiers| && modifiers[i] == modifier;
      assert down[i] == modifier;
    }
  }
}
