/** Exactly when a chord opens a window, gathers and completes, told by the key-downs fed to it alone. */
module ChordCompletes {
  import opened Options
  import opened Modifiers
  import opened KeySpecs
  import opened Bindings
  import opened ChordTables
  import opened ChordRuns
  import opened ChordMachines

  /** The key-down is of a key of the chord. */
  ghost predicate IsAccepted(keys: seq<KeySpec>, vk: Vk) {
    exists key :: key in keys && key.Accepts(vk)
  }

  /** From the key-down `start` on, each key of the chord had one of its codes. */
  ghost predicate EachPressed(fed: seq<ChordFeed>, keys: seq<KeySpec>, start: nat) {
    forall key :: key in keys ==> exists j: nat :: start <= j < |fed| && key.Accepts(fed[j].vk)
  }

  ghost predicate IsOpenAt(fed: seq<ChordFeed>, place: Option<nat>, now: nat) {
    place.Some? && place.value < |fed| && now < fed[place.value].now + fed[place.value].window
  }

  /** The key-down that place the chord's latest window, unless the chord has
      completed since: a key-down of its keys opens one when none is open. */
  ghost function OpenedBy(fed: seq<ChordFeed>, keys: seq<KeySpec>): (place: Option<nat>)
    ensures place.Some? ==> place.value < |fed|
  {
    if fed == [] then None
    else
      var n := |fed| - 1;
      var before := OpenedBy(fed[..n], keys);
      if !IsAccepted(keys, fed[n].vk) then before
      else if !IsOpenAt(fed, before, fed[n].now) then Some(n)
      else if EachPressed(fed, keys, before.value) then None
      else before
  }

  /** The codes are those of the chord's keys pressed since `start`, each once. */
  ghost predicate AreThePressed(codes: seq<Vk>, fed: seq<ChordFeed>, keys: seq<KeySpec>, start: nat) {
    && (forall i, j :: 0 <= i < j < |codes| ==> codes[i] != codes[j])
    && forall code: Vk :: code in codes <==> IsAccepted(keys, code) && exists j: nat :: start <= j < |fed| && fed[j].vk == code
  }

  /** What the machine has gathered, told by the key-downs. */
  ghost predicate IsWindow(g: Gathering, fed: seq<ChordFeed>, keys: seq<KeySpec>, place: Option<nat>) {
    match place
    case None => g == Idle
    case Some(start) =>
      && start < |fed| && g.Gathered?
      && g.due == fed[start].now + fed[start].window && g.action == fed[start].action
      && AreThePressed(g.codes, fed, keys, start)
  }

  lemma AddPressed(codes: seq<Vk>, fed: seq<ChordFeed>, f: ChordFeed, keys: seq<KeySpec>, start: nat)
    requires AreThePressed(codes, fed, keys, start) && start <= |fed| && IsAccepted(keys, f.vk)
    ensures AreThePressed(Add(codes, f.vk), fed + [f], keys, start)
  {
    hide IsAccepted;
    var longer := fed + [f];
    forall code: Vk
      ensures code in Add(codes, f.vk) <==> IsAccepted(keys, code) && exists j: nat :: start <= j < |longer| && longer[j].vk == code
    {
      if j: nat :| start <= j < |fed| && fed[j].vk == code {
        assert longer[j].vk == code;
      }
      if j: nat :| start <= j < |longer| && longer[j].vk == code {
        assert j < |fed| ==> fed[j].vk == code;
      }
      assert longer[|fed|].vk == f.vk;
    }
  }

  /** A key-down of none of the chord's keys is not among them. */
  lemma OtherPressed(codes: seq<Vk>, fed: seq<ChordFeed>, f: ChordFeed, keys: seq<KeySpec>, start: nat)
    requires AreThePressed(codes, fed, keys, start) && start <= |fed| && !IsAccepted(keys, f.vk)
    ensures AreThePressed(codes, fed + [f], keys, start)
  {
    hide IsAccepted;
    var longer := fed + [f];
    forall code: Vk
      ensures code in codes <==> IsAccepted(keys, code) && exists j: nat :: start <= j < |longer| && longer[j].vk == code
    {
      if j: nat :| start <= j < |fed| && fed[j].vk == code {
        assert longer[j].vk == code;
      }
      if j: nat :| start <= j < |longer| && longer[j].vk == code && IsAccepted(keys, code) {
        assert j < |fed| && fed[j].vk == code;
      }
    }
  }

  /** The gathered codes complete the chord iff each key had one pressed. */
  lemma CompleteIsEachPressed(codes: seq<Vk>, fed: seq<ChordFeed>, own: seq<KeySpec>, keys: seq<KeySpec>, start: nat)
    requires Alike(own, keys) && AreThePressed(codes, fed, keys, start)
    ensures IsComplete(own, codes) <==> EachPressed(fed, keys, start)
  {
    SameKeysAsk(own, keys, codes);
    forall key | key in keys
      ensures (exists code :: code in codes && key.Accepts(code)) <==> exists j: nat :: start <= j < |fed| && key.Accepts(fed[j].vk)
    {
      if code :| code in codes && key.Accepts(code) {
        var j: nat :| start <= j < |fed| && fed[j].vk == code;
      }
      if j: nat :| start <= j < |fed| && key.Accepts(fed[j].vk) {
        assert fed[j].vk in codes;
      }
    }
  }

  lemma AcceptedAlike(own: seq<KeySpec>, keys: seq<KeySpec>, vk: Vk)
    requires Alike(own, keys)
    ensures IsChordKey(own, vk) == IsAccepted(keys, vk)
  {
    assert forall key :: key in own <==> key in KeySet(own);
    assert forall key :: key in keys <==> key in KeySet(keys);
  }

  /** What one more key-down comes to, told by those before it and by itself. */
  ghost predicate OutcomeMeans(outcome: ChordOutcome, fed: seq<ChordFeed>, f: ChordFeed, keys: seq<KeySpec>) {
    var place, all := OpenedBy(fed, keys), fed + [f];
    if !IsAccepted(keys, f.vk) then outcome == NotInChord
    else if !IsOpenAt(fed, place, f.now) then outcome == Started(f.now + f.window)
    else if EachPressed(all, keys, place.value)
    then outcome.Completed? && outcome.action == fed[place.value].action && AreThePressed(outcome.keys, all, keys, place.value)
    else outcome == Pending
  }

  lemma ReactMeans(g: Gathering, fed: seq<ChordFeed>, f: ChordFeed, keys: seq<KeySpec>)
    requires Alike(f.chordKeys, keys) && IsWindow(g, fed, keys, OpenedBy(fed, keys))
    ensures OutcomeMeans(React(g, f).1, fed, f, keys)
    ensures IsWindow(React(g, f).0, fed + [f], keys, OpenedBy(fed + [f], keys))
  {
    hide AreThePressed, EachPressed, IsComplete, IsAccepted, IsChordKey, Alike, OpenedBy;
    var all, place := fed + [f], OpenedBy(fed, keys);
    OneMoreOpens(fed, f, keys);
    AcceptedAlike(f.chordKeys, keys, f.vk);
    if place.Some? {
      var start := place.value;
      assert all[start] == fed[start];
      if !IsAccepted(keys, f.vk) {
        OtherPressed(g.codes, fed, f, keys, start);
      } else {
        AddPressed(g.codes, fed, f, keys, start);
        CompleteIsEachPressed(Add(g.codes, f.vk), all, f.chordKeys, keys, start);
      }
    }
    if IsAccepted(keys, f.vk) {
      OnePressed(fed, f, keys);
    }
  }

  lemma OnePressed(fed: seq<ChordFeed>, f: ChordFeed, keys: seq<KeySpec>)
    requires IsAccepted(keys, f.vk)
    ensures AreThePressed([f.vk], fed + [f], keys, |fed|)
  {
    hide IsAccepted;
    assert (fed + [f])[|fed|].vk == f.vk;
  }

  lemma OneMoreOpens(fed: seq<ChordFeed>, f: ChordFeed, keys: seq<KeySpec>)
    ensures var place, all := OpenedBy(fed, keys), fed + [f];
            OpenedBy(all, keys) == if !IsAccepted(keys, f.vk) then place
                                   else if !IsOpenAt(fed, place, f.now) then Some(|fed|)
                                   else if EachPressed(all, keys, place.value) then None
                                   else place
  {
    hide IsAccepted, EachPressed;
    assert (fed + [f])[..|fed|] == fed;
    if OpenedBy(fed, keys).Some? {
      assert (fed + [f])[OpenedBy(fed, keys).value] == fed[OpenedBy(fed, keys).value];
    }
  }

  lemma {:induction false} GatheredIsTheWindow(fed: seq<ChordFeed>, keys: seq<KeySpec>)
    requires forall f :: f in fed ==> Alike(f.chordKeys, keys)
    ensures IsWindow(GatheredBy(fed), fed, keys, OpenedBy(fed, keys))
  {
    hide React, IsAccepted, Alike, IsWindow;
    if fed == [] {
      NothingOpened(keys);
    } else {
      var n := |fed| - 1;
      assert fed[n] in fed;
      GatheredIsTheWindow(fed[..n], keys);
      assert fed[..n] + [fed[n]] == fed;
      ReactMeans(GatheredBy(fed[..n]), fed[..n], fed[n], keys);
    }
  }

  lemma NothingOpened(keys: seq<KeySpec>)
    ensures IsWindow(GatheredBy([]), [], keys, OpenedBy([], keys))
  {}

  lemma {:induction false} FedToIsAlike(history: seq<ChordFeed>, keys: seq<KeySpec>)
    ensures forall f :: f in FedTo(history, keys) ==> f in history && Alike(f.chordKeys, keys)
  {
    if history != [] {
      FedToIsAlike(history[..|history| - 1], keys);
    }
  }

  lemma IdleLeavesNoEntry(table: seq<PendingChord>, f: ChordFeed, ps: seq<PendingChord>)
    requires TableAfter(ps, f, table, Idle)
    ensures forall p :: p in table ==> KeySet(p.chordKeys) != KeySet(f.chordKeys)
  {}

  lemma CompletedIsIdle(g: Gathering, f: ChordFeed)
    ensures React(g, f).1.Completed? ==> React(g, f).0 == Idle && IsChordKey(f.chordKeys, f.vk)
  {}

  /** In every run in time order, whatever chords share the table and whether or
      not the expiry timers come. A key-down of no key of the chord is not in
      it. Outside a window it opens one. Within one it completes the chord iff
      now every key has had one of its codes pressed since the window opened:
      with the action of the key-down that place it, the codes pressed, and no
      entry of these keys left. Else the chord waits on. */
  lemma ChordCompletesExactly(ops: seq<ChordOp>, f: ChordFeed)
    requires LoadableOps(ops) && InTime(ChordRun([], []), ops, 0)
    requires Loadable(f.chordKeys) && EndOf(ops, 0) <= f.now
    ensures var r := RunChords(ChordRun([], []), ops);
            var (table, outcome) := FeedChord(r.table, f);
            && OutcomeMeans(outcome, FedTo(r.history, f.chordKeys), f, f.chordKeys)
            && (outcome.Completed? ==> forall p :: p in table ==> KeySet(p.chordKeys) != KeySet(f.chordKeys))
  {
    hide FeedChord, React, TableAfter, Loadable, IsWindow, OutcomeMeans, RunInv, Mirrors, GatheredBy, FedTo, InTime;
    var start, keys := ChordRun([], []), f.chordKeys;
    StartMirrors();
    RunMirrors(start, ops, 0);
    var r := RunChords(start, ops);
    LaterMirrorsAll(r, EndOf(ops, 0), f.now);
    FeedMirrors(r, f);
    var fed := FedTo(r.history, keys);
    FedToIsAlike(r.history, keys);
    GatheredIsTheWindow(fed, keys);
    ReactMeans(GatheredBy(fed), fed, f, keys);
    CompletedIsIdle(GatheredBy(fed), f);
    if FeedChord(r.table, f).1.Completed? {
      FeedReacts(r, f, GatheredBy(fed));
      IdleLeavesNoEntry(FeedChord(r.table, f).0, f, Unexpired(r.table, f.now));
    }
  }

  lemma StartMirrors()
    ensures MirrorsAll(ChordRun([], []), 0)
  {}
}
