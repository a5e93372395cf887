/** The shared table of pending chords behaves as one machine for each set of keys. */
module ChordMachines {
  import opened Options
  import opened Modifiers
  import opened KeySpecs
  import opened Bindings
  import opened ChordTables
  import opened ChordRuns
  import EngineFacts

  /** The codes gathered so far, until `due`. */
  datatype Gathering = Idle | Gathered(codes: seq<Vk>, due: nat, action: Action)

  function Add(codes: seq<Vk>, vk: Vk): seq<Vk> {
    if vk in codes then codes else codes + [vk]
  }

  /** One key-down: none of the chord's keys changes nothing; within the window
      it gathers one more code, and completes the chord if every key has one;
      else it opens a window. */
  function React(g: Gathering, f: ChordFeed): (Gathering, ChordOutcome) {
    if !IsChordKey(f.chordKeys, f.vk) then (g, NotInChord)
    else if g.Gathered? && f.now < g.due then
      var codes := Add(g.codes, f.vk);
      if IsComplete(f.chordKeys, codes) then (Idle, Completed(g.action, codes)) else (g.(codes := codes), Pending)
    else (Gathered([f.vk], f.now + f.window, f.action), Started(f.now + f.window))
  }

  ghost predicate Alike(a: seq<KeySpec>, b: seq<KeySpec>) {
    KeySet(a) == KeySet(b)
  }

  /** The key-downs fed to the chord of these keys, in order. */
  ghost function FedTo(history: seq<ChordFeed>, keys: seq<KeySpec>): seq<ChordFeed> {
    if history == [] then [] else
    var n := |history| - 1;
    FedTo(history[..n], keys) + if Alike(history[n].chordKeys, keys) then [history[n]] else []
  }

  function GatheredBy(fed: seq<ChordFeed>): Gathering {
    if fed == [] then Idle else React(GatheredBy(fed[..|fed| - 1]), fed[|fed| - 1]).0
  }

  ghost function GatheredOn(history: seq<ChordFeed>, keys: seq<KeySpec>): Gathering {
    GatheredBy(FedTo(history, keys))
  }

  lemma {:induction false} FedToAlike(history: seq<ChordFeed>, a: seq<KeySpec>, b: seq<KeySpec>)
    requires Alike(a, b)
    ensures FedTo(history, a) == FedTo(history, b)
  {
    if history != [] {
      FedToAlike(history[..|history| - 1], a, b);
    }
  }

  lemma GatheringGrows(history: seq<ChordFeed>, f: ChordFeed, keys: seq<KeySpec>)
    ensures GatheredOn(history + [f], keys)
         == if Alike(f.chordKeys, keys) then React(GatheredOn(history, keys), f).0 else GatheredOn(history, keys)
  {
    hide React, Alike;
    var fed := FedTo(history, keys);
    assert (history + [f])[..|history|] == history;
    assert (fed + [f])[..|fed|] == fed;
    assert fed + [] == fed;
  }

  /** Time does not run backwards, and an expiry timer comes at its entry's
      deadline or later. */
  ghost predicate InTime(r: ChordRun, ops: seq<ChordOp>, now: nat)
    decreases |ops|
  {
    ops == [] ||
    (match ops[0]
     case Fed(f) => now <= f.now && InTime(Next(r, ops[0]), ops[1..], f.now)
     case TimerExpired(id, at) =>
       && now <= at && (forall p :: p in r.table && p.id == id ==> p.expiresAt <= at)
       && InTime(Next(r, ops[0]), ops[1..], at))
  }

  // ----- the table mirrors the machines -----

  ghost predicate IsEntry(ps: seq<PendingChord>, keys: seq<KeySpec>, now: nat, p: PendingChord) {
    p in ps && p.expiresAt > now && Alike(p.chordKeys, keys)
  }

  ghost predicate Shows(p: PendingChord, g: Gathering) {
    g == Gathered(p.seen, p.expiresAt, p.action)
  }

  ghost predicate HasEntry(ps: seq<PendingChord>, keys: seq<KeySpec>, now: nat) {
    exists p :: IsEntry(ps, keys, now, p)
  }

  /** For one chord: an entry shows what its machine gathered, and a machine
      that is gathering has an entry. */
  ghost predicate Mirrors(ps: seq<PendingChord>, keys: seq<KeySpec>, g: Gathering, now: nat) {
    && (forall p :: IsEntry(ps, keys, now, p) ==> Shows(p, g))
    && (g.Gathered? && g.due > now ==> HasEntry(ps, keys, now))
  }

  ghost predicate MirrorsAll(r: ChordRun, now: nat) {
    && RunInv(r)
    && forall keys :: Loadable(keys) ==> Mirrors(r.table, keys, GatheredOn(r.history, keys), now)
  }

  /** Entries dropped once they are out of time leave the mirror as it is. */
  lemma FewerMirror(ps: seq<PendingChord>, fewer: seq<PendingChord>, keys: seq<KeySpec>, g: Gathering, now: nat, later: nat)
    requires Mirrors(ps, keys, g, now) && now <= later
    requires forall p :: p in fewer ==> p in ps
    requires forall p :: p in ps && p.expiresAt > later ==> p in fewer
    ensures Mirrors(fewer, keys, g, later)
  {
    forall p | IsEntry(fewer, keys, later, p) ensures Shows(p, g) {
      assert IsEntry(ps, keys, now, p);
    }
    if g.Gathered? && g.due > later {
      var p :| IsEntry(ps, keys, now, p);
      assert IsEntry(fewer, keys, later, p);
    }
  }

  lemma {:induction false} ExpireMembers(ps: seq<PendingChord>, id: nat)
    ensures forall p :: p in ExpireChord(ps, id) <==> p in ps && p.id != id
  {
    if ps != [] {
      ExpireMembers(ps[1..], id);
    }
  }

  lemma {:induction false} UnexpiredMembers(ps: seq<PendingChord>, now: nat)
    ensures forall p :: p in Unexpired(ps, now) <==> p in ps && p.expiresAt > now
  {
    if ps != [] {
      UnexpiredMembers(ps[1..], now);
    }
  }

  // ----- one key-down -----

  /** What a key-down leaves: the entries of other chords, and for its own
      what the machine shows. */
  ghost predicate TableAfter(ps: seq<PendingChord>, f: ChordFeed, table: seq<PendingChord>, g: Gathering) {
    && (forall p :: p in ps && !Alike(f.chordKeys, p.chordKeys) ==> p in table)
    && (forall p :: p in table ==>
          (p in ps && !Alike(f.chordKeys, p.chordKeys)) || (Alike(p.chordKeys, f.chordKeys) && Shows(p, g)))
    && (g.Gathered? ==> exists p :: p in table && Alike(p.chordKeys, f.chordKeys))
  }

  lemma SameKeysAsk(a: seq<KeySpec>, b: seq<KeySpec>, codes: seq<Vk>)
    requires Alike(a, b)
    ensures IsComplete(a, codes) == IsComplete(b, codes)
  {
    assert forall key :: key in a <==> key in KeySet(a);
    assert forall key :: key in b <==> key in KeySet(b);
  }

  lemma GatherReacts(ps: seq<PendingChord>, f: ChordFeed, i: nat, g: Gathering)
    requires IsChordKey(f.chordKeys, f.vk) && i < |ps| && Alike(ps[i].chordKeys, f.chordKeys)
    requires Shows(ps[i], g) && f.now < g.due
    requires forall j :: 0 <= j < |ps| && j != i ==> !Alike(f.chordKeys, ps[j].chordKeys)
    ensures var entry := WithSeen(ps[i], f.vk);
            if IsComplete(entry.chordKeys, entry.seen)
            then React(g, f).1 == Completed(entry.action, entry.seen)
                 && TableAfter(ps, f, ps[..i] + ps[i + 1..], React(g, f).0)
            else React(g, f).1 == Pending && TableAfter(ps, f, ps[i := entry], React(g, f).0)
  {
    hide Alike, IsChordKey, IsComplete;
    var entry := WithSeen(ps[i], f.vk);
    SameKeysAsk(ps[i].chordKeys, f.chordKeys, entry.seen);
    AlikeBothWays(f.chordKeys, ps[i].chordKeys);
    assert ps[i := entry][i] == entry;
    var without := ps[..i] + ps[i + 1..];
    forall p | p in ps && !Alike(f.chordKeys, p.chordKeys) ensures p in without && p in ps[i := entry] {
      var j :| 0 <= j < |ps| && ps[j] == p;
      assert j != i;
      assert ps[i := entry][j] == p;
      assert p == if j < i then without[j] else without[j - 1];
    }
  }

  lemma AlikeBothWays(a: seq<KeySpec>, b: seq<KeySpec>)
    ensures Alike(a, b) == Alike(b, a)
  {}

  lemma StartReacts(ps: seq<PendingChord>, f: ChordFeed, g: Gathering)
    requires IsChordKey(f.chordKeys, f.vk) && !(g.Gathered? && f.now < g.due)
    requires forall p :: p in ps ==> !Alike(f.chordKeys, p.chordKeys)
    ensures React(g, f).1 == Started(f.now + f.window)
    ensures TableAfter(ps, f, ps + [PendingChord(f.chordKeys, [f.vk], f.action, f.now + f.window, f.id)], React(g, f).0)
  {
    hide IsChordKey;
    var entry := PendingChord(f.chordKeys, [f.vk], f.action, f.now + f.window, f.id);
    assert entry in ps + [entry];
  }

  lemma FeedReacts(r: ChordRun, f: ChordFeed, g: Gathering)
    requires RunInv(r) && Loadable(f.chordKeys) && IsChordKey(f.chordKeys, f.vk)
    requires Mirrors(r.table, f.chordKeys, g, f.now)
    ensures var (table, outcome) := FeedChord(r.table, f);
            outcome == React(g, f).1 && TableAfter(Unexpired(r.table, f.now), f, table, React(g, f).0)
  {
    hide Unexpired, React, TableAfter, Grounded, Loadable, IsComplete, IsChordKey, Alike, SameKeys;
    var ps := Unexpired(r.table, f.now);
    UnexpiredMembers(r.table, f.now);
    UnexpiredKeepsOrder(r.table, f.now);
    forall p | p in ps ensures SameKeys(p.chordKeys, f.chordKeys) <==> Alike(p.chordKeys, f.chordKeys) {
      EntryIsLoadable(r, p);
      EntryAlike(p.chordKeys, f.chordKeys);
    }
    var i := PlaceOf(ps, f.chordKeys);
    if i < |ps| {
      assert ps[i] in ps;
      assert IsEntry(r.table, f.chordKeys, f.now, ps[i]);
      forall j | 0 <= j < |ps| && j != i ensures !Alike(f.chordKeys, ps[j].chordKeys) {
        OthersDiffer(ps, i, j, f.chordKeys);
      }
      GatherReacts(ps, f, i, g);
    } else {
      forall p | p in ps ensures !Alike(f.chordKeys, p.chordKeys) {
        AlikeBothWays(f.chordKeys, p.chordKeys);
        var j :| 0 <= j < |ps| && ps[j] == p;
      }
      forall p ensures !IsEntry(r.table, f.chordKeys, f.now, p) {
        AlikeBothWays(f.chordKeys, p.chordKeys);
      }
      StartReacts(ps, f, g);
    }
  }

  lemma EntryIsLoadable(r: ChordRun, p: PendingChord)
    requires RunInv(r) && p in r.table
    ensures Loadable(p.chordKeys)
  {
    var start: nat :| Grounded(p, r.history, start);
  }

  lemma EntryAlike(a: seq<KeySpec>, b: seq<KeySpec>)
    requires Loadable(a) && Loadable(b)
    ensures SameKeys(a, b) <==> Alike(a, b)
  {
    hide Loadable, SameKeys;
    SameKeysIsKeySet(a, b);
  }

  lemma OthersDiffer(ps: seq<PendingChord>, i: nat, j: nat, keys: seq<KeySpec>)
    requires OnePerKeySet(ps) && i < |ps| && j < |ps| && i != j && Alike(ps[i].chordKeys, keys)
    ensures !Alike(keys, ps[j].chordKeys)
  {}

  /** The machine of the key-down's own chord goes on; the others stay. */
  lemma KeyDownMirrors(r: ChordRun, f: ChordFeed, keys: seq<KeySpec>, table: seq<PendingChord>, own: Gathering, g: Gathering)
    requires TableAfter(Unexpired(r.table, f.now), f, table, own)
    requires if Alike(f.chordKeys, keys) then g == own else Mirrors(r.table, keys, g, f.now)
    ensures Mirrors(table, keys, g, f.now)
  {
    hide Unexpired;
    UnexpiredMembers(r.table, f.now);
    forall p | IsEntry(table, keys, f.now, p) ensures Shows(p, g) {
      assert !Alike(f.chordKeys, keys) ==> IsEntry(r.table, keys, f.now, p);
    }
    if g.Gathered? && g.due > f.now {
      if Alike(f.chordKeys, keys) {
        var p :| p in table && Alike(p.chordKeys, f.chordKeys);
        assert IsEntry(table, keys, f.now, p);
      } else {
        var p :| IsEntry(r.table, keys, f.now, p);
        assert IsEntry(table, keys, f.now, p);
      }
    }
  }

  lemma FeedMirrors(r: ChordRun, f: ChordFeed)
    requires MirrorsAll(r, f.now) && Loadable(f.chordKeys)
    ensures MirrorsAll(Next(r, Fed(f)), f.now)
    ensures FeedChord(r.table, f).1 == React(GatheredOn(r.history, f.chordKeys), f).1
  {
    hide Alike, Loadable, TableAfter, Mirrors, RunInv, Unexpired, GatheredBy, FedTo, IsChordKey, IsComplete;
    var own := GatheredOn(r.history, f.chordKeys);
    FeedKeepsInv(r, f);
    if IsChordKey(f.chordKeys, f.vk) {
      FeedReacts(r, f, own);
    }
    hide FeedChord;
    var table := FeedChord(r.table, f).0;
    forall keys | Loadable(keys) ensures Mirrors(table, keys, GatheredOn(r.history + [f], keys), f.now) {
      GatheringGrows(r.history, f, keys);
      if Alike(f.chordKeys, keys) {
        FedToAlike(r.history, f.chordKeys, keys);
      }
      if IsChordKey(f.chordKeys, f.vk) {
        hide React;
        KeyDownMirrors(r, f, keys, table, React(own, f).0, GatheredOn(r.history + [f], keys));
      } else {
        NotInChordChangesNothing(r.table, f, own);
      }
    }
  }

  lemma NotInChordChangesNothing(ps: seq<PendingChord>, f: ChordFeed, g: Gathering)
    requires !IsChordKey(f.chordKeys, f.vk)
    ensures FeedChord(ps, f) == (ps, NotInChord) && React(g, f) == (g, NotInChord)
  {}

  lemma LaterMirrorsAll(r: ChordRun, now: nat, later: nat)
    requires MirrorsAll(r, now) && now <= later
    ensures MirrorsAll(r, later)
  {
    hide Mirrors, Loadable, GatheredBy, FedTo, RunInv;
    forall keys | Loadable(keys) ensures Mirrors(r.table, keys, GatheredOn(r.history, keys), later) {
      FewerMirror(r.table, r.table, keys, GatheredOn(r.history, keys), now, later);
    }
  }

  lemma TimerMirrors(r: ChordRun, id: nat, at: nat)
    requires MirrorsAll(r, at)
    requires forall p :: p in r.table && p.id == id ==> p.expiresAt <= at
    ensures MirrorsAll(Next(r, TimerExpired(id, at)), at)
  {
    hide Mirrors, Loadable, ExpireChord, GatheredBy, FedTo, IsGrounded;
    EngineFacts.ExpiredChords(r.table, id);
    ExpiryKeepsOrder(r.table, id);
    ExpireMembers(r.table, id);
    forall keys | Loadable(keys) ensures Mirrors(ExpireChord(r.table, id), keys, GatheredOn(r.history, keys), at) {
      FewerMirror(r.table, ExpireChord(r.table, id), keys, GatheredOn(r.history, keys), at, at);
    }
  }

  /** The time of the last thing that happened. */
  function EndOf(ops: seq<ChordOp>, now: nat): nat {
    if ops == [] then now
    else EndOf(ops[1..], match ops[0] case Fed(f) => f.now case TimerExpired(_, at) => at)
  }

  lemma {:induction false} RunMirrors(r: ChordRun, ops: seq<ChordOp>, now: nat)
    requires MirrorsAll(r, now) && LoadableOps(ops) && InTime(r, ops, now)
    ensures MirrorsAll(RunChords(r, ops), EndOf(ops, now))
    decreases |ops|
  {
    hide MirrorsAll, Loadable;
    if ops != [] {
      match ops[0] {
        case Fed(f) =>
          LaterMirrorsAll(r, now, f.now);
          FeedMirrors(r, f);
          RunMirrors(Next(r, ops[0]), ops[1..], f.now);
        case TimerExpired(id, at) =>
          LaterMirrorsAll(r, now, at);
          TimerMirrors(r, id, at);
          RunMirrors(Next(r, ops[0]), ops[1..], at);
      }
    }
  }

  /** In every run in time order, whatever chords share the table and whether or
      not the expiry timers come: each key-down's outcome is exactly that of
      its own chord's machine on the key-downs fed to that chord. */
  lemma EachChordIsItsMachine(ops: seq<ChordOp>, f: ChordFeed)
    requires LoadableOps(ops) && InTime(ChordRun([], []), ops, 0)
    requires Loadable(f.chordKeys) && EndOf(ops, 0) <= f.now
    ensures var r := RunChords(ChordRun([], []), ops);
            FeedChord(r.table, f).1 == React(GatheredBy(FedTo(r.history, f.chordKeys)), f).1
  {
    hide FeedChord, React;
    var start := ChordRun([], []);
    assert MirrorsAll(start, 0);
    RunMirrors(start, ops, 0);
    var r := RunChords(start, ops);
    LaterMirrorsAll(r, EndOf(ops, 0), f.now);
    FeedMirrors(r, f);
  }
}
