/** What a completed chord says about the key-downs that led to it. */
module ChordRuns {
  import opened Options
  import opened Modifiers
  import opened KeySpecs
  import opened Bindings
  import opened ChordTables
  import opened EngineFacts

  /** What the loader accepts: at least two keys, no two of which overlap. */
  ghost predicate Loadable(chordKeys: seq<KeySpec>) {
    |chordKeys| >= 2 && NoOverlaps(chordKeys)
  }

  ghost predicate NoOverlaps(keys: seq<KeySpec>) {
    forall i, j :: 0 <= i < j < |keys| ==> !keys[i].Overlaps(keys[j])
  }

  lemma NoOverlapsNoDuplicates(keys: seq<KeySpec>)
    requires NoOverlaps(keys)
    ensures KeyCombination(keys).NoDuplicates()
  {
    forall i, j | 0 <= i < j < |keys| ensures keys[i] != keys[j] {
      assert !keys[i].Overlaps(keys[j]);
    }
  }

  /** One key event counts for one key of a loadable chord. */
  lemma OneKeyPerCode(keys: seq<KeySpec>, i: nat, j: nat, vk: Vk)
    requires NoOverlaps(keys) && i < |keys| && j < |keys|
    ensures keys[i].Accepts(vk) && keys[j].Accepts(vk) ==> i == j
  {
    OverlapIsASharedCode(keys[i], keys[j]);
    OverlapIsASharedCode(keys[j], keys[i]);
  }

  ghost predicate IsCovered(key: KeySpec, codes: set<Vk>) {
    exists code :: code in codes && key.Accepts(code)
  }

  /** So pressing all the keys takes at least as many different codes. */
  lemma {:induction false} AsManyCodesAsKeys(keys: seq<KeySpec>, codes: set<Vk>)
    requires NoOverlaps(keys)
    requires forall key :: key in keys ==> IsCovered(key, codes)
    ensures |codes| >= |keys|
  {
    if keys != [] {
      assert IsCovered(keys[0], codes);
      var code :| code in codes && keys[0].Accepts(code);
      var rest := keys[1..];
      forall i | 0 <= i < |rest| ensures IsCovered(rest[i], codes - {code}) {
        assert keys[i + 1] in keys;
        var c :| c in codes && keys[i + 1].Accepts(c);
        OneKeyPerCode(keys, 0, i + 1, code);
        assert c in codes - {code};
      }
      forall i, j | 0 <= i < j < |rest| ensures !rest[i].Overlaps(rest[j]) {
        assert !keys[i + 1].Overlaps(keys[j + 1]);
      }
      AsManyCodesAsKeys(rest, codes - {code});
    }
  }

  /** A single code never completes a loadable chord. */
  lemma OneCodeIsNotEnough(keys: seq<KeySpec>, vk: Vk)
    requires Loadable(keys)
    ensures !IsComplete(keys, [vk])
  {
    assert keys[0] in keys && keys[1] in keys;
    OneKeyPerCode(keys, 0, 1, vk);
  }

  // ----- runs -----

  datatype ChordOp = Fed(feed: ChordFeed) | TimerExpired(id: nat, at: nat)

  /** The table and every key-down fed so far. */
  datatype ChordRun = ChordRun(table: seq<PendingChord>, history: seq<ChordFeed>)

  function Next(r: ChordRun, op: ChordOp): ChordRun {
    match op
    case Fed(f) => ChordRun(FeedChord(r.table, f).0, r.history + [f])
    case TimerExpired(id, _) => r.(table := ExpireChord(r.table, id))
  }

  function RunChords(r: ChordRun, ops: seq<ChordOp>): ChordRun
    decreases |ops|
  {
    if ops == [] then r else RunChords(Next(r, ops[0]), ops[1..])
  }

  ghost predicate LoadableOps(ops: seq<ChordOp>) {
    forall op :: op in ops && op.Fed? ==> Loadable(op.feed.chordKeys)
  }

  /** The key-down `j` was fed to the chord of the keys `keys` within the
      window that the key-down `start` opened. */
  ghost predicate InWindow(history: seq<ChordFeed>, keys: seq<KeySpec>, start: nat, j: nat) {
    && start <= j < |history|
    && KeySet(history[j].chordKeys) == KeySet(keys)
    && (j == start || history[j].now < history[start].now + history[start].window)
  }

  ghost predicate SeenInWindow(history: seq<ChordFeed>, keys: seq<KeySpec>, start: nat, code: Vk) {
    exists j: nat :: InWindow(history, keys, start, j) && history[j].vk == code
  }

  /** A pending chord was started by the key-down `start`; every code it has
      seen was fed within its window; and it is not complete. */
  ghost predicate Grounded(p: PendingChord, history: seq<ChordFeed>, start: nat) {
    && start < |history|
    && Loadable(p.chordKeys)
    && KeySet(history[start].chordKeys) == KeySet(p.chordKeys)
    && p.expiresAt == history[start].now + history[start].window
    && p.action == history[start].action
    && (forall code :: code in p.seen ==> SeenInWindow(history, p.chordKeys, start, code))
    && !IsComplete(p.chordKeys, p.seen)
  }

  ghost predicate IsGrounded(p: PendingChord, history: seq<ChordFeed>) {
    exists start: nat :: Grounded(p, history, start)
  }

  ghost predicate OnePerKeySet(ps: seq<PendingChord>) {
    forall i, j :: 0 <= i < j < |ps| ==> KeySet(ps[i].chordKeys) != KeySet(ps[j].chordKeys)
  }

  ghost predicate RunInv(r: ChordRun) {
    && (forall p :: p in r.table ==> IsGrounded(p, r.history))
    && OnePerKeySet(r.table)
  }

  function CodeSet(codes: seq<Vk>): set<Vk> {
    set code | code in codes
  }

  /** What a completing key-down shows: an earlier key-down opened a window,
      gave the action, and every key of the chord accepts a code fed within
      that window; and these are at least as many codes as keys. */
  ghost predicate CompletionExplained(history: seq<ChordFeed>, f: ChordFeed, action: Action, codes: seq<Vk>, start: nat) {
    && start < |history|
    && KeySet(history[start].chordKeys) == KeySet(f.chordKeys)
    && history[start].action == action
    && (forall key :: key in f.chordKeys ==>
          exists j: nat :: InWindow(history, f.chordKeys, start, j) && key.Accepts(history[j].vk))
    && |CodeSet(codes)| >= |f.chordKeys|
  }

  lemma HistoryGrows(p: PendingChord, history: seq<ChordFeed>, f: ChordFeed)
    requires IsGrounded(p, history)
    ensures IsGrounded(p, history + [f])
  {
    var start: nat :| Grounded(p, history, start);
    forall code | code in p.seen ensures SeenInWindow(history + [f], p.chordKeys, start, code) {
      var j: nat :| InWindow(history, p.chordKeys, start, j) && history[j].vk == code;
      assert InWindow(history + [f], p.chordKeys, start, j);
    }
    assert Grounded(p, history + [f], start);
  }

  lemma SameKeysIsKeySet(a: seq<KeySpec>, b: seq<KeySpec>)
    requires Loadable(a) && Loadable(b)
    ensures SameKeys(a, b) <==> KeySet(a) == KeySet(b)
  {
    NoOverlapsNoDuplicates(a);
    NoOverlapsNoDuplicates(b);
    SameAsIsSetEquality(KeyCombination(a), KeyCombination(b));
  }

  /** A grounded entry that also saw `f`, in time. */
  lemma SeeingGrounds(p: PendingChord, history: seq<ChordFeed>, f: ChordFeed, start: nat)
    requires Grounded(p, history, start)
    requires KeySet(f.chordKeys) == KeySet(p.chordKeys) && f.now < p.expiresAt
    ensures forall code :: code in WithSeen(p, f.vk).seen ==> SeenInWindow(history + [f], p.chordKeys, start, code)
  {
    var grown := history + [f];
    forall code | code in WithSeen(p, f.vk).seen ensures SeenInWindow(grown, p.chordKeys, start, code) {
      if code in p.seen {
        var j: nat :| InWindow(history, p.chordKeys, start, j) && history[j].vk == code;
        assert InWindow(grown, p.chordKeys, start, j) && grown[j].vk == code;
      } else {
        assert InWindow(grown, p.chordKeys, start, |history|) && grown[|history|].vk == code;
      }
    }
  }

  lemma CompletionIsExplained(p: PendingChord, history: seq<ChordFeed>, f: ChordFeed, start: nat)
    requires Grounded(p, history, start) && Loadable(f.chordKeys)
    requires KeySet(f.chordKeys) == KeySet(p.chordKeys) && f.now < p.expiresAt
    requires IsComplete(p.chordKeys, WithSeen(p, f.vk).seen)
    ensures CompletionExplained(history + [f], f, p.action, WithSeen(p, f.vk).seen, start)
  {
    SeeingGrounds(p, history, f, start);
    var grown, seen := history + [f], WithSeen(p, f.vk).seen;
    var codes := CodeSet(seen);
    forall key | key in f.chordKeys
      ensures IsCovered(key, codes)
      ensures exists j: nat :: InWindow(grown, f.chordKeys, start, j) && key.Accepts(grown[j].vk)
    {
      assert key in KeySet(f.chordKeys);
      var code :| code in seen && key.Accepts(code);
      assert code in codes;
      var j: nat :| InWindow(grown, p.chordKeys, start, j) && grown[j].vk == code;
      assert InWindow(grown, f.chordKeys, start, j);
    }
    AsManyCodesAsKeys(f.chordKeys, codes);
  }

  lemma {:induction false} UnexpiredKeepsOrder(ps: seq<PendingChord>, now: nat)
    requires OnePerKeySet(ps)
    ensures OnePerKeySet(Unexpired(ps, now))
  {
    if ps != [] {
      var rest := ps[1..];
      assert forall i :: 0 <= i < |rest| ==> rest[i] == ps[i + 1];
      UnexpiredKeepsOrder(rest, now);
      UnexpiredChords(rest, now);
      if ps[0].expiresAt > now {
        PrependKeySet(ps[0], Unexpired(rest, now));
      }
    }
  }

  lemma PrependKeySet(p: PendingChord, ps: seq<PendingChord>)
    requires OnePerKeySet(ps) && forall q :: q in ps ==> KeySet(p.chordKeys) != KeySet(q.chordKeys)
    ensures OnePerKeySet([p] + ps)
  {}

  lemma {:induction false} ExpiryKeepsOrder(ps: seq<PendingChord>, id: nat)
    requires OnePerKeySet(ps)
    ensures OnePerKeySet(ExpireChord(ps, id))
  {
    if ps != [] {
      var rest := ps[1..];
      assert forall i :: 0 <= i < |rest| ==> rest[i] == ps[i + 1];
      ExpiryKeepsOrder(rest, id);
      ExpiredChords(rest, id);
      if ps[0].id != id {
        PrependKeySet(ps[0], ExpireChord(rest, id));
      }
    }
  }

  ghost predicate OutcomeExplained(history: seq<ChordFeed>, f: ChordFeed, outcome: ChordOutcome) {
    outcome.Completed? ==> exists start: nat :: CompletionExplained(history, f, outcome.action, outcome.keys, start)
  }

  lemma FeedKeepsInv(r: ChordRun, f: ChordFeed)
    requires RunInv(r) && Loadable(f.chordKeys)
    ensures RunInv(Next(r, Fed(f)))
    ensures OutcomeExplained(r.history + [f], f, FeedChord(r.table, f).1)
  {
    hide Unexpired, IsGrounded, Loadable, IsComplete;
    var grown := r.history + [f];
    forall p | p in r.table ensures IsGrounded(p, grown) {
      HistoryGrows(p, r.history, f);
    }
    if IsChordKey(f.chordKeys, f.vk) {
      var ps := Unexpired(r.table, f.now);
      UnexpiredChords(r.table, f.now);
      UnexpiredKeepsOrder(r.table, f.now);
      var i := PlaceOf(ps, f.chordKeys);
      if i < |ps| {
        EntryKeepsInv(ps, r.history, f, i);
      } else {
        forall p | p in ps ensures !SameKeys(p.chordKeys, f.chordKeys) {
          var j :| 0 <= j < |ps| && ps[j] == p;
        }
        StartKeepsInv(ps, r.history, f);
      }
    }
  }

  lemma EntryKeepsInv(ps: seq<PendingChord>, history: seq<ChordFeed>, f: ChordFeed, i: nat)
    requires Loadable(f.chordKeys) && i < |ps| && SameKeys(ps[i].chordKeys, f.chordKeys)
    requires forall p :: p in ps ==> IsGrounded(p, history) && IsGrounded(p, history + [f]) && p.expiresAt > f.now
    requires OnePerKeySet(ps)
    ensures var entry := WithSeen(ps[i], f.vk);
            if IsComplete(entry.chordKeys, entry.seen)
            then && RunInv(ChordRun(ps[..i] + ps[i + 1..], history + [f]))
                 && OutcomeExplained(history + [f], f, Completed(entry.action, entry.seen))
            else RunInv(ChordRun(ps[i := entry], history + [f]))
  {
    var p, entry := ps[i], WithSeen(ps[i], f.vk);
    var start: nat :| Grounded(p, history, start);
    SameKeysIsKeySet(p.chordKeys, f.chordKeys);
    if IsComplete(entry.chordKeys, entry.seen) {
      CompletionIsExplained(p, history, f, start);
      assert CompletionExplained(history + [f], f, entry.action, entry.seen, start);
    } else {
      SeeingGrounds(p, history, f, start);
      assert Grounded(entry, history + [f], start);
    }
  }

  lemma StartKeepsInv(ps: seq<PendingChord>, history: seq<ChordFeed>, f: ChordFeed)
    requires Loadable(f.chordKeys)
    requires forall p :: p in ps ==> IsGrounded(p, history + [f]) && !SameKeys(p.chordKeys, f.chordKeys)
    requires OnePerKeySet(ps)
    ensures RunInv(ChordRun(ps + [PendingChord(f.chordKeys, [f.vk], f.action, f.now + f.window, f.id)], history + [f]))
  {
    var grown, p := history + [f], PendingChord(f.chordKeys, [f.vk], f.action, f.now + f.window, f.id);
    OneCodeIsNotEnough(f.chordKeys, f.vk);
    assert InWindow(grown, f.chordKeys, |history|, |history|) && grown[|history|].vk == f.vk;
    assert Grounded(p, grown, |history|);
    forall q | q in ps ensures KeySet(q.chordKeys) != KeySet(f.chordKeys) {
      var start: nat :| Grounded(q, grown, start);
      SameKeysIsKeySet(q.chordKeys, f.chordKeys);
    }
  }

  lemma {:induction false} RunKeepsInv(r: ChordRun, ops: seq<ChordOp>)
    requires RunInv(r) && LoadableOps(ops)
    ensures RunInv(RunChords(r, ops))
    decreases |ops|
  {
    if ops != [] {
      match ops[0] {
        case Fed(f) => FeedKeepsInv(r, f);
        case TimerExpired(id, _) =>
          ExpiredChords(r.table, id);
          ExpiryKeepsOrder(r.table, id);
      }
      RunKeepsInv(Next(r, ops[0]), ops[1..]);
    }
  }

  /** In every run of loadable chords, with expiry timers at any time: no
      pending chord is complete and none shares its keys with another; and a
      completed chord was opened by a key-down within whose window every one
      of its keys accepts a code, with at least as many codes as keys. */
  lemma ChordCompletion(ops: seq<ChordOp>, f: ChordFeed)
    requires LoadableOps(ops) && Loadable(f.chordKeys)
    ensures var r := RunChords(ChordRun([], []), ops);
            && (forall p :: p in r.table ==> !IsComplete(p.chordKeys, p.seen))
            && OnePerKeySet(r.table)
            && OutcomeExplained(r.history + [f], f, FeedChord(r.table, f).1)
  {
    RunKeepsInv(ChordRun([], []), ops);
    var r := RunChords(ChordRun([], []), ops);
    FeedKeepsInv(r, f);
    forall p | p in r.table ensures !IsComplete(p.chordKeys, p.seen) {
      var start: nat :| Grounded(p, r.history, start);
    }
  }
}
