/** Pending chords: "press these keys within a window of the first". */
module ChordTables {
  import opened Options
  import opened Modifiers
  import opened KeySpecs
  import opened Bindings
  import opened Seqs

  datatype PendingChord = PendingChord(
    chordKeys: seq<KeySpec>,
    seen: seq<Vk>,
    action: Action,
    expiresAt: nat,
    id: nat)

  datatype ChordOutcome =
    | NotInChord
    | Pending
    | Started(due: nat)
    | Completed(action: Action, keys: seq<Vk>)

  predicate SameKeys(a: seq<KeySpec>, b: seq<KeySpec>) {
    KeyCombination(a).SameAs(KeyCombination(b))
  }

  predicate IsChordKey(chordKeys: seq<KeySpec>, vk: Vk) {
    exists key :: key in chordKeys && key.Accepts(vk)
  }

  predicate IsComplete(chordKeys: seq<KeySpec>, seen: seq<Vk>) {
    forall key :: key in chordKeys ==> exists code :: code in seen && key.Accepts(code)
  }

  function Unexpired(ps: seq<PendingChord>, now: nat): seq<PendingChord> {
    if ps == [] then [] else (if ps[0].expiresAt > now then [ps[0]] else []) + Unexpired(ps[1..], now)
  }

  /** The place of the entry for these keys, or the length. */
  function PlaceOf(ps: seq<PendingChord>, chordKeys: seq<KeySpec>): (place: nat)
    ensures place <= |ps|
    ensures place < |ps| ==> SameKeys(ps[place].chordKeys, chordKeys)
    ensures forall i :: 0 <= i < place ==> !SameKeys(ps[i].chordKeys, chordKeys)
  {
    if ps == [] || SameKeys(ps[0].chordKeys, chordKeys) then 0 else 1 + PlaceOf(ps[1..], chordKeys)
  }

  function WithSeen(p: PendingChord, vk: Vk): PendingChord {
    if vk in p.seen then p else p.(seen := p.seen + [vk])
  }

  /** One key-down fed to one chord binding. */
  datatype ChordFeed = ChordFeed(vk: Vk, action: Action, chordKeys: seq<KeySpec>, window: nat, now: nat, id: nat)

  function FeedChord(table: seq<PendingChord>, f: ChordFeed): (seq<PendingChord>, ChordOutcome) {
    if !IsChordKey(f.chordKeys, f.vk) then (table, NotInChord)
    else
      var ps := Unexpired(table, f.now);
      var i := PlaceOf(ps, f.chordKeys);
      if i < |ps| then
        var entry := WithSeen(ps[i], f.vk);
        if IsComplete(entry.chordKeys, entry.seen)
        then (ps[..i] + ps[i + 1..], Completed(entry.action, entry.seen))
        else (ps[i := entry], Pending)
      else
        (ps + [PendingChord(f.chordKeys, [f.vk], f.action, f.now + f.window, f.id)], Started(f.now + f.window))
  }

  function ExpireChord(ps: seq<PendingChord>, id: nat): seq<PendingChord> {
    if ps == [] then [] else (if ps[0].id != id then [ps[0]] else []) + ExpireChord(ps[1..], id)
  }

  predicate IsChordLive(ps: seq<PendingChord>, id: nat) {
    exists i :: 0 <= i < |ps| && ps[i].id == id
  }

  class Chords {
    var pending: seq<PendingChord>

    constructor ()
      ensures pending == []
    {
      pending := [];
    }

    method OnKeyDown(f: ChordFeed) returns (outcome: ChordOutcome)
      modifies this
      ensures (pending, outcome) == FeedChord(old(pending), f)
    {
      if !IsChordKey(f.chordKeys, f.vk) {
        return NotInChord;
      }
      RetainUnexpired(f.now);
      var index := Position(f.chordKeys);
      if index < |pending| {
        var entry := pending[index];
        if f.vk !in entry.seen {
          entry := entry.(seen := entry.seen + [f.vk]);
        }
        pending := pending[index := entry];
        if IsComplete(entry.chordKeys, entry.seen) {
          pending := pending[..index] + pending[index + 1..];
          return Completed(entry.action, entry.seen);
        }
        return Pending;
      }
      var due := f.now + f.window;
      pending := pending + [PendingChord(f.chordKeys, [f.vk], f.action, due, f.id)];
      outcome := Started(due);
    }

    method RetainUnexpired(now: nat)
      modifies this
      ensures pending == Unexpired(old(pending), now)
    {
      var kept: seq<PendingChord> := [];
      ghost var rest := pending;
      for n := 0 to |pending|
        invariant pending == old(pending) && rest == pending[n..]
        invariant Unexpired(pending, now) == kept + Unexpired(rest, now)
      {
        ghost var tail := rest[1..];
        assert Unexpired(rest, now) == (if rest[0].expiresAt > now then [rest[0]] else []) + Unexpired(tail, now);
        hide Unexpired;
        Regroup(kept, [rest[0]], Unexpired(tail, now));
        if pending[n].expiresAt > now {
          kept := kept + [pending[n]];
        }
        rest := tail;
      }
      pending := kept;
    }

    method Position(chordKeys: seq<KeySpec>) returns (index: nat)
      ensures index == PlaceOf(pending, chordKeys)
    {
      index := 0;
      while index < |pending| && !SameKeys(pending[index].chordKeys, chordKeys)
        invariant index <= |pending|
        invariant PlaceOf(pending, chordKeys) == index + PlaceOf(pending[index..], chordKeys)
      {
        assert pending[index..][1..] == pending[index + 1..];
        index := index + 1;
      }
    }

    method Expire(id: nat)
      modifies this
      ensures pending == ExpireChord(old(pending), id)
    {
      var kept: seq<PendingChord> := [];
      ghost var rest := pending;
      for n := 0 to |pending|
        invariant pending == old(pending) && rest == pending[n..]
        invariant ExpireChord(pending, id) == kept + ExpireChord(rest, id)
      {
        ghost var tail := rest[1..];
        assert ExpireChord(rest, id) == (if rest[0].id != id then [rest[0]] else []) + ExpireChord(tail, id);
        hide ExpireChord;
        Regroup(kept, [rest[0]], ExpireChord(tail, id));
        if pending[n].id != id {
          kept := kept + [pending[n]];
        }
        rest := tail;
      }
      pending := kept;
    }

    predicate IsLive(id: nat)
      reads this
    {
      IsChordLive(pending, id)
    }
  }
}
