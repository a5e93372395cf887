/** When the main thread reads the modifiers from Windows between key events,
    and which ones. */
module Resyncs {
  import opened Modifiers

  datatype ResyncState = ResyncState(
    hiding: nat,
    resynced: nat,
    notesSeen: nat,
    freshCodes: ModifierSet,
    owed: ModifierSet,
    inputAway: bool)
  {
    function Bump(): ResyncState {
      this.(hiding := hiding + 1)
    }

    function Event(vk: Vk, decided: bool): ResyncState {
      this.(freshCodes := freshCodes + TouchedBy(vk), inputAway := inputAway && !decided)
    }

    function InputLeft(): ResyncState {
      this.(inputAway := true).Bump()
    }

    function InputReturned(): ResyncState {
      this.(inputAway := false).Bump()
    }

    function ReadEverything(): ResyncState {
      this.(resynced := hiding, freshCodes := {}, owed := {})
    }

    /** The state after a plan, and the codes the drain reads now. */
    function Plan(notes: nat): (ResyncState, ModifierSet) {
      var noted := if notes != notesSeen then this.(notesSeen := notes).Bump() else this;
      if inputAway then (noted, {})
      else
        var planned := if noted.hiding != noted.resynced then ALL else owed;
        (noted.(resynced := noted.hiding, owed := planned * freshCodes, freshCodes := {}), planned - freshCodes)
    }

    predicate ReadPending() {
      hiding != resynced
    }
  }

  const NewResync: ResyncState := ResyncState(1, 0, 0, {}, {}, false)

  class Resync {
    var hiding: nat
    var resynced: nat
    var notesSeen: nat
    var freshCodes: ModifierSet
    var owed: ModifierSet
    var inputAway: bool

    ghost function View(): ResyncState
      reads this
    {
      ResyncState(hiding, resynced, notesSeen, freshCodes, owed, inputAway)
    }

    constructor ()
      ensures View() == NewResync
    {
      hiding, resynced, notesSeen, freshCodes, owed, inputAway := 1, 0, 0, {}, {}, false;
    }

    method Bump()
      modifies this
      ensures View() == old(View()).Bump()
    {
      hiding := hiding + 1;
    }

    method Event(vk: Vk, decided: bool)
      modifies this
      ensures View() == old(View()).Event(vk, decided)
    {
      freshCodes := freshCodes + TouchedBy(vk);
      if decided {
        inputAway := false;
      }
    }

    method InputLeft()
      modifies this
      ensures View() == old(View()).InputLeft()
    {
      inputAway := true;
      Bump();
    }

    method InputReturned()
      modifies this
      ensures View() == old(View()).InputReturned()
    {
      inputAway := false;
      Bump();
    }

    method ReadEverything()
      modifies this
      ensures View() == old(View()).ReadEverything()
    {
      resynced := hiding;
      freshCodes := {};
      owed := {};
    }

    method Plan(notes: nat) returns (read: ModifierSet)
      modifies this
      ensures (View(), read) == old(View()).Plan(notes)
    {
      if notes != notesSeen {
        notesSeen := notes;
        Bump();
      }
      if inputAway {
        return {};
      }
      var planned := owed;
      if hiding != resynced {
        resynced := hiding;
        planned := ALL;
      }
      read := planned - freshCodes;
      owed := planned - read;
      freshCodes := {};
      assert owed == planned * old(freshCodes);
    }
  }

  // ----- over whole runs -----

  datatype ResyncOp =
    | Hid
    | Touched(vk: Vk, decided: bool)
    | Left
    | Returned
    | ReadAll
    | Planned(notes: nat)

  function Apply(r: ResyncState, op: ResyncOp): (ResyncState, ModifierSet) {
    match op
    case Hid => (r.Bump(), {})
    case Touched(vk, decided) => (r.Event(vk, decided), {})
    case Left => (r.InputLeft(), {})
    case Returned => (r.InputReturned(), {})
    case ReadAll => (r.ReadEverything(), {})
    case Planned(notes) => r.Plan(notes)
  }

  /** What an observer of the operations and of the reads knows, with no
      counter of its own: the codes not read since something last hid an
      event, those touched by an event since the last plan made with input
      present, the notes last reported, and where input is. */
  datatype Observer = Observer(unread: ModifierSet, touched: ModifierSet, notes: nat, away: bool)

  const FirstObserver: Observer := Observer(ALL, {}, 0, false)

  function Observe(o: Observer, op: ResyncOp, read: ModifierSet): Observer {
    match op
    case Hid => o.(unread := ALL)
    case Touched(vk, decided) => o.(touched := o.touched + TouchedBy(vk), away := o.away && !decided)
    case Left => o.(unread := ALL, away := true)
    case Returned => o.(unread := ALL, away := false)
    case ReadAll => o.(unread := {}, touched := {})
    case Planned(notes) =>
      var unread := if notes != o.notes then ALL else o.unread;
      o.(unread := unread - read, notes := notes, touched := if o.away then o.touched else {})
  }

  /** The coupling between the planner's counters and the observer. */
  ghost predicate Tracks(r: ResyncState, o: Observer) {
    && r.notesSeen == o.notes && r.inputAway == o.away
    && r.freshCodes == o.touched && r.owed <= ALL
    && (if r.ReadPending() then o.unread == ALL else o.unread == r.owed)
    && r.resynced <= r.hiding
  }

  /** What a plan may and may not read, in the observer's terms: nothing while
      input is away; nothing touched by an event since the last plan; and
      otherwise everything not yet read. */
  ghost predicate PlanIsRight(o: Observer, notes: nat, read: ModifierSet) {
    var unread := if notes != o.notes then ALL else o.unread;
    read == if o.away then {} else unread - o.touched
  }

  ghost predicate EveryPlanIsRight(r: ResyncState, o: Observer, ops: seq<ResyncOp>)
    decreases |ops|
  {
    ops == [] ||
    var (r', read) := Apply(r, ops[0]);
    && (ops[0].Planned? ==> PlanIsRight(o, ops[0].notes, read))
    && EveryPlanIsRight(r', Observe(o, ops[0], read), ops[1..])
  }

  ghost function RunPlanner(r: ResyncState, o: Observer, ops: seq<ResyncOp>): (ResyncState, Observer)
    decreases |ops|
  {
    if ops == [] then (r, o) else
    var (r', read) := Apply(r, ops[0]);
    RunPlanner(r', Observe(o, ops[0], read), ops[1..])
  }

  lemma StepTracks(r: ResyncState, o: Observer, op: ResyncOp)
    requires Tracks(r, o)
    ensures Tracks(Apply(r, op).0, Observe(o, op, Apply(r, op).1))
    ensures op.Planned? ==> PlanIsRight(o, op.notes, Apply(r, op).1)
  {
    match op
    case Planned(notes) =>
      var (r', read) := r.Plan(notes);
      var unread := if notes != o.notes then ALL else o.unread;
      if !o.away {
        assert unread - read == unread * r.freshCodes;
      }
    case _ =>
  }

  lemma {:induction false} RunTracks(r: ResyncState, o: Observer, ops: seq<ResyncOp>)
    requires Tracks(r, o)
    ensures EveryPlanIsRight(r, o, ops)
    ensures var (r', o') := RunPlanner(r, o, ops); Tracks(r', o')
    decreases |ops|
  {
    if ops != [] {
      StepTracks(r, o, ops[0]);
      var (r', read) := Apply(r, ops[0]);
      RunTracks(r', Observe(o, ops[0], read), ops[1..]);
    }
  }

  /** In every run the planner loses nothing and reads nothing stale: each
      plan reads exactly the codes unread since the last source of hidden
      input, but those an event touched since the plan before, and nothing
      while input is away; and unless a read of all codes is pending, the
      unread codes are exactly the owed ones. */
  lemma PlannerLosesNothingAndReadsNothingStale(ops: seq<ResyncOp>)
    ensures EveryPlanIsRight(NewResync, FirstObserver, ops)
    ensures var (r, o) := RunPlanner(NewResync, FirstObserver, ops);
            if r.ReadPending() then o.unread == ALL else o.unread == r.owed
  {
    RunTracks(NewResync, FirstObserver, ops);
  }

  /** With input present, no event and no new note, two plans in a row read
      everything that was unread, each code once. */
  lemma TwoPlansReadEverything(r: ResyncState, o: Observer, notes: nat)
    requires Tracks(r, o) && !r.inputAway
    ensures var (r1, read1) := r.Plan(notes);
            var (r2, read2) := r1.Plan(notes);
            && read1 + read2 == (if notes != o.notes then ALL else o.unread)
            && read1 * read2 == {}
            && !r2.ReadPending() && r2.owed == {}
  {
    var unread := if notes != o.notes then ALL else o.unread;
    assert r.Plan(notes).1 == unread - r.freshCodes;
    assert r.Plan(notes).0.owed == unread * r.freshCodes;
  }
}
