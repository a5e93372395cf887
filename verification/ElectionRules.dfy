/** Who wins a key-down and which bindings arm with the winner, read off the bindings' fields. */
module ElectionRules {
  import opened Options
  import opened Modifiers
  import opened KeySpecs
  import opened Conditions
  import opened Bindings
  import opened Matching
  import opened Winners

  /** A `keys` binding of the user whose keys match the press and whose `when:`
      is true in its foreground. */
  ghost predicate Applies(b: Binding, press: KeyDown) {
    && b.kind.Combo? && b.autoBlocker == None
    && ComboMatches(b.kind.combo, press.vk, press.held, b.allowExtraModifiers)
    && b.condition.Evaluate(press.foreground)
  }

  /** The first has precedence: more keys; or as many and a written `when:`
      where the other has none; or neither, and it is earlier in the list. */
  ghost predicate Precedes(bindings: seq<Binding>, i: nat, j: nat)
    requires i < |bindings| && j < |bindings| && bindings[i].kind.Combo? && bindings[j].kind.Combo?
  {
    var a, b := bindings[i], bindings[j];
    || |a.kind.combo.keys| > |b.kind.combo.keys|
    || (|a.kind.combo.keys| == |b.kind.combo.keys| &&
        ((a.condition != Always && b.condition == Always) ||
         ((a.condition == Always <==> b.condition == Always) && i < j)))
  }

  ghost predicate IsFirstToAct(bindings: seq<Binding>, w: nat, press: KeyDown) {
    && w < |bindings| && Applies(bindings[w], press)
    && forall j :: 0 <= j < |bindings| && j != w && Applies(bindings[j], press) ==> Precedes(bindings, w, j)
  }

  lemma CandidateApplies(b: Binding, press: KeyDown)
    ensures CandidatesOf(press)(b) <==> Applies(b, press)
  {}

  lemma BestIsFirst(bindings: seq<Binding>, w: nat, press: KeyDown)
    ensures IsBest(bindings, w, CandidatesOf(press)) <==> IsFirstToAct(bindings, w, press)
  {
    hide ComboMatches, Condition.Evaluate;
    forall j | 0 <= j < |bindings| ensures CandidatesOf(press)(bindings[j]) <==> Applies(bindings[j], press) {
      CandidateApplies(bindings[j], press);
    }
  }

  /** The election: a winner applies and precedes every other binding that
      does; with no winner, no binding applies. */
  lemma WinnerAppliesAndPrecedes(bindings: seq<Binding>, press: KeyDown)
    ensures match ElectOf(bindings, press)
            case Some(w) => IsFirstToAct(bindings, w, press)
            case None => forall j :: 0 <= j < |bindings| ==> !Applies(bindings[j], press)
  {
    hide ComboMatches, Condition.Evaluate, IsBest, IsFirstToAct;
    ElectionFindsTheBest(bindings, press);
    match ElectOf(bindings, press)
    case Some(w) => BestIsFirst(bindings, w, press);
    case None =>
      forall j | 0 <= j < |bindings| ensures !Applies(bindings[j], press) {
        CandidateApplies(bindings[j], press);
      }
  }

  /** The same in the order of the file, before it is sorted. */
  lemma WinnerInFileOrder(file: seq<Binding>, press: KeyDown)
    ensures var sorted := SortBySpecificity(file);
            match ElectOf(sorted, press)
            case Some(w) => exists i: nat :: IsFirstToAct(file, i, press) && file[i] == sorted[w]
            case None => forall j :: 0 <= j < |file| ==> !Applies(file[j], press)
  {
    hide ComboMatches, Condition.Evaluate, IsFirstToAct, SortBySpecificity;
    ElectionInFileOrder(file, press);
    match ElectOf(SortBySpecificity(file), press)
    case Some(w) =>
      var i: nat :| IsBest(file, i, CandidatesOf(press)) && file[i] == SortBySpecificity(file)[w];
      BestIsFirst(file, i, press);
    case None =>
      forall j | 0 <= j < |file| ensures !Applies(file[j], press) {
        CandidateApplies(file[j], press);
      }
  }

  // ----- the gesture group -----

  /** The binding at `i` arms with the deferred winner at `w`: it is the winner,
      or a deferred `keys` binding of the user with the same keys in any order
      and the same `when:` as written, whose keys match the press. */
  ghost predicate ArmsWith(bindings: seq<Binding>, w: nat, i: nat, press: KeyDown)
    requires w < |bindings| && bindings[w].kind.Combo?
  {
    && i < |bindings|
    && (i == w ||
        var a, b := bindings[w], bindings[i];
        && b.kind.Combo? && b.autoBlocker == None && !b.trigger.Immediate?
        && |b.kind.combo.keys| == |a.kind.combo.keys| && (forall key :: key in b.kind.combo.keys ==> key in a.kind.combo.keys)
        && b.condition == a.condition
        && ComboMatches(b.kind.combo, press.vk, press.held, b.allowExtraModifiers))
  }

  lemma MembersArmTogether(bindings: seq<Binding>, w: nat, i: nat, press: KeyDown)
    requires ElectOf(bindings, press) == Some(w) && !bindings[w].trigger.Immediate?
    ensures bindings[w].kind.Combo?
    ensures i in MembersOf(bindings, w, press) <==> ArmsWith(bindings, w, i, press)
  {
    hide ComboMatches, Condition.Evaluate;
    WinnerAppliesAndPrecedes(bindings, press);
  }

  datatype GestureKind = OfTap | OfHold | OfDoubleTap

  predicate IsOf(kind: GestureKind, t: Trigger) {
    match kind
    case OfTap => t.Tap?
    case OfHold => t.Hold?
    case OfDoubleTap => t.DoubleTap?
  }

  /** The binding at `i` is the first of the winner's group with this trigger. */
  ghost predicate IsFirstArmed(bindings: seq<Binding>, w: nat, i: nat, press: KeyDown, kind: GestureKind)
    requires w < |bindings| && bindings[w].kind.Combo?
  {
    && ArmsWith(bindings, w, i, press) && IsOf(kind, bindings[i].trigger)
    && forall j: nat :: j < i && ArmsWith(bindings, w, j, press) ==> !IsOf(kind, bindings[j].trigger)
  }

  /** A gesture of the group is that of the first binding armed with this
      trigger, and there is none only if no such binding arms. */
  ghost predicate IsGestureOf(bindings: seq<Binding>, w: nat, press: KeyDown, kind: GestureKind, gesture: Option<Gesture<Action>>)
    requires w < |bindings| && bindings[w].kind.Combo?
  {
    match gesture
    case Some(g) =>
      exists i: nat :: IsFirstArmed(bindings, w, i, press, kind)
               && g.term == bindings[i].trigger.term && g.action == bindings[i].action
    case None => forall i: nat :: ArmsWith(bindings, w, i, press) ==> !IsOf(kind, bindings[i].trigger)
  }

  lemma FirstsAreArmed(bindings: seq<Binding>, w: nat, i: nat, press: KeyDown, kind: GestureKind)
    requires ElectOf(bindings, press) == Some(w) && !bindings[w].trigger.Immediate? && bindings[w].kind.Combo?
    requires i < |bindings| && IsOf(kind, bindings[i].trigger)
    ensures FirstOfKind(bindings, MembersOf(bindings, w, press), i) <==> IsFirstArmed(bindings, w, i, press, kind)
  {
    hide ComboMatches, Condition.Evaluate, ElectOf, MembersOf, ArmsWith;
    var members := MembersOf(bindings, w, press);
    forall j: nat ensures j in members <==> ArmsWith(bindings, w, j, press) {
      MembersArmTogether(bindings, w, j, press);
    }
    forall j: nat | j < i && j in members ensures SameKind(bindings[j].trigger, bindings[i].trigger) <==> IsOf(kind, bindings[j].trigger) {
      MembersArmTogether(bindings, w, j, press);
    }
  }

  lemma MemberHasSlot(bindings: seq<Binding>, members: set<nat>, i: nat, kind: GestureKind, group: GroupArming<Action>, sample: Trigger)
    requires i < |bindings| && i in members && IsOf(kind, bindings[i].trigger) && IsOf(kind, sample)
    requires Gathered(bindings, members, |bindings|, group)
    ensures Slot(group, sample).Some?
  {
    var first := FirstOfItsKind(bindings, members, i);
    assert Slot(group, bindings[first].trigger).Some?;
  }

  lemma SlotIsGesture(bindings: seq<Binding>, w: nat, press: KeyDown, kind: GestureKind, group: GroupArming<Action>, sample: Trigger)
    requires ElectOf(bindings, press) == Some(w) && !bindings[w].trigger.Immediate? && bindings[w].kind.Combo?
    requires IsOf(kind, sample)
    requires Gathered(bindings, MembersOf(bindings, w, press), |bindings|, group)
    ensures IsGestureOf(bindings, w, press, kind, Slot(group, sample))
  {
    hide ComboMatches, Condition.Evaluate, ElectOf, MembersOf, ArmsWith, IsFirstArmed, FirstOfKind;
    var members := MembersOf(bindings, w, press);
    match Slot(group, sample)
    case Some(g) =>
      assert HasFirst(bindings, members, |bindings|, sample);
      var i: nat :| i < |bindings| && FirstOfKind(bindings, members, i) && SameKind(bindings[i].trigger, sample);
      FirstsAreArmed(bindings, w, i, press, kind);
    case None =>
      forall i: nat | ArmsWith(bindings, w, i, press) ensures i < |bindings| {
        ArmedIsInTheList(bindings, w, i, press);
      }
      forall i: nat | i < |bindings| && ArmsWith(bindings, w, i, press) ensures !IsOf(kind, bindings[i].trigger) {
        MembersArmTogether(bindings, w, i, press);
        if IsOf(kind, bindings[i].trigger) {
          MemberHasSlot(bindings, members, i, kind, group, sample);
        }
      }
  }

  lemma ArmedIsInTheList(bindings: seq<Binding>, w: nat, i: nat, press: KeyDown)
    requires w < |bindings| && bindings[w].kind.Combo? && ArmsWith(bindings, w, i, press)
    ensures i < |bindings|
  {}

  /** What a deferred winner arms: of the bindings that arm with it, the first
      Tap, the first Hold and the first DoubleTap, each with its own term and
      action, and no other; and it swallows the key iff one of these says so. */
  lemma GroupArmsTheFirsts(bindings: seq<Binding>, w: nat, press: KeyDown)
    requires ElectOf(bindings, press) == Some(w) && !bindings[w].trigger.Immediate?
    ensures bindings[w].kind.Combo? && DeferredGroupOf(bindings, w, press).Some?
    ensures var group := DeferredGroupOf(bindings, w, press).value;
            && IsGestureOf(bindings, w, press, OfTap, group.tap)
            && IsGestureOf(bindings, w, press, OfHold, group.hold)
            && IsGestureOf(bindings, w, press, OfDoubleTap, group.doubleTap)
            && (group.block <==> exists i: nat :: i < |bindings| && bindings[i].blockDefault && IsFirstOfAny(bindings, w, i, press))
  {
    hide ComboMatches, Condition.Evaluate, ElectOf, MembersOf, ArmsWith, IsFirstArmed, FirstOfKind, Gathered, DeferredGroupOf, IsGestureOf, IsFirstOfAny;
    GroupIsTheFirstOfEachKind(bindings, w, press);
    MembersArmTogether(bindings, w, w, press);
    var group := DeferredGroupOf(bindings, w, press).value;
    SlotIsGesture(bindings, w, press, OfTap, group, Tap(0));
    SlotIsGesture(bindings, w, press, OfHold, group, Hold(0));
    SlotIsGesture(bindings, w, press, OfDoubleTap, group, DoubleTap(0));
    BlocksAsTheFirsts(bindings, w, press, group);
  }

  ghost predicate IsFirstOfAny(bindings: seq<Binding>, w: nat, i: nat, press: KeyDown)
    requires w < |bindings| && bindings[w].kind.Combo?
  {
    || IsFirstArmed(bindings, w, i, press, OfTap)
    || IsFirstArmed(bindings, w, i, press, OfHold)
    || IsFirstArmed(bindings, w, i, press, OfDoubleTap)
  }

  lemma FirstOfAnyKind(bindings: seq<Binding>, w: nat, i: nat, press: KeyDown)
    requires ElectOf(bindings, press) == Some(w) && !bindings[w].trigger.Immediate? && bindings[w].kind.Combo?
    requires i < |bindings|
    ensures FirstOfKind(bindings, MembersOf(bindings, w, press), i) <==> IsFirstOfAny(bindings, w, i, press)
  {
    hide ComboMatches, Condition.Evaluate, ElectOf, MembersOf, ArmsWith;
    match bindings[i].trigger
    case Tap(_) => FirstsAreArmed(bindings, w, i, press, OfTap);
    case Hold(_) => FirstsAreArmed(bindings, w, i, press, OfHold);
    case DoubleTap(_) => FirstsAreArmed(bindings, w, i, press, OfDoubleTap);
    case Immediate =>
  }

  lemma BlocksAsTheFirsts(bindings: seq<Binding>, w: nat, press: KeyDown, group: GroupArming<Action>)
    requires ElectOf(bindings, press) == Some(w) && !bindings[w].trigger.Immediate? && bindings[w].kind.Combo?
    requires Gathered(bindings, MembersOf(bindings, w, press), |bindings|, group)
    ensures group.block <==> exists i: nat :: i < |bindings| && bindings[i].blockDefault && IsFirstOfAny(bindings, w, i, press)
  {
    hide ComboMatches, Condition.Evaluate, ElectOf, MembersOf, ArmsWith, FirstOfKind, IsFirstOfAny, ArmsTheFirst, ArmsNoOther;
    forall i: nat | i < |bindings|
      ensures FirstOfKind(bindings, MembersOf(bindings, w, press), i) <==> IsFirstOfAny(bindings, w, i, press)
    {
      FirstOfAnyKind(bindings, w, i, press);
    }
  }
}
