/** One winner per key-down among the `keys` bindings, and the gesture group
    that acts with a deferred winner. */
module Winners {
  import opened Options
  import opened Modifiers
  import opened KeySpecs
  import opened Conditions
  import opened Bindings
  import opened Matching

  /** What the press being decided looks like to a binding. */
  datatype KeyDown = KeyDown(vk: Vk, held: Flags, foreground: ForegroundInfo)

  predicate IsUserCombo(b: Binding) {
    b.kind.Combo? && b.autoBlocker.None?
  }

  predicate Candidate(b: Binding, press: KeyDown) {
    && IsUserCombo(b)
    && ComboMatches(b.kind.combo, press.vk, press.held, b.allowExtraModifiers)
    && b.condition.Evaluate(press.foreground)
  }

  /** Precedence: more keys, then a written `when:`. */
  predicate Outranks(a: Binding, b: Binding) {
    || a.kind.KeyCount() > b.kind.KeyCount()
    || (a.kind.KeyCount() == b.kind.KeyCount() && !a.condition.Always? && b.condition.Always?)
  }

  /** Which bindings match a press. The election is about any such test. */
  type Matcher = Binding -> bool

  function CandidatesOf(press: KeyDown): Matcher {
    b => Candidate(b, press)
  }

  /** The binding at `i` is the one the documentation promises: it matches,
      outranks every earlier match, and no later match outranks it. */
  ghost predicate IsBest(bindings: seq<Binding>, i: nat, matches: Matcher) {
    && i < |bindings|
    && matches(bindings[i])
    && (forall j :: 0 <= j < i && matches(bindings[j]) ==> Outranks(bindings[i], bindings[j]))
    && (forall j :: i < j < |bindings| && matches(bindings[j]) ==> !Outranks(bindings[j], bindings[i]))
  }

  ghost predicate NoneMatches(bindings: seq<Binding>, matches: Matcher) {
    forall j :: 0 <= j < |bindings| ==> !matches(bindings[j])
  }

  /** The election over the bindings from `i` on, with `winner` the one so far. */
  function ElectFrom(bindings: seq<Binding>, i: nat, winner: Option<nat>, matches: Matcher): (r: Option<nat>)
    requires i <= |bindings| && (winner.Some? ==> winner.value < i)
    ensures r.Some? ==> r.value < |bindings|
    decreases |bindings| - i
  {
    if i == |bindings| then winner
    else if !(winner.Some? && !Outranks(bindings[i], bindings[winner.value])) && matches(bindings[i])
    then ElectFrom(bindings, i + 1, Some(i), matches)
    else ElectFrom(bindings, i + 1, winner, matches)
  }

  function ElectOf(bindings: seq<Binding>, press: KeyDown): (winner: Option<nat>)
    ensures winner.Some? ==> winner.value < |bindings|
  {
    ElectFrom(bindings, 0, None, CandidatesOf(press))
  }

  lemma {:induction false} ElectFromFindsTheBest(bindings: seq<Binding>, i: nat, winner: Option<nat>, matches: Matcher)
    requires i <= |bindings|
    requires match winner
             case Some(w) => w < i && IsBest(bindings[..i], w, matches)
             case None => NoneMatches(bindings[..i], matches)
    ensures match ElectFrom(bindings, i, winner, matches)
            case Some(w) => IsBest(bindings, w, matches)
            case None => NoneMatches(bindings, matches)
    decreases |bindings| - i
  {
    if i == |bindings| {
      assert bindings[..i] == bindings;
    } else {
      assert bindings[..i + 1] == bindings[..i] + [bindings[i]];
      var taken := !(winner.Some? && !Outranks(bindings[i], bindings[winner.value])) && matches(bindings[i]);
      ElectFromFindsTheBest(bindings, i + 1, if taken then Some(i) else winner, matches);
    }
  }

  lemma BestIsUnique(bindings: seq<Binding>, i: nat, j: nat, matches: Matcher)
    requires IsBest(bindings, i, matches) && IsBest(bindings, j, matches)
    ensures i == j
  {}

  /** The early skips lose nothing: the election returns the best binding,
      and no winner only when nothing matches. */
  lemma ElectionFindsTheBest(bindings: seq<Binding>, press: KeyDown)
    ensures forall i: nat :: ElectOf(bindings, press) == Some(i) <==> IsBest(bindings, i, CandidatesOf(press))
    ensures ElectOf(bindings, press) == None <==> NoneMatches(bindings, CandidatesOf(press))
  {
    var matches := CandidatesOf(press);
    ElectFromFindsTheBest(bindings, 0, None, matches);
    var winner := ElectOf(bindings, press);
    forall i: nat | IsBest(bindings, i, matches) ensures winner == Some(i) {
      if winner.Some? {
        BestIsUnique(bindings, i, winner.value, matches);
      }
    }
  }

  method Elect(bindings: seq<Binding>, press: KeyDown) returns (winner: Option<nat>)
    ensures winner == ElectOf(bindings, press)
  {
    winner := None;
    for i := 0 to |bindings|
      invariant winner.Some? ==> winner.value < i
      invariant ElectFrom(bindings, i, winner, CandidatesOf(press)) == ElectOf(bindings, press)
    {
      var binding := bindings[i];
      if !IsUserCombo(binding) {
        continue;
      }
      if winner.Some? && !Outranks(binding, bindings[winner.value]) {
        continue;
      }
      if !ComboMatches(binding.kind.combo, press.vk, press.held, binding.allowExtraModifiers) {
        continue;
      }
      if !binding.condition.Evaluate(press.foreground) {
        continue;
      }
      winner := Some(i);
    }
  }

  // ----- the list order -----

  /** Stable: a binding goes before the later ones of its own key count. */
  function Insert(b: Binding, sorted: seq<Binding>): seq<Binding> {
    if sorted == [] || sorted[0].kind.KeyCount() <= b.kind.KeyCount() then [b] + sorted
    else [sorted[0]] + Insert(b, sorted[1..])
  }

  /** The order the engine visits a list in: more keys first. */
  function SortBySpecificity(file: seq<Binding>): seq<Binding> {
    if file == [] then [] else Insert(file[0], SortBySpecificity(file[1..]))
  }

  /** The bindings with `count` keys, in order. */
  ghost function OfCount(bindings: seq<Binding>, count: nat): seq<Binding> {
    if bindings == [] then []
    else (if bindings[0].kind.KeyCount() == count then [bindings[0]] else []) + OfCount(bindings[1..], count)
  }

  ghost predicate MoreKeysFirst(bindings: seq<Binding>) {
    forall i, j :: 0 <= i < j < |bindings| ==> bindings[i].kind.KeyCount() >= bindings[j].kind.KeyCount()
  }

  lemma {:induction false} InsertPermutes(b: Binding, sorted: seq<Binding>)
    ensures multiset(Insert(b, sorted)) == multiset(sorted) + multiset{b}
  {
    if sorted != [] {
      InsertPermutes(b, sorted[1..]);
      assert sorted == [sorted[0]] + sorted[1..];
    }
  }

  lemma {:induction false} InsertSorts(b: Binding, sorted: seq<Binding>)
    requires MoreKeysFirst(sorted)
    ensures MoreKeysFirst(Insert(b, sorted))
  {
    if sorted != [] && sorted[0].kind.KeyCount() > b.kind.KeyCount() {
      var inserted := Insert(b, sorted[1..]);
      InsertSorts(b, sorted[1..]);
      InsertPermutes(b, sorted[1..]);
      forall x | x in inserted ensures x.kind.KeyCount() <= sorted[0].kind.KeyCount() {
        assert x in multiset(inserted);
        assert x == b || x in multiset(sorted[1..]);
      }
    }
  }

  lemma {:induction false} InsertKeepsOrder(b: Binding, sorted: seq<Binding>, count: nat)
    ensures OfCount(Insert(b, sorted), count) == OfCount([b] + sorted, count)
  {
    assert ([b] + sorted)[1..] == sorted;
    if sorted != [] && sorted[0].kind.KeyCount() > b.kind.KeyCount() {
      var rest := sorted[1..];
      InsertKeepsOrder(b, rest, count);
      assert ([b] + rest)[1..] == rest;
      assert Insert(b, sorted)[1..] == Insert(b, rest);
    }
  }

  /** The sort is a stable sort: sorted, a permutation, and for every key
      count the bindings with it keep their file order. */
  lemma {:induction false} SortIsStable(file: seq<Binding>, count: nat)
    ensures MoreKeysFirst(SortBySpecificity(file))
    ensures multiset(SortBySpecificity(file)) == multiset(file)
    ensures OfCount(SortBySpecificity(file), count) == OfCount(file, count)
  {
    if file != [] {
      var rest := SortBySpecificity(file[1..]);
      SortIsStable(file[1..], count);
      InsertSorts(file[0], rest);
      InsertPermutes(file[0], rest);
      InsertKeepsOrder(file[0], rest, count);
      assert file == [file[0]] + file[1..];
      assert ([file[0]] + rest)[1..] == rest;
    }
  }

  /** The best binding as a value, found from the end of the list. */
  ghost function Choose(bindings: seq<Binding>, matches: Matcher): Option<Binding> {
    if bindings == [] then None else
    var later := Choose(bindings[1..], matches);
    if matches(bindings[0]) && !(later.Some? && Outranks(later.value, bindings[0]))
    then Some(bindings[0]) else later
  }

  lemma {:induction false} BestIsChosen(bindings: seq<Binding>, matches: Matcher)
    ensures match Choose(bindings, matches)
            case Some(b) => exists i: nat :: IsBest(bindings, i, matches) && bindings[i] == b
            case None => NoneMatches(bindings, matches)
  {
    if bindings != [] {
      var rest := bindings[1..];
      BestIsChosen(rest, matches);
      assert bindings == [bindings[0]] + rest;
      match Choose(rest, matches)
      case None =>
        assert matches(bindings[0]) ==> IsBest(bindings, 0, matches);
      case Some(b) =>
        var i: nat :| IsBest(rest, i, matches) && rest[i] == b;
        if matches(bindings[0]) && !Outranks(b, bindings[0]) {
          assert IsBest(bindings, 0, matches);
        } else {
          assert IsBest(bindings, i + 1, matches);
        }
    }
  }

  lemma {:induction false} InsertKeepsChoice(b: Binding, sorted: seq<Binding>, matches: Matcher)
    ensures Choose(Insert(b, sorted), matches) == Choose([b] + sorted, matches)
  {
    assert ([b] + sorted)[1..] == sorted;
    if sorted != [] && sorted[0].kind.KeyCount() > b.kind.KeyCount() {
      var rest := sorted[1..];
      InsertKeepsChoice(b, rest, matches);
      assert ([b] + rest)[1..] == rest;
      assert Insert(b, sorted)[1..] == Insert(b, rest);
    }
  }

  lemma {:induction false} SortKeepsChoice(file: seq<Binding>, matches: Matcher)
    ensures Choose(SortBySpecificity(file), matches) == Choose(file, matches)
  {
    if file != [] {
      var rest := SortBySpecificity(file[1..]);
      SortKeepsChoice(file[1..], matches);
      InsertKeepsChoice(file[0], rest, matches);
      assert ([file[0]] + rest)[1..] == rest;
    }
  }

  /** The engine sorts the list and then elects with early skips. The winner
      is the best binding of the file in file order, whatever the sort moved. */
  lemma ElectionInFileOrder(file: seq<Binding>, press: KeyDown)
    ensures var sorted := SortBySpecificity(file);
            match ElectOf(sorted, press)
            case Some(k) => exists i: nat :: IsBest(file, i, CandidatesOf(press)) && file[i] == sorted[k]
            case None => NoneMatches(file, CandidatesOf(press))
  {
    var sorted, matches := SortBySpecificity(file), CandidatesOf(press);
    SortKeepsChoice(file, matches);
    BestIsChosen(file, matches);
    BestIsChosen(sorted, matches);
    ElectionFindsTheBest(sorted, press);
  }

  // ----- the gesture group -----

  /** A term and what it fires. */
  datatype Gesture<A> = Gesture(term: nat, action: A)

  /** What a deferred winner and its group arm. */
  datatype GroupArming<A> = GroupArming(
    keys: KeyCombination,
    condition: Condition,
    tap: Option<Gesture<A>>,
    hold: Option<Gesture<A>>,
    doubleTap: Option<Gesture<A>>,
    block: bool)

  /** Whether the binding at `index` acts on a key-down won by `winner`. */
  predicate Admits(bindings: seq<Binding>, winner: nat, index: nat, press: KeyDown)
    requires winner < |bindings| && index < |bindings|
  {
    var w, b := bindings[winner], bindings[index];
    if index == winner then true
    else if w.trigger.Immediate? || b.trigger.Immediate? then false
    else
      && b.kind.Combo? && w.kind.Combo?
      && b.kind.combo.SameAs(w.kind.combo)
      && b.condition == w.condition
      && ComboMatches(b.kind.combo, press.vk, press.held, b.allowExtraModifiers)
  }

  /** One binding joins the group: the first of its trigger kind is taken. */
  function Join(group: GroupArming<Action>, b: Binding): GroupArming<Action> {
    match b.trigger
    case Immediate => group
    case Tap(term) =>
      if group.tap.Some? then group
      else group.(tap := Some(Gesture(term, b.action)), block := group.block || b.blockDefault)
    case Hold(term) =>
      if group.hold.Some? then group
      else group.(hold := Some(Gesture(term, b.action)), block := group.block || b.blockDefault)
    case DoubleTap(term) =>
      if group.doubleTap.Some? then group
      else group.(doubleTap := Some(Gesture(term, b.action)), block := group.block || b.blockDefault)
  }

  predicate IsMember(bindings: seq<Binding>, winner: nat, index: nat, press: KeyDown)
    requires winner < |bindings| && index < |bindings|
  {
    bindings[index].autoBlocker.None? && Admits(bindings, winner, index, press)
  }

  /** The places of the group's members, anywhere in the list. */
  function MembersOf(bindings: seq<Binding>, winner: nat, press: KeyDown): set<nat>
    requires winner < |bindings|
  {
    set i: nat | i < |bindings| && IsMember(bindings, winner, i, press)
  }

  function GroupFrom(bindings: seq<Binding>, members: set<nat>, index: nat, group: GroupArming<Action>)
    : GroupArming<Action>
    requires index <= |bindings|
    decreases |bindings| - index
  {
    if index == |bindings| then group
    else GroupFrom(bindings, members, index + 1, if index in members then Join(group, bindings[index]) else group)
  }

  function NewGroup(w: Binding): GroupArming<Action>
    requires w.kind.Combo?
  {
    GroupArming(w.kind.combo, w.condition, None, None, None, false)
  }

  /** The group of a deferred winner, scanned from the winner on. */
  function DeferredGroupOf(bindings: seq<Binding>, winner: nat, press: KeyDown): (group: Option<GroupArming<Action>>)
    requires winner < |bindings|
  {
    var w := bindings[winner];
    if w.trigger.Immediate? || !w.kind.Combo? then None
    else Some(GroupFrom(bindings, MembersOf(bindings, winner, press), winner, NewGroup(w)))
  }

  /** The source flags the kinds used; a taken slot is the same flag. */
  method DeferredGroup(bindings: seq<Binding>, winner: nat, press: KeyDown) returns (group: Option<GroupArming<Action>>)
    requires winner < |bindings|
    ensures group == DeferredGroupOf(bindings, winner, press)
  {
    var w := bindings[winner];
    if w.trigger.Immediate? || !w.kind.Combo? {
      return None;
    }
    var arming := NewGroup(w);
    var tapUsed, holdUsed, doubleTapUsed := false, false, false;
    for index := winner to |bindings|
      invariant tapUsed == arming.tap.Some? && holdUsed == arming.hold.Some?
      invariant doubleTapUsed == arming.doubleTap.Some?
      invariant GroupFrom(bindings, MembersOf(bindings, winner, press), index, arming)
             == GroupFrom(bindings, MembersOf(bindings, winner, press), winner, NewGroup(w))
    {
      var b := bindings[index];
      if b.autoBlocker.Some? || !Admits(bindings, winner, index, press) {
        continue;
      }
      match b.trigger
      case Immediate =>
      case Tap(term) =>
        if !tapUsed {
          tapUsed := true;
          arming := arming.(tap := Some(Gesture(term, b.action)), block := arming.block || b.blockDefault);
        }
      case Hold(term) =>
        if !holdUsed {
          holdUsed := true;
          arming := arming.(hold := Some(Gesture(term, b.action)), block := arming.block || b.blockDefault);
        }
      case DoubleTap(term) =>
        if !doubleTapUsed {
          doubleTapUsed := true;
          arming := arming.(doubleTap := Some(Gesture(term, b.action)), block := arming.block || b.blockDefault);
        }
    }
    group := Some(arming);
  }

  lemma MemberMatches(bindings: seq<Binding>, winner: nat, index: nat, press: KeyDown)
    requires winner < |bindings| && index < |bindings| && index != winner
    requires Candidate(bindings[winner], press)
    requires IsMember(bindings, winner, index, press)
    ensures CandidatesOf(press)(bindings[index])
    ensures !Outranks(bindings[winner], bindings[index])
  {}

  /** A member before the winner would have the winner's rank and match too,
      so the election would have picked it. */
  lemma NoMemberBeforeTheWinner(bindings: seq<Binding>, winner: nat, index: nat, press: KeyDown)
    requires ElectOf(bindings, press) == Some(winner)
    requires index < winner
    ensures index !in MembersOf(bindings, winner, press)
  {
    ElectionFindsTheBest(bindings, press);
    assert IsBest(bindings, winner, CandidatesOf(press));
    if IsMember(bindings, winner, index, press) {
      MemberMatches(bindings, winner, index, press);
    }
  }

  predicate SameKind(a: Trigger, b: Trigger) {
    match a
    case Immediate => b.Immediate?
    case Tap(_) => b.Tap?
    case Hold(_) => b.Hold?
    case DoubleTap(_) => b.DoubleTap?
  }

  /** The group's gesture of the kind of `trigger`. */
  function Slot(group: GroupArming<Action>, trigger: Trigger): Option<Gesture<Action>> {
    match trigger
    case Immediate => None
    case Tap(_) => group.tap
    case Hold(_) => group.hold
    case DoubleTap(_) => group.doubleTap
  }

  /** Of the members, `i` is the first with its kind of deferred trigger. */
  ghost predicate FirstOfKind(bindings: seq<Binding>, members: set<nat>, i: nat) {
    && i < |bindings|
    && i in members
    && !bindings[i].trigger.Immediate?
    && forall j :: 0 <= j < i && j in members ==> !SameKind(bindings[j].trigger, bindings[i].trigger)
  }

  /** The first member of a kind before `n` armed its gesture. */
  ghost predicate ArmsTheFirst(bindings: seq<Binding>, members: set<nat>, n: nat, group: GroupArming<Action>) {
    forall i: nat :: i < n && FirstOfKind(bindings, members, i) ==>
      Slot(group, bindings[i].trigger) == Some(Gesture(bindings[i].trigger.term, bindings[i].action))
  }

  /** The first member of the kind of `t`, if it comes before `n`. */
  ghost predicate HasFirst(bindings: seq<Binding>, members: set<nat>, n: nat, t: Trigger) {
    exists i: nat :: i < n && FirstOfKind(bindings, members, i) && SameKind(bindings[i].trigger, t)
  }

  ghost predicate ArmsNoOther(bindings: seq<Binding>, members: set<nat>, n: nat, group: GroupArming<Action>) {
    forall t: Trigger :: Slot(group, t).Some? ==> HasFirst(bindings, members, n, t)
  }

  ghost predicate FirstBlocks(bindings: seq<Binding>, members: set<nat>, n: nat) {
    exists i: nat :: i < n && FirstOfKind(bindings, members, i) && bindings[i].blockDefault
  }

  /** What the members before `n` armed: the first of each kind, no other,
      and a swallow if one of these asks for it. */
  ghost predicate Gathered(bindings: seq<Binding>, members: set<nat>, n: nat, group: GroupArming<Action>) {
    && ArmsTheFirst(bindings, members, n, group)
    && ArmsNoOther(bindings, members, n, group)
    && (group.block <==> FirstBlocks(bindings, members, n))
  }

  lemma {:induction false} FirstOfItsKind(bindings: seq<Binding>, members: set<nat>, j: nat) returns (i: nat)
    requires j < |bindings| && j in members && !bindings[j].trigger.Immediate?
    ensures i <= j && FirstOfKind(bindings, members, i)
    ensures SameKind(bindings[i].trigger, bindings[j].trigger)
  {
    if FirstOfKind(bindings, members, j) {
      i := j;
    } else {
      var k: nat :| k < j && k in members && SameKind(bindings[k].trigger, bindings[j].trigger);
      i := FirstOfItsKind(bindings, members, k);
    }
  }

  lemma FirstsUpTo(bindings: seq<Binding>, members: set<nat>, n: nat, t: Trigger)
    requires n < |bindings|
    ensures HasFirst(bindings, members, n + 1, t) <==>
            (HasFirst(bindings, members, n, t)
             || (FirstOfKind(bindings, members, n) && SameKind(bindings[n].trigger, t)))
    ensures FirstBlocks(bindings, members, n + 1) <==>
            (FirstBlocks(bindings, members, n)
             || (FirstOfKind(bindings, members, n) && bindings[n].blockDefault))
  {}

  /** A binding that is not the first of its kind changes nothing. */
  lemma SkipGathers(bindings: seq<Binding>, members: set<nat>, n: nat, group: GroupArming<Action>)
    requires n < |bindings| && !FirstOfKind(bindings, members, n)
    requires Gathered(bindings, members, n, group)
    ensures Gathered(bindings, members, n + 1, group)
  {
    forall t: Trigger | Slot(group, t).Some? ensures HasFirst(bindings, members, n + 1, t) {
      FirstsUpTo(bindings, members, n, t);
    }
    FirstsUpTo(bindings, members, n, Immediate);
  }

  lemma JoinGathers(bindings: seq<Binding>, members: set<nat>, n: nat, group: GroupArming<Action>)
    requires n < |bindings| && FirstOfKind(bindings, members, n)
    requires Gathered(bindings, members, n, group)
    ensures Gathered(bindings, members, n + 1, Join(group, bindings[n]))
  {
    hide FirstOfKind, HasFirst, FirstBlocks, ArmsTheFirst, ArmsNoOther;
    NoneOfThatKind(bindings, members, n, group);
    var joined := Join(group, bindings[n]);
    JoinArmsTheFirst(bindings, members, n, group);
    JoinArmsNoOther(bindings, members, n, group);
    FirstsUpTo(bindings, members, n, Immediate);
    assert joined.block == (group.block || bindings[n].blockDefault);
  }

  lemma NoneOfThatKind(bindings: seq<Binding>, members: set<nat>, n: nat, group: GroupArming<Action>)
    requires n < |bindings| && FirstOfKind(bindings, members, n) && ArmsNoOther(bindings, members, n, group)
    ensures !bindings[n].trigger.Immediate? && Slot(group, bindings[n].trigger).None?
  {
    assert !HasFirst(bindings, members, n, bindings[n].trigger);
  }

  lemma JoinArmsTheFirst(bindings: seq<Binding>, members: set<nat>, n: nat, group: GroupArming<Action>)
    requires n < |bindings| && FirstOfKind(bindings, members, n)
    requires ArmsTheFirst(bindings, members, n, group) && Slot(group, bindings[n].trigger).None?
    ensures ArmsTheFirst(bindings, members, n + 1, Join(group, bindings[n]))
  {
    var b, joined := bindings[n], Join(group, bindings[n]);
    forall i: nat | i < n && FirstOfKind(bindings, members, i)
      ensures Slot(joined, bindings[i].trigger) == Slot(group, bindings[i].trigger)
    {
      assert !SameKind(bindings[i].trigger, b.trigger);
    }
  }

  lemma JoinArmsNoOther(bindings: seq<Binding>, members: set<nat>, n: nat, group: GroupArming<Action>)
    requires n < |bindings| && FirstOfKind(bindings, members, n)
    requires ArmsNoOther(bindings, members, n, group)
    ensures ArmsNoOther(bindings, members, n + 1, Join(group, bindings[n]))
  {
    hide FirstOfKind, HasFirst;
    forall t: Trigger | Slot(Join(group, bindings[n]), t).Some? ensures HasFirst(bindings, members, n + 1, t) {
      FirstsUpTo(bindings, members, n, t);
    }
  }

  lemma StepGathers(bindings: seq<Binding>, members: set<nat>, n: nat, group: GroupArming<Action>)
    requires n < |bindings|
    requires Gathered(bindings, members, n, group)
    ensures Gathered(bindings, members, n + 1, if n in members then Join(group, bindings[n]) else group)
  {
    if FirstOfKind(bindings, members, n) {
      JoinGathers(bindings, members, n, group);
    } else {
      SkipGathers(bindings, members, n, group);
      if n in members && !bindings[n].trigger.Immediate? {
        var i := FirstOfItsKind(bindings, members, n);
        assert Slot(group, bindings[i].trigger).Some?;
      }
    }
  }

  lemma {:induction false} GroupFromGathers(bindings: seq<Binding>, members: set<nat>, n: nat, group: GroupArming<Action>)
    requires n <= |bindings|
    requires Gathered(bindings, members, n, group)
    ensures Gathered(bindings, members, |bindings|, GroupFrom(bindings, members, n, group))
    decreases |bindings| - n
  {
    if n < |bindings| {
      StepGathers(bindings, members, n, group);
      GroupFromGathers(bindings, members, n + 1, if n in members then Join(group, bindings[n]) else group);
    }
  }

  lemma {:induction false} GroupFromKeepsKeys(bindings: seq<Binding>, members: set<nat>, n: nat, group: GroupArming<Action>)
    requires n <= |bindings|
    ensures GroupFrom(bindings, members, n, group).keys == group.keys
    ensures GroupFrom(bindings, members, n, group).condition == group.condition
    decreases |bindings| - n
  {
    if n < |bindings| {
      GroupFromKeepsKeys(bindings, members, n + 1, if n in members then Join(group, bindings[n]) else group);
    }
  }

  /** Scanning from the winner on misses no member of its group: the group is
      made of the first member of each kind in the whole list, and the
      winner's own kind is among them. */
  lemma GroupIsTheFirstOfEachKind(bindings: seq<Binding>, winner: nat, press: KeyDown)
    requires ElectOf(bindings, press) == Some(winner)
    ensures match DeferredGroupOf(bindings, winner, press)
            case Some(group) =>
              && group.keys == bindings[winner].kind.combo && group.condition == bindings[winner].condition
              && Gathered(bindings, MembersOf(bindings, winner, press), |bindings|, group)
              && Slot(group, bindings[winner].trigger).Some?
            case None => bindings[winner].trigger.Immediate?
  {
    ElectionFindsTheBest(bindings, press);
    assert IsBest(bindings, winner, CandidatesOf(press));
    var w, members := bindings[winner], MembersOf(bindings, winner, press);
    if !w.trigger.Immediate? {
      forall i: nat | i < winner ensures !FirstOfKind(bindings, members, i) {
        NoMemberBeforeTheWinner(bindings, winner, i, press);
      }
      GroupFromGathers(bindings, members, winner, NewGroup(w));
      GroupFromKeepsKeys(bindings, members, winner, NewGroup(w));
      var i := FirstOfItsKind(bindings, members, winner);
      assert Slot(DeferredGroupOf(bindings, winner, press).value, bindings[i].trigger).Some?;
    }
  }
}
