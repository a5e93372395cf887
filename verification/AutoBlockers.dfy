/** Auto-blockers: the bindings the loader adds so that Windows does not run
    its own hotkey beside the user's remap of it. */
module AutoBlockers {
  import opened Options
  import opened Modifiers
  import opened KeySpecs
  import opened Conditions
  import opened Bindings

  /** The Windows hotkey of an action's system function, if it has one. */
  type HotkeyOf = Action -> Option<KeyCombination>

  /** One binding's wish for a blocker. `fallbackOf` is the index of a MaskOnly
      binding that gets a swallowing blocker instead. */
  datatype Request = Request(hotkey: KeyCombination, mode: BlockerMode, condition: Condition, fallbackOf: Option<nat>)

  /** A MaskOnly whose hotkey was blocked by swallowing. */
  datatype Warning = Warning(index: nat, hotkey: KeyCombination)

  // ----- any of several conditions -----

  function Distinct(conditions: seq<Condition>): (distinct: seq<Condition>)
    ensures forall c :: c in distinct <==> c in conditions
  {
    if conditions == [] then [] else
    var n := |conditions| - 1;
    assert conditions == conditions[..n] + [conditions[n]];
    var earlier := Distinct(conditions[..n]);
    if conditions[n] in earlier then earlier else earlier + [conditions[n]]
  }

  function AnyOf(conditions: seq<Condition>): Condition {
    var distinct := Distinct(conditions);
    if Always in conditions || distinct == [] then Always
    else if |distinct| == 1 then distinct[0]
    else Or(distinct)
  }

  /** Folding the conditions into one keeps what they mean together. */
  lemma AnyOfHoldsWhereOneDoes(conditions: seq<Condition>, foreground: ForegroundInfo)
    ensures AnyOf(conditions).Evaluate(foreground) <==>
            conditions == [] || exists c :: c in conditions && c.Evaluate(foreground)
  {
    var distinct := Distinct(conditions);
    assert Always.Evaluate(foreground);
    if conditions != [] {
      assert conditions[0] in distinct;
    }
    if |distinct| == 1 {
      assert distinct == [distinct[0]];
      assert forall c :: c in conditions <==> c == distinct[0];
    }
  }

  method AnyOfConditions(conditions: seq<Condition>) returns (any: Condition)
    ensures any == AnyOf(conditions)
    ensures forall foreground :: any.Evaluate(foreground) <==>
              conditions == [] || exists c :: c in conditions && c.Evaluate(foreground)
  {
    var distinct: seq<Condition> := [];
    forall foreground
      ensures AnyOf(conditions).Evaluate(foreground) <==>
              conditions == [] || exists c :: c in conditions && c.Evaluate(foreground)
    {
      AnyOfHoldsWhereOneDoes(conditions, foreground);
    }
    for n := 0 to |conditions|
      invariant distinct == Distinct(conditions[..n])
      invariant Always !in conditions[..n]
    {
      if conditions[n] == Always {
        return Always;
      }
      assert conditions[..n + 1][..n] == conditions[..n];
      if conditions[n] !in distinct {
        distinct := distinct + [conditions[n]];
      }
    }
    assert conditions[..|conditions|] == conditions;
    match |distinct| {
      case 0 => any := Always;
      case 1 => any := distinct[0];
      case _ => any := Or(distinct);
    }
  }

  // ----- what the file asks for -----

  /** `MaskOnly` needs a hotkey made only of modifiers. */
  function EffectiveMode(requested: BlockerMode, hotkey: KeyCombination): BlockerMode {
    if requested == MaskOnly && !hotkey.IsModifierOnly() then Swallow else requested
  }

  predicate Asks(b: Binding, hotkeyOf: HotkeyOf) {
    b.blockOriginalCombo.Some? && hotkeyOf(b.action).Some?
  }

  function RequestOf(b: Binding, index: nat, hotkeyOf: HotkeyOf): Request
    requires Asks(b, hotkeyOf)
  {
    var hotkey := hotkeyOf(b.action).value;
    var mode := EffectiveMode(b.blockOriginalCombo.value, hotkey);
    Request(hotkey, mode, b.condition, if mode != b.blockOriginalCombo.value then Some(index) else None)
  }

  function RequestsOf(bindings: seq<Binding>, hotkeyOf: HotkeyOf): seq<Request> {
    if bindings == [] then [] else
    var n := |bindings| - 1;
    var earlier := RequestsOf(bindings[..n], hotkeyOf);
    if Asks(bindings[n], hotkeyOf) then earlier + [RequestOf(bindings[n], n, hotkeyOf)] else earlier
  }

  method Requests(bindings: seq<Binding>, hotkeyOf: HotkeyOf) returns (requests: seq<Request>)
    ensures requests == RequestsOf(bindings, hotkeyOf)
  {
    requests := [];
    for index := 0 to |bindings|
      invariant requests == RequestsOf(bindings[..index], hotkeyOf)
    {
      assert bindings[..index + 1][..index] == bindings[..index];
      var binding := bindings[index];
      if binding.blockOriginalCombo.None? {
        continue;
      }
      var hotkey := hotkeyOf(binding.action);
      if hotkey.None? {
        continue;
      }
      var requested := binding.blockOriginalCombo.value;
      if requested == MaskOnly && !hotkey.value.IsModifierOnly() {
        requests := requests + [Request(hotkey.value, Swallow, binding.condition, Some(index))];
      } else {
        requests := requests + [Request(hotkey.value, requested, binding.condition, None)];
      }
    }
    assert bindings[..|bindings|] == bindings;
  }

  // ----- the blockers -----

  predicate Listed(hotkeys: seq<KeyCombination>, hotkey: KeyCombination) {
    exists other :: other in hotkeys && other.SameAs(hotkey)
  }

  /** Each hotkey once, in the order first asked for. */
  function HotkeysOf(requests: seq<Request>): seq<KeyCombination> {
    if requests == [] then [] else
    var n := |requests| - 1;
    var earlier := HotkeysOf(requests[..n]);
    if Listed(earlier, requests[n].hotkey) then earlier else earlier + [requests[n].hotkey]
  }

  function ModesOf(requests: seq<Request>, hotkey: KeyCombination): seq<BlockerMode> {
    if requests == [] then [] else
    var n := |requests| - 1;
    var earlier := ModesOf(requests[..n], hotkey);
    if requests[n].hotkey.SameAs(hotkey) && requests[n].mode !in earlier then earlier + [requests[n].mode] else earlier
  }

  function OwnersOf(requests: seq<Request>, hotkey: KeyCombination, mode: BlockerMode): (owners: seq<Condition>)
    ensures forall c :: c in owners <==>
              exists r :: r in requests && r.hotkey.SameAs(hotkey) && r.mode == mode && r.condition == c
  {
    if requests == [] then [] else
    var n := |requests| - 1;
    assert requests == requests[..n] + [requests[n]];
    var earlier := OwnersOf(requests[..n], hotkey, mode);
    if requests[n].hotkey.SameAs(hotkey) && requests[n].mode == mode then earlier + [requests[n].condition] else earlier
  }

  /** A `keys` binding of the file uses exactly the hotkey's keys. */
  predicate TakenOver(bindings: seq<Binding>, hotkey: KeyCombination) {
    exists b :: b in bindings && b.kind.Combo? && b.kind.combo.SameAs(hotkey)
  }

  function Blocker(hotkey: KeyCombination, mode: BlockerMode, condition: Condition): Binding {
    Binding(Combo(hotkey), DoNothing, true, None, condition, Immediate, false, false, Some(mode))
  }

  function BlockersInModes(requests: seq<Request>, hotkey: KeyCombination, modes: seq<BlockerMode>): seq<Binding> {
    if modes == [] then [] else
    var n := |modes| - 1;
    BlockersInModes(requests, hotkey, modes[..n]) + [Blocker(hotkey, modes[n], AnyOf(OwnersOf(requests, hotkey, modes[n])))]
  }

  function BlockersOf(bindings: seq<Binding>, requests: seq<Request>, hotkeys: seq<KeyCombination>): seq<Binding> {
    if hotkeys == [] then [] else
    var n := |hotkeys| - 1;
    BlockersOf(bindings, requests, hotkeys[..n]) +
    if TakenOver(bindings, hotkeys[n]) then []
    else BlockersInModes(requests, hotkeys[n], ModesOf(requests, hotkeys[n]))
  }

  function Free(bindings: seq<Binding>, hotkeys: seq<KeyCombination>): seq<KeyCombination> {
    if hotkeys == [] then [] else
    var n := |hotkeys| - 1;
    Free(bindings, hotkeys[..n]) + if TakenOver(bindings, hotkeys[n]) then [] else [hotkeys[n]]
  }

  function WarningsOf(requests: seq<Request>, blocked: seq<KeyCombination>): seq<Warning> {
    if requests == [] then [] else
    var n := |requests| - 1;
    WarningsOf(requests[..n], blocked) +
    if requests[n].fallbackOf.Some? && Listed(blocked, requests[n].hotkey)
    then [Warning(requests[n].fallbackOf.value, requests[n].hotkey)] else []
  }

  function Expanded(bindings: seq<Binding>, hotkeyOf: HotkeyOf): seq<Binding> {
    var requests := RequestsOf(bindings, hotkeyOf);
    bindings + BlockersOf(bindings, requests, HotkeysOf(requests))
  }

  method Modes(requests: seq<Request>, hotkey: KeyCombination) returns (modes: seq<BlockerMode>)
    ensures modes == ModesOf(requests, hotkey)
  {
    modes := [];
    for n := 0 to |requests|
      invariant modes == ModesOf(requests[..n], hotkey)
    {
      assert requests[..n + 1][..n] == requests[..n];
      if requests[n].hotkey.SameAs(hotkey) && requests[n].mode !in modes {
        modes := modes + [requests[n].mode];
      }
    }
    assert requests[..|requests|] == requests;
  }

  method BlockHotkey(requests: seq<Request>, hotkey: KeyCombination) returns (blockers: seq<Binding>)
    ensures blockers == BlockersInModes(requests, hotkey, ModesOf(requests, hotkey))
  {
    hide AnyOf, OwnersOf, ModesOf, Condition.Evaluate;
    var modes := Modes(requests, hotkey);
    blockers := [];
    for m := 0 to |modes|
      invariant blockers == BlockersInModes(requests, hotkey, modes[..m])
    {
      assert modes[..m + 1][..m] == modes[..m];
      var any := AnyOfConditions(OwnersOf(requests, hotkey, modes[m]));
      blockers := blockers + [Blocker(hotkey, modes[m], any)];
    }
    assert modes[..|modes|] == modes;
  }

  method ExpandWithAutoBlockers(bindings: seq<Binding>, hotkeyOf: HotkeyOf)
    returns (expanded: seq<Binding>, warnings: seq<Warning>)
    ensures expanded == Expanded(bindings, hotkeyOf)
    ensures var requests := RequestsOf(bindings, hotkeyOf);
            warnings == WarningsOf(requests, Free(bindings, HotkeysOf(requests)))
  {
    var requests := Requests(bindings, hotkeyOf);
    var blockers: seq<Binding> := [];
    var seen: seq<KeyCombination> := [];
    var blocked: seq<KeyCombination> := [];
    for n := 0 to |requests|
      invariant seen == HotkeysOf(requests[..n])
      invariant blocked == Free(bindings, seen)
      invariant blockers == BlockersOf(bindings, requests, seen)
    {
      assert requests[..n + 1][..n] == requests[..n];
      var hotkey := requests[n].hotkey;
      if Listed(seen, hotkey) {
        continue;
      }
      assert (seen + [hotkey])[..|seen|] == seen;
      seen := seen + [hotkey];
      if TakenOver(bindings, hotkey) {
        continue;
      }
      blocked := blocked + [hotkey];
      var added := BlockHotkey(requests, hotkey);
      blockers := blockers + added;
    }
    assert requests[..|requests|] == requests;
    warnings := [];
    for n := 0 to |requests|
      invariant warnings == WarningsOf(requests[..n], blocked)
    {
      assert requests[..n + 1][..n] == requests[..n];
      if requests[n].fallbackOf.Some? && Listed(blocked, requests[n].hotkey) {
        warnings := warnings + [Warning(requests[n].fallbackOf.value, requests[n].hotkey)];
      }
    }
    assert requests[..|requests|] == requests;
    expanded := bindings + blockers;
  }

  // ----- what the expansion means -----

  /** No combination lists a key twice: the loader's promise for `keys`
      bindings and for the hotkeys of Windows. */
  ghost predicate WellFormed(bindings: seq<Binding>, hotkeyOf: HotkeyOf) {
    && (forall b :: b in bindings && b.kind.Combo? ==> b.kind.combo.NoDuplicates())
    && (forall b :: b in bindings && hotkeyOf(b.action).Some? ==> hotkeyOf(b.action).value.NoDuplicates())
  }

  ghost predicate AsksFor(b: Binding, hotkeyOf: HotkeyOf, hotkey: KeyCombination, mode: BlockerMode) {
    && Asks(b, hotkeyOf)
    && hotkeyOf(b.action).value.SameAs(hotkey)
    && EffectiveMode(b.blockOriginalCombo.value, hotkeyOf(b.action).value) == mode
  }

  ghost predicate Blocks(b: Binding, hotkey: KeyCombination, mode: BlockerMode) {
    b.kind.Combo? && b.kind.combo.SameAs(hotkey) && b.autoBlocker == Some(mode)
  }

  ghost function Count(bindings: seq<Binding>, hotkey: KeyCombination, mode: BlockerMode): nat {
    if bindings == [] then 0 else
    var n := |bindings| - 1;
    Count(bindings[..n], hotkey, mode) + if Blocks(bindings[n], hotkey, mode) then 1 else 0
  }

  lemma {:induction false} CountConcat(a: seq<Binding>, b: seq<Binding>, hotkey: KeyCombination, mode: BlockerMode)
    ensures Count(a + b, hotkey, mode) == Count(a, hotkey, mode) + Count(b, hotkey, mode)
  {
    if b == [] {
      assert a + b == a;
    } else {
      assert (a + b)[..|a| + |b| - 1] == a + b[..|b| - 1];
      CountConcat(a, b[..|b| - 1], hotkey, mode);
    }
  }

  /** Combinations without duplicates: equality of the source is one. */
  lemma SameAsTransfers(a: KeyCombination, b: KeyCombination, c: KeyCombination)
    requires a.NoDuplicates() && b.NoDuplicates() && c.NoDuplicates()
    ensures a.SameAs(b) <==> b.SameAs(a)
    ensures a.SameAs(b) ==> (a.SameAs(c) <==> b.SameAs(c)) && (c.SameAs(a) <==> c.SameAs(b))
  {
    hide KeyCombination.SameAs, KeySet, KeyCombination.NoDuplicates;
    SameAsIsSetEquality(a, b);
    SameAsIsSetEquality(b, a);
    SameAsIsSetEquality(a, c);
    SameAsIsSetEquality(b, c);
    SameAsIsSetEquality(c, a);
    SameAsIsSetEquality(c, b);
  }

  ghost predicate DistinctRequests(requests: seq<Request>) {
    forall r :: r in requests ==> r.hotkey.NoDuplicates()
  }

  ghost predicate PairwiseDistinct(hotkeys: seq<KeyCombination>) {
    && (forall h :: h in hotkeys ==> h.NoDuplicates())
    && (forall i, j :: 0 <= i < j < |hotkeys| ==> !hotkeys[i].SameAs(hotkeys[j]))
  }

  lemma {:induction false} HotkeysAreDistinct(requests: seq<Request>)
    requires DistinctRequests(requests)
    ensures PairwiseDistinct(HotkeysOf(requests))
  {
    hide KeyCombination.SameAs, KeyCombination.NoDuplicates;
    if requests != [] {
      var n := |requests| - 1;
      HotkeysAreDistinct(requests[..n]);
      assert requests[n] in requests;
    }
  }

  /** The listed hotkey that a request's hotkey is. */
  lemma {:induction false} HotkeyFor(requests: seq<Request>, r: Request) returns (own: KeyCombination)
    requires r in requests
    ensures own in HotkeysOf(requests) && own.SameAs(r.hotkey)
  {
    hide KeyCombination.SameAs;
    var n := |requests| - 1;
    if r in requests[..n] {
      own := HotkeyFor(requests[..n], r);
    } else if Listed(HotkeysOf(requests[..n]), r.hotkey) {
      own :| own in HotkeysOf(requests[..n]) && own.SameAs(r.hotkey);
    } else {
      own := r.hotkey;
      SameAsItself(own);
    }
  }

  lemma SameAsItself(a: KeyCombination)
    ensures a.SameAs(a)
  {}

  ghost predicate IsAsked(requests: seq<Request>, hotkey: KeyCombination, mode: BlockerMode) {
    exists r :: r in requests && r.hotkey.SameAs(hotkey) && r.mode == mode
  }

  lemma {:induction false} ModesAreAsked(requests: seq<Request>, hotkey: KeyCombination)
    ensures forall mode :: mode in ModesOf(requests, hotkey) <==> IsAsked(requests, hotkey, mode)
    ensures forall i, j :: 0 <= i < j < |ModesOf(requests, hotkey)| ==>
              ModesOf(requests, hotkey)[i] != ModesOf(requests, hotkey)[j]
  {
    hide KeyCombination.SameAs;
    if requests != [] {
      ModesAreAsked(requests[..|requests| - 1], hotkey);
      assert requests == requests[..|requests| - 1] + [requests[|requests| - 1]];
    }
  }

  lemma {:induction false} CountInModes(requests: seq<Request>, own: KeyCombination, modes: seq<BlockerMode>, hotkey: KeyCombination, mode: BlockerMode)
    requires forall i, j :: 0 <= i < j < |modes| ==> modes[i] != modes[j]
    ensures Count(BlockersInModes(requests, own, modes), hotkey, mode) == if own.SameAs(hotkey) && mode in modes then 1 else 0
  {
    hide KeyCombination.SameAs, AnyOf, OwnersOf;
    if modes != [] {
      var n := |modes| - 1;
      CountInModes(requests, own, modes[..n], hotkey, mode);
      var before := BlockersInModes(requests, own, modes[..n]);
      assert BlockersInModes(requests, own, modes)[..|before|] == before;
      assert modes == modes[..n] + [modes[n]];
    }
  }

  ghost predicate AnyServes(bindings: seq<Binding>, requests: seq<Request>, hotkeys: seq<KeyCombination>, hotkey: KeyCombination, mode: BlockerMode) {
    exists own :: own in hotkeys && Serves(bindings, requests, own, hotkey, mode)
  }

  ghost predicate Serves(bindings: seq<Binding>, requests: seq<Request>, own: KeyCombination, hotkey: KeyCombination, mode: BlockerMode) {
    own.SameAs(hotkey) && !TakenOver(bindings, own) && mode in ModesOf(requests, own)
  }

  lemma {:induction false} CountOverHotkeys(bindings: seq<Binding>, requests: seq<Request>, hotkeys: seq<KeyCombination>, hotkey: KeyCombination, mode: BlockerMode)
    requires PairwiseDistinct(hotkeys) && hotkey.NoDuplicates()
    ensures Count(BlockersOf(bindings, requests, hotkeys), hotkey, mode)
         == if AnyServes(bindings, requests, hotkeys, hotkey, mode) then 1 else 0
  {
    hide KeyCombination.SameAs, ModesOf, TakenOver, BlockersInModes, Count, KeyCombination.NoDuplicates;
    if hotkeys != [] {
      var n := |hotkeys| - 1;
      var own, earlier := hotkeys[n], hotkeys[..n];
      CountOverHotkeys(bindings, requests, earlier, hotkey, mode);
      var added := if TakenOver(bindings, own) then [] else BlockersInModes(requests, own, ModesOf(requests, own));
      CountConcat(BlockersOf(bindings, requests, earlier), added, hotkey, mode);
      ModesAreAsked(requests, own);
      CountInModes(requests, own, ModesOf(requests, own), hotkey, mode);
      NoneCounted(hotkey, mode);
      assert hotkeys == earlier + [own];
      forall other | other in earlier ensures !(other.SameAs(hotkey) && own.SameAs(hotkey)) {
        SameAsTransfers(own, hotkey, other);
        SameAsTransfers(hotkey, own, other);
        var i :| 0 <= i < n && hotkeys[i] == other;
        assert !hotkeys[i].SameAs(hotkeys[n]);
      }
      assert AnyServes(bindings, requests, hotkeys, hotkey, mode) <==>
             AnyServes(bindings, requests, earlier, hotkey, mode) || Serves(bindings, requests, own, hotkey, mode);
    } else {
      NoneCounted(hotkey, mode);
    }
  }

  lemma NoneCounted(hotkey: KeyCombination, mode: BlockerMode)
    ensures Count([], hotkey, mode) == 0
  {}

  /** What a request carries of the binding that made it. */
  ghost predicate Carries(r: Request, b: Binding, hotkeyOf: HotkeyOf) {
    && Asks(b, hotkeyOf)
    && r.hotkey == hotkeyOf(b.action).value
    && r.mode == EffectiveMode(b.blockOriginalCombo.value, r.hotkey)
    && r.condition == b.condition
  }

  lemma {:induction false} RequestFor(bindings: seq<Binding>, hotkeyOf: HotkeyOf, b: Binding) returns (r: Request)
    requires b in bindings && Asks(b, hotkeyOf)
    ensures r in RequestsOf(bindings, hotkeyOf) && Carries(r, b, hotkeyOf)
  {
    var n := |bindings| - 1;
    if b in bindings[..n] {
      r := RequestFor(bindings[..n], hotkeyOf, b);
    } else {
      r := RequestOf(b, n, hotkeyOf);
    }
  }

  lemma {:induction false} AskerOf(bindings: seq<Binding>, hotkeyOf: HotkeyOf, r: Request) returns (b: Binding)
    requires r in RequestsOf(bindings, hotkeyOf)
    ensures b in bindings && Carries(r, b, hotkeyOf)
  {
    var n := |bindings| - 1;
    if r in RequestsOf(bindings[..n], hotkeyOf) {
      b := AskerOf(bindings[..n], hotkeyOf, r);
    } else {
      b := bindings[n];
    }
  }

  lemma RequestsAreDistinct(bindings: seq<Binding>, hotkeyOf: HotkeyOf)
    requires WellFormed(bindings, hotkeyOf)
    ensures DistinctRequests(RequestsOf(bindings, hotkeyOf))
  {
    hide KeyCombination.NoDuplicates, RequestsOf;
    forall r | r in RequestsOf(bindings, hotkeyOf) ensures r.hotkey.NoDuplicates() {
      var b := AskerOf(bindings, hotkeyOf, r);
    }
  }

  lemma TakenOverTransfers(bindings: seq<Binding>, hotkeyOf: HotkeyOf, a: KeyCombination, b: KeyCombination)
    requires WellFormed(bindings, hotkeyOf) && a.NoDuplicates() && b.NoDuplicates() && a.SameAs(b)
    ensures TakenOver(bindings, a) <==> TakenOver(bindings, b)
  {
    hide KeyCombination.SameAs, KeyCombination.NoDuplicates;
    forall user | user in bindings && user.kind.Combo? ensures user.kind.combo.SameAs(a) <==> user.kind.combo.SameAs(b) {
      SameAsTransfers(a, b, user.kind.combo);
    }
  }

  ghost predicate SomeoneAsks(bindings: seq<Binding>, hotkeyOf: HotkeyOf, hotkey: KeyCombination, mode: BlockerMode) {
    exists b :: b in bindings && AsksFor(b, hotkeyOf, hotkey, mode)
  }

  lemma ServedWasAsked(bindings: seq<Binding>, hotkeyOf: HotkeyOf, own: KeyCombination, hotkey: KeyCombination, mode: BlockerMode)
    requires WellFormed(bindings, hotkeyOf) && own.NoDuplicates() && hotkey.NoDuplicates()
    requires Serves(bindings, RequestsOf(bindings, hotkeyOf), own, hotkey, mode)
    ensures SomeoneAsks(bindings, hotkeyOf, hotkey, mode) && !TakenOver(bindings, hotkey)
  {
    hide KeyCombination.SameAs, KeyCombination.NoDuplicates, TakenOver, RequestsOf, EffectiveMode, ModesOf;
    var requests := RequestsOf(bindings, hotkeyOf);
    ModesAreAsked(requests, own);
    TakenOverTransfers(bindings, hotkeyOf, own, hotkey);
    var r :| r in requests && r.hotkey.SameAs(own) && r.mode == mode;
    var b := AskerOf(bindings, hotkeyOf, r);
    SameAsTransfers(own, hotkey, r.hotkey);
    assert AsksFor(b, hotkeyOf, hotkey, mode);
  }

  lemma AskedIsServed(bindings: seq<Binding>, hotkeyOf: HotkeyOf, b: Binding, hotkey: KeyCombination, mode: BlockerMode)
    requires WellFormed(bindings, hotkeyOf) && hotkey.NoDuplicates() && !TakenOver(bindings, hotkey)
    requires b in bindings && AsksFor(b, hotkeyOf, hotkey, mode)
    ensures var requests := RequestsOf(bindings, hotkeyOf);
            AnyServes(bindings, requests, HotkeysOf(requests), hotkey, mode)
  {
    hide KeyCombination.SameAs, KeyCombination.NoDuplicates, TakenOver, HotkeysOf, RequestsOf, EffectiveMode, ModesOf;
    var requests := RequestsOf(bindings, hotkeyOf);
    RequestsAreDistinct(bindings, hotkeyOf);
    HotkeysAreDistinct(requests);
    var r := RequestFor(bindings, hotkeyOf, b);
    var own := HotkeyFor(requests, r);
    SameAsTransfers(own, r.hotkey, hotkey);
    SameAsTransfers(r.hotkey, own, hotkey);
    TakenOverTransfers(bindings, hotkeyOf, own, hotkey);
    ModesAreAsked(requests, own);
    assert IsAsked(requests, own, mode);
    assert Serves(bindings, requests, own, hotkey, mode);
  }

  /** Exactly one blocker for each hotkey and effective mode that a binding
      asks for and whose keys no `keys` binding uses; none for any other. */
  lemma OneBlockerPerHotkeyAndMode(bindings: seq<Binding>, hotkeyOf: HotkeyOf, hotkey: KeyCombination, mode: BlockerMode)
    requires WellFormed(bindings, hotkeyOf) && hotkey.NoDuplicates()
    ensures Count(Expanded(bindings, hotkeyOf)[|bindings|..], hotkey, mode)
         == if SomeoneAsks(bindings, hotkeyOf, hotkey, mode) && !TakenOver(bindings, hotkey) then 1 else 0
  {
    hide KeyCombination.SameAs, KeyCombination.NoDuplicates, TakenOver, BlockersOf, Count, HotkeysOf, RequestsOf, EffectiveMode, ModesOf, WellFormed, AsksFor, Serves;
    var requests := RequestsOf(bindings, hotkeyOf);
    var hotkeys := HotkeysOf(requests);
    assert Expanded(bindings, hotkeyOf)[|bindings|..] == BlockersOf(bindings, requests, hotkeys);
    RequestsAreDistinct(bindings, hotkeyOf);
    HotkeysAreDistinct(requests);
    CountOverHotkeys(bindings, requests, hotkeys, hotkey, mode);
    if own :| own in hotkeys && Serves(bindings, requests, own, hotkey, mode) {
      ServedWasAsked(bindings, hotkeyOf, own, hotkey, mode);
    }
    if b :| b in bindings && AsksFor(b, hotkeyOf, hotkey, mode) && !TakenOver(bindings, hotkey) {
      AskedIsServed(bindings, hotkeyOf, b, hotkey, mode);
    }
  }

  lemma {:induction false} BlockersAreBuilt(bindings: seq<Binding>, requests: seq<Request>, hotkeys: seq<KeyCombination>, blocker: Binding)
    requires blocker in BlockersOf(bindings, requests, hotkeys)
    ensures exists own, mode :: own in hotkeys && !TakenOver(bindings, own) && mode in ModesOf(requests, own)
                             && blocker == Blocker(own, mode, AnyOf(OwnersOf(requests, own, mode)))
  {
    hide TakenOver, ModesOf, AnyOf, OwnersOf;
    var n := |hotkeys| - 1;
    if blocker in BlockersOf(bindings, requests, hotkeys[..n]) {
      BlockersAreBuilt(bindings, requests, hotkeys[..n], blocker);
    } else {
      ModeBlockersAreBuilt(requests, hotkeys[n], ModesOf(requests, hotkeys[n]), blocker);
    }
  }

  lemma {:induction false} ModeBlockersAreBuilt(requests: seq<Request>, own: KeyCombination, modes: seq<BlockerMode>, blocker: Binding)
    requires blocker in BlockersInModes(requests, own, modes)
    ensures exists mode :: mode in modes && blocker == Blocker(own, mode, AnyOf(OwnersOf(requests, own, mode)))
  {
    var n := |modes| - 1;
    if blocker in BlockersInModes(requests, own, modes[..n]) {
      ModeBlockersAreBuilt(requests, own, modes[..n], blocker);
    }
  }

  /** What a blocker is and where it acts: it swallows or masks a hotkey that
      some binding asked for and none takes over, fires nothing, masks only a
      hotkey made of modifiers, and its condition is true in a foreground
      exactly when that of a binding that asked for it is. */
  lemma BlockerActsForItsOwners(bindings: seq<Binding>, hotkeyOf: HotkeyOf, blocker: Binding, foreground: ForegroundInfo)
    requires WellFormed(bindings, hotkeyOf)
    requires blocker in Expanded(bindings, hotkeyOf)[|bindings|..]
    ensures blocker.kind.Combo? && blocker.autoBlocker.Some? && blocker.action == DoNothing
    ensures !TakenOver(bindings, blocker.kind.combo)
    ensures blocker.autoBlocker == Some(MaskOnly) ==> blocker.kind.combo.IsModifierOnly()
    ensures blocker.condition.Evaluate(foreground) <==>
            exists b :: b in bindings && AsksFor(b, hotkeyOf, blocker.kind.combo, blocker.autoBlocker.value)
                     && b.condition.Evaluate(foreground)
  {
    hide KeyCombination.SameAs, KeyCombination.NoDuplicates, TakenOver, BlockersOf, HotkeysOf, RequestsOf, ModesOf, AnyOf, OwnersOf, KeyCombination.IsModifierOnly;
    var requests := RequestsOf(bindings, hotkeyOf);
    var hotkeys := HotkeysOf(requests);
    assert Expanded(bindings, hotkeyOf)[|bindings|..] == BlockersOf(bindings, requests, hotkeys);
    BlockersAreBuilt(bindings, requests, hotkeys, blocker);
    var own, mode := blocker.kind.combo, blocker.autoBlocker.value;
    ModesAreAsked(requests, own);
    OwnersSpeak(bindings, hotkeyOf, own, mode, foreground);
    if mode == MaskOnly {
      RequestsAreDistinct(bindings, hotkeyOf);
      HotkeysAreDistinct(requests);
      MasksOnlyModifiers(bindings, hotkeyOf, own);
    }
  }

  /** A MaskOnly is only ever asked for a hotkey made of modifiers. */
  lemma MasksOnlyModifiers(bindings: seq<Binding>, hotkeyOf: HotkeyOf, own: KeyCombination)
    requires WellFormed(bindings, hotkeyOf) && own.NoDuplicates()
    requires IsAsked(RequestsOf(bindings, hotkeyOf), own, MaskOnly)
    ensures own.IsModifierOnly()
  {
    hide KeyCombination.SameAs, KeyCombination.NoDuplicates, RequestsOf, KeyCombination.IsModifierOnly;
    var r :| r in RequestsOf(bindings, hotkeyOf) && r.hotkey.SameAs(own) && r.mode == MaskOnly;
    var b := AskerOf(bindings, hotkeyOf, r);
    SameKeysSameFamily(r.hotkey, own);
  }

  /** The owners' conditions, folded into one, are those of the askers. */
  lemma OwnersSpeak(bindings: seq<Binding>, hotkeyOf: HotkeyOf, own: KeyCombination, mode: BlockerMode, foreground: ForegroundInfo)
    requires IsAsked(RequestsOf(bindings, hotkeyOf), own, mode)
    ensures AnyOf(OwnersOf(RequestsOf(bindings, hotkeyOf), own, mode)).Evaluate(foreground) <==>
            exists b :: b in bindings && AsksFor(b, hotkeyOf, own, mode) && b.condition.Evaluate(foreground)
  {
    hide KeyCombination.SameAs, RequestsOf, AnyOf, OwnersOf, EffectiveMode, Condition.Evaluate;
    var requests := RequestsOf(bindings, hotkeyOf);
    var owners := OwnersOf(requests, own, mode);
    AnyOfHoldsWhereOneDoes(owners, foreground);
    var asked :| asked in requests && asked.hotkey.SameAs(own) && asked.mode == mode;
    assert asked.condition in owners;
    if c :| c in owners && c.Evaluate(foreground) {
      var r :| r in requests && r.hotkey.SameAs(own) && r.mode == mode && r.condition == c;
      var b := AskerOf(bindings, hotkeyOf, r);
      assert AsksFor(b, hotkeyOf, own, mode);
    }
    if b :| b in bindings && AsksFor(b, hotkeyOf, own, mode) && b.condition.Evaluate(foreground) {
      var r := RequestFor(bindings, hotkeyOf, b);
      assert b.condition in owners;
    }
  }

  lemma SameKeysSameFamily(a: KeyCombination, b: KeyCombination)
    requires a.NoDuplicates() && b.NoDuplicates() && a.SameAs(b)
    ensures a.IsModifierOnly() ==> b.IsModifierOnly()
  {
    SameAsIsSetEquality(a, b);
    assert forall key :: key in b.keys ==> key in KeySet(a.keys);
  }

  // ----- the warnings -----

  /** Binding `index` asks for a MaskOnly that its hotkey cannot have. */
  ghost predicate FallsBack(bindings: seq<Binding>, hotkeyOf: HotkeyOf, index: nat, hotkey: KeyCombination) {
    && index < |bindings| && Asks(bindings[index], hotkeyOf)
    && hotkeyOf(bindings[index].action) == Some(hotkey)
    && bindings[index].blockOriginalCombo == Some(MaskOnly) && !hotkey.IsModifierOnly()
  }

  ghost predicate HasFallback(requests: seq<Request>, index: nat, hotkey: KeyCombination) {
    exists r :: r in requests && r.fallbackOf == Some(index) && r.hotkey == hotkey
  }

  lemma {:induction false} FallbacksAreRequested(bindings: seq<Binding>, hotkeyOf: HotkeyOf, index: nat, hotkey: KeyCombination)
    ensures HasFallback(RequestsOf(bindings, hotkeyOf), index, hotkey) <==> FallsBack(bindings, hotkeyOf, index, hotkey)
  {
    hide KeyCombination.IsModifierOnly;
    if bindings != [] {
      var n := |bindings| - 1;
      var earlier := RequestsOf(bindings[..n], hotkeyOf);
      FallbacksAreRequested(bindings[..n], hotkeyOf, index, hotkey);
      if Asks(bindings[n], hotkeyOf) {
        var r := RequestOf(bindings[n], n, hotkeyOf);
        assert HasFallback(earlier + [r], index, hotkey) <==>
               HasFallback(earlier, index, hotkey) || (r.fallbackOf == Some(index) && r.hotkey == hotkey);
      }
    }
  }

  lemma {:induction false} WarningsAreOfFallbacks(requests: seq<Request>, blocked: seq<KeyCombination>, index: nat, hotkey: KeyCombination)
    ensures Warning(index, hotkey) in WarningsOf(requests, blocked) <==>
            HasFallback(requests, index, hotkey) && Listed(blocked, hotkey)
  {
    hide Listed;
    if requests != [] {
      var n := |requests| - 1;
      WarningsAreOfFallbacks(requests[..n], blocked, index, hotkey);
      assert requests == requests[..n] + [requests[n]];
      assert HasFallback(requests, index, hotkey) <==>
             HasFallback(requests[..n], index, hotkey) || (requests[n].fallbackOf == Some(index) && requests[n].hotkey == hotkey);
    }
  }

  lemma {:induction false} FreeAreNotTaken(bindings: seq<Binding>, hotkeys: seq<KeyCombination>)
    ensures forall h :: h in Free(bindings, hotkeys) <==> h in hotkeys && !TakenOver(bindings, h)
  {
    hide TakenOver;
    if hotkeys != [] {
      FreeAreNotTaken(bindings, hotkeys[..|hotkeys| - 1]);
      assert hotkeys == hotkeys[..|hotkeys| - 1] + [hotkeys[|hotkeys| - 1]];
    }
  }

  /** The loader warns of exactly the MaskOnly wishes that it serves by
      swallowing: none of a hotkey that a `keys` binding takes over. */
  lemma WarnsWhereMaskOnlyFallsBack(bindings: seq<Binding>, hotkeyOf: HotkeyOf, index: nat, hotkey: KeyCombination)
    requires WellFormed(bindings, hotkeyOf)
    ensures var requests := RequestsOf(bindings, hotkeyOf);
            Warning(index, hotkey) in WarningsOf(requests, Free(bindings, HotkeysOf(requests))) <==>
            FallsBack(bindings, hotkeyOf, index, hotkey) && !TakenOver(bindings, hotkey)
  {
    hide KeyCombination.SameAs, KeyCombination.NoDuplicates, TakenOver, HotkeysOf, RequestsOf, WarningsOf, Free, KeyCombination.IsModifierOnly;
    var requests := RequestsOf(bindings, hotkeyOf);
    var hotkeys := HotkeysOf(requests);
    WarningsAreOfFallbacks(requests, Free(bindings, hotkeys), index, hotkey);
    FallbacksAreRequested(bindings, hotkeyOf, index, hotkey);
    FreeAreNotTaken(bindings, hotkeys);
    if r :| r in requests && r.fallbackOf == Some(index) && r.hotkey == hotkey {
      RequestsAreDistinct(bindings, hotkeyOf);
      HotkeysAreDistinct(requests);
      var own := HotkeyFor(requests, r);
      TakenOverTransfers(bindings, hotkeyOf, own, hotkey);
      forall h | h in hotkeys && h.SameAs(hotkey) ensures TakenOver(bindings, h) <==> TakenOver(bindings, hotkey) {
        TakenOverTransfers(bindings, hotkeyOf, h, hotkey);
      }
    }
  }
}
