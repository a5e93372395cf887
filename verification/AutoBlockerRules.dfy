/** Which blockers the loader adds and what it warns of, read off the fields of the file's bindings. */
module AutoBlockerRules {
  import opened Options
  import opened Modifiers
  import opened KeySpecs
  import opened Conditions
  import opened Bindings
  import opened MatchingRules
  import opened AutoBlockers

  /** Every key is a modifier. */
  ghost predicate OnlyModifiers(keys: set<KeySpec>) {
    forall key :: key in keys ==> IsModifierKey(key)
  }

  /** The binding asks for a blocker of the hotkey with these keys: it says
      `block_original_combo`, and its action has that hotkey in Windows. The
      blocker masks if that is asked for and the keys are all modifiers; else
      it swallows. */
  ghost predicate Wishes(b: Binding, hotkeyOf: HotkeyOf, keys: set<KeySpec>, mode: BlockerMode) {
    && b.blockOriginalCombo.Some?
    && hotkeyOf(b.action).Some? && KeySet(hotkeyOf(b.action).value.keys) == keys
    && (mode == MaskOnly <==> b.blockOriginalCombo.value == MaskOnly && OnlyModifiers(keys))
  }

  ghost predicate IsWished(bindings: seq<Binding>, hotkeyOf: HotkeyOf, keys: set<KeySpec>, mode: BlockerMode) {
    exists b :: b in bindings && Wishes(b, hotkeyOf, keys, mode)
  }

  /** A `keys` binding of the file uses these keys itself. */
  ghost predicate UsesKeys(b: Binding, keys: set<KeySpec>) {
    b.kind.Combo? && KeySet(b.kind.combo.keys) == keys
  }

  ghost predicate IsUsed(bindings: seq<Binding>, keys: set<KeySpec>) {
    exists b :: b in bindings && UsesKeys(b, keys)
  }

  lemma OnlyModifiersMeans(hotkey: KeyCombination)
    ensures hotkey.IsModifierOnly() <==> OnlyModifiers(KeySet(hotkey.keys))
  {
    hide KeySpec.Family, IsModifierKey;
    forall key: KeySpec ensures key.Family().Some? <==> IsModifierKey(key) {
      FamilyIsModifier(key);
    }
    assert forall key :: key in hotkey.keys <==> key in KeySet(hotkey.keys);
  }

  lemma AskingMeans(b: Binding, hotkeyOf: HotkeyOf, hotkey: KeyCombination, mode: BlockerMode)
    requires hotkey.NoDuplicates() && (hotkeyOf(b.action).Some? ==> hotkeyOf(b.action).value.NoDuplicates())
    ensures AsksFor(b, hotkeyOf, hotkey, mode) <==> Wishes(b, hotkeyOf, KeySet(hotkey.keys), mode)
  {
    hide KeyCombination.SameAs, KeyCombination.NoDuplicates, KeySet, KeyCombination.IsModifierOnly, OnlyModifiers;
    if hotkeyOf(b.action).Some? {
      SameAsIsSetEquality(hotkeyOf(b.action).value, hotkey);
      OnlyModifiersMeans(hotkeyOf(b.action).value);
    }
  }

  lemma SomeoneAsksMeans(bindings: seq<Binding>, hotkeyOf: HotkeyOf, hotkey: KeyCombination, mode: BlockerMode)
    requires WellFormed(bindings, hotkeyOf) && hotkey.NoDuplicates()
    ensures SomeoneAsks(bindings, hotkeyOf, hotkey, mode) <==> IsWished(bindings, hotkeyOf, KeySet(hotkey.keys), mode)
  {
    hide AsksFor, Wishes, KeySet, KeyCombination.NoDuplicates;
    forall b | b in bindings ensures AsksFor(b, hotkeyOf, hotkey, mode) <==> Wishes(b, hotkeyOf, KeySet(hotkey.keys), mode) {
      AskingMeans(b, hotkeyOf, hotkey, mode);
    }
  }

  lemma TakenOverMeans(bindings: seq<Binding>, hotkeyOf: HotkeyOf, hotkey: KeyCombination)
    requires WellFormed(bindings, hotkeyOf) && hotkey.NoDuplicates()
    ensures TakenOver(bindings, hotkey) <==> IsUsed(bindings, KeySet(hotkey.keys))
  {
    hide KeyCombination.SameAs, KeySet, KeyCombination.NoDuplicates;
    forall b | b in bindings && b.kind.Combo? ensures b.kind.combo.SameAs(hotkey) <==> KeySet(b.kind.combo.keys) == KeySet(hotkey.keys) {
      SameAsIsSetEquality(b.kind.combo, hotkey);
    }
    if b :| b in bindings && b.kind.Combo? && b.kind.combo.SameAs(hotkey) {
      assert UsesKeys(b, KeySet(hotkey.keys));
    }
  }

  /** Place `i` of the expanded list holds a blocker of these keys and mode. */
  ghost predicate IsBlockerAt(expanded: seq<Binding>, i: nat, keys: set<KeySpec>, mode: BlockerMode) {
    i < |expanded| && UsesKeys(expanded[i], keys) && expanded[i].autoBlocker == Some(mode)
  }

  /** A hotkey that is blocked lists no key twice. */
  lemma BlockedIsDistinct(bindings: seq<Binding>, hotkeyOf: HotkeyOf, blocker: Binding)
    requires WellFormed(bindings, hotkeyOf) && blocker in Expanded(bindings, hotkeyOf)[|bindings|..]
    ensures blocker.kind.Combo? && blocker.kind.combo.NoDuplicates()
    ensures blocker.trigger.Immediate? && blocker.blockOriginalCombo == None
  {
    hide KeyCombination.SameAs, KeyCombination.NoDuplicates, TakenOver, BlockersOf, HotkeysOf, RequestsOf, ModesOf, AnyOf, OwnersOf, WellFormed;
    var requests := RequestsOf(bindings, hotkeyOf);
    assert Expanded(bindings, hotkeyOf)[|bindings|..] == BlockersOf(bindings, requests, HotkeysOf(requests));
    BlockersAreBuilt(bindings, requests, HotkeysOf(requests), blocker);
    RequestsAreDistinct(bindings, hotkeyOf);
    HotkeysAreDistinct(requests);
  }

  lemma {:induction false} NoneOrOne(added: seq<Binding>, hotkey: KeyCombination, mode: BlockerMode)
    ensures Count(added, hotkey, mode) == 0 <==> forall i :: 0 <= i < |added| ==> !Blocks(added[i], hotkey, mode)
    ensures Count(added, hotkey, mode) <= 1 ==>
            forall i, j :: 0 <= i < j < |added| ==> !(Blocks(added[i], hotkey, mode) && Blocks(added[j], hotkey, mode))
  {
    hide Blocks;
    if added != [] {
      var n := |added| - 1;
      NoneOrOne(added[..n], hotkey, mode);
      assert forall i :: 0 <= i < n ==> added[..n][i] == added[i];
    }
  }

  lemma BlockingMeans(bindings: seq<Binding>, hotkeyOf: HotkeyOf, hotkey: KeyCombination, mode: BlockerMode, i: nat)
    requires WellFormed(bindings, hotkeyOf) && hotkey.NoDuplicates()
    requires |bindings| <= i < |Expanded(bindings, hotkeyOf)|
    ensures var expanded := Expanded(bindings, hotkeyOf);
            Blocks(expanded[i], hotkey, mode) <==> IsBlockerAt(expanded, i, KeySet(hotkey.keys), mode)
  {
    hide Expanded, KeyCombination.NoDuplicates, KeySet, KeyCombination.SameAs, WellFormed;
    var added := Expanded(bindings, hotkeyOf)[|bindings|..];
    var blocker := added[i - |bindings|];
    BlockedIsDistinct(bindings, hotkeyOf, blocker);
    SameAsIsSetEquality(blocker.kind.combo, hotkey);
  }

  /** The file's own bindings come first, as they were. Among the added ones
      there is a blocker of a hotkey's keys in a mode iff a binding wishes for
      that and no `keys` binding of the file uses the keys; and then just one. */
  lemma OneBlockerForEachWish(bindings: seq<Binding>, hotkeyOf: HotkeyOf, hotkey: KeyCombination, mode: BlockerMode)
    requires WellFormed(bindings, hotkeyOf) && hotkey.NoDuplicates()
    ensures var expanded, keys := Expanded(bindings, hotkeyOf), KeySet(hotkey.keys);
            && |bindings| <= |expanded| && expanded[..|bindings|] == bindings
            && ((exists i: nat :: |bindings| <= i && IsBlockerAt(expanded, i, keys, mode)) <==>
                IsWished(bindings, hotkeyOf, keys, mode) && !IsUsed(bindings, keys))
            && (forall i: nat, j: nat :: |bindings| <= i < j ==> !(IsBlockerAt(expanded, i, keys, mode) && IsBlockerAt(expanded, j, keys, mode)))
  {
    hide IsBlockerAt, Blocks, KeyCombination.NoDuplicates, KeySet, IsWished, IsUsed, SomeoneAsks, TakenOver, WellFormed, Count, BlockersOf;
    var expanded, keys, n := Expanded(bindings, hotkeyOf), KeySet(hotkey.keys), |bindings|;
    var added := expanded[n..];
    OneBlockerPerHotkeyAndMode(bindings, hotkeyOf, hotkey, mode);
    SomeoneAsksMeans(bindings, hotkeyOf, hotkey, mode);
    TakenOverMeans(bindings, hotkeyOf, hotkey);
    NoneOrOne(added, hotkey, mode);
    forall i: nat | n <= i ensures IsBlockerAt(expanded, i, keys, mode) <==> i < |expanded| && Blocks(added[i - n], hotkey, mode) {
      if i < |expanded| {
        BlockingMeans(bindings, hotkeyOf, hotkey, mode, i);
      } else {
        OutsideIsNone(expanded, i, keys, mode);
      }
    }
    if k :| 0 <= k < |added| && Blocks(added[k], hotkey, mode) {
      assert IsBlockerAt(expanded, n + k, keys, mode);
    }
  }

  lemma OutsideIsNone(expanded: seq<Binding>, i: nat, keys: set<KeySpec>, mode: BlockerMode)
    requires i >= |expanded|
    ensures !IsBlockerAt(expanded, i, keys, mode)
  {}

  /** What an added binding is: immediate, it fires nothing and asks for no
      blocker itself, and its `when:` is true in a
      foreground exactly when that of a binding that wishes for it is. */
  lemma BlockerServesItsWishes(bindings: seq<Binding>, hotkeyOf: HotkeyOf, blocker: Binding, foreground: ForegroundInfo)
    requires WellFormed(bindings, hotkeyOf) && blocker in Expanded(bindings, hotkeyOf)[|bindings|..]
    ensures blocker.kind.Combo? && blocker.autoBlocker.Some? && blocker.action == DoNothing
    ensures blocker.trigger.Immediate? && blocker.blockOriginalCombo == None
    ensures var keys, mode := KeySet(blocker.kind.combo.keys), blocker.autoBlocker.value;
            && !IsUsed(bindings, keys)
            && (blocker.condition.Evaluate(foreground) <==>
                exists b :: b in bindings && Wishes(b, hotkeyOf, keys, mode) && b.condition.Evaluate(foreground))
  {
    hide Expanded, KeyCombination.NoDuplicates, KeySet, Wishes, AsksFor, IsUsed, TakenOver, Condition.Evaluate;
    BlockerActsForItsOwners(bindings, hotkeyOf, blocker, foreground);
    BlockedIsDistinct(bindings, hotkeyOf, blocker);
    var hotkey, mode := blocker.kind.combo, blocker.autoBlocker.value;
    TakenOverMeans(bindings, hotkeyOf, hotkey);
    forall b | b in bindings ensures AsksFor(b, hotkeyOf, hotkey, mode) <==> Wishes(b, hotkeyOf, KeySet(hotkey.keys), mode) {
      AskingMeans(b, hotkeyOf, hotkey, mode);
    }
  }

  /** The loader warns of binding `index` iff it wishes for a MaskOnly of a
      hotkey with a key that is no modifier, and no `keys` binding uses the
      hotkey's keys. */
  lemma WarningMeans(bindings: seq<Binding>, hotkeyOf: HotkeyOf, index: nat, hotkey: KeyCombination)
    requires WellFormed(bindings, hotkeyOf)
    ensures var requests := RequestsOf(bindings, hotkeyOf);
            Warning(index, hotkey) in WarningsOf(requests, Free(bindings, HotkeysOf(requests))) <==>
            && index < |bindings|
            && bindings[index].blockOriginalCombo == Some(MaskOnly) && hotkeyOf(bindings[index].action) == Some(hotkey)
            && !OnlyModifiers(KeySet(hotkey.keys)) && !IsUsed(bindings, KeySet(hotkey.keys))
  {
    hide KeySet, OnlyModifiers, IsUsed, TakenOver, RequestsOf, WarningsOf, Free, HotkeysOf, KeyCombination.NoDuplicates, KeyCombination.IsModifierOnly;
    WarnsWhereMaskOnlyFallsBack(bindings, hotkeyOf, index, hotkey);
    OnlyModifiersMeans(hotkey);
    if index < |bindings| && hotkeyOf(bindings[index].action) == Some(hotkey) {
      assert bindings[index] in bindings;
      TakenOverMeans(bindings, hotkeyOf, hotkey);
    }
  }
}
