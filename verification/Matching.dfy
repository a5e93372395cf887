/** How a binding's keys are compared with the keys held. */
module Matching {
  import opened Options
  import opened Modifiers
  import opened KeySpecs

  predicate IsDown(held: Flags, key: KeySpec) {
    match key
    case Key(vk) => Flag(held, vk)
    case AnySide(m) =>
      || Flag(held, m.Left())
      || Flag(held, m.Right())
      || (m.Generic().Some? && Flag(held, m.Generic().value))
  }

  function HeldFamilies(held: Flags): set<Modifier> {
    set m | m in FAMILIES && IsDown(held, AnySide(m))
  }

  predicate KeysDown(combo: KeyCombination, held: Flags) {
    forall key :: key in combo.keys ==> IsDown(held, key)
  }

  /** The modifiers of a combination with a payload key never trigger it. */
  predicate IsTriggerKey(combo: KeyCombination, pressed: Vk) {
    exists key :: key in combo.keys && key.Accepts(pressed) && (key.Family().None? || combo.IsModifierOnly())
  }

  predicate ComboMatches(combo: KeyCombination, pressed: Vk, held: Flags, allowExtraModifiers: bool) {
    && IsTriggerKey(combo, pressed)
    && KeysDown(combo, held)
    && (allowExtraModifiers || HeldFamilies(held) == combo.Families())
  }

  /** Windows would see the hotkey and nothing else. */
  predicate BlockerMatches(combo: KeyCombination, pressed: Vk, held: Flags, windowsHasDown: Vk -> bool) {
    && IsTriggerKey(combo, pressed)
    && KeysDown(combo, held)
    && forall vk: Vk :: vk < 256 && held[vk] ==>
         (exists key :: key in combo.keys && key.Accepts(vk)) || !windowsHasDown(vk)
  }

  lemma IsDownMeansAcceptedCodeHeld(held: Flags, key: KeySpec)
    ensures IsDown(held, key) <==> exists vk: Vk :: key.Accepts(vk) && Flag(held, vk)
  {
    if IsDown(held, key) && key.AnySide? {
      var m := key.family;
      var vk := if Flag(held, m.Left()) then m.Left() else if Flag(held, m.Right()) then m.Right() else m.Generic().value;
      assert key.Accepts(vk) && Flag(held, vk);
    }
  }

  /** Matching does not depend on the order in which a combination is written. */
  lemma MatchingIgnoresOrder(a: KeyCombination, b: KeyCombination, pressed: Vk, held: Flags, extra: bool)
    requires a.NoDuplicates() && b.NoDuplicates() && a.SameAs(b)
    ensures KeysDown(a, held) == KeysDown(b, held)
    ensures ComboMatches(a, pressed, held, extra) == ComboMatches(b, pressed, held, extra)
  {
    SameAsIsSetEquality(a, b);
    assert forall key :: key in a.keys <==> key in KeySet(a.keys);
    assert forall key :: key in b.keys <==> key in KeySet(b.keys);
    assert a.IsModifierOnly() == b.IsModifierOnly();
    forall m ensures m in a.Families() <==> m in b.Families() {}
    assert a.Families() == b.Families();
  }
}
