/** What matching means, in held codes and the codes that keys accept. */
module MatchingRules {
  import opened Options
  import opened Modifiers
  import opened KeySpecs
  import opened Matching

  /** The codes of one physical modifier, either side and generic. */
  const FAMILY_CODES: seq<set<Vk>> := [
    {VK_SHIFT, VK_LSHIFT, VK_RSHIFT}, {VK_CONTROL, VK_LCONTROL, VK_RCONTROL},
    {VK_MENU, VK_LMENU, VK_RMENU}, {VK_LWIN, VK_RWIN}
  ]

  ghost predicate SameFamily(a: Vk, b: Vk) {
    exists i :: 0 <= i < |FAMILY_CODES| && a in FAMILY_CODES[i] && b in FAMILY_CODES[i]
  }

  /** An unsided key accepts exactly the codes of its family. */
  lemma UnsidedAcceptsItsFamily(m: Modifier, vk: Vk)
    ensures KeySpec.AnySide(m).Accepts(vk) <==>
            vk in FAMILY_CODES[match m case Shift => 0 case Ctrl => 1 case Alt => 2 case Win => 3]
  {}

  lemma SameFamilyIsAModifier(a: Vk, b: Vk)
    ensures SameFamily(a, b) <==> exists m :: KeySpec.AnySide(m).Accepts(a) && KeySpec.AnySide(m).Accepts(b)
  {
    if i :| 0 <= i < |FAMILY_CODES| && a in FAMILY_CODES[i] && b in FAMILY_CODES[i] {
      var m := if i == 0 then Shift else if i == 1 then Ctrl else if i == 2 then Alt else Win;
      UnsidedAcceptsItsFamily(m, a);
      UnsidedAcceptsItsFamily(m, b);
      assert KeySpec.AnySide(m).Accepts(a) && KeySpec.AnySide(m).Accepts(b);
    }
    if m :| KeySpec.AnySide(m).Accepts(a) && KeySpec.AnySide(m).Accepts(b) {
      UnsidedAcceptsItsFamily(m, a);
      UnsidedAcceptsItsFamily(m, b);
    }
  }

  /** The modifier codes are those of some family, and the menu codes those of
      Alt and Win, sided and generic. */
  lemma ModifierCodesAreTheFamilies(vk: Vk)
    ensures vk in ALL <==> exists m :: KeySpec.AnySide(m).Accepts(vk)
    ensures vk in MENU <==> KeySpec.AnySide(Alt).Accepts(vk) || KeySpec.AnySide(Win).Accepts(vk)
    ensures vk in GENERIC <==> vk in ALL && vk !in SIDED
  {
    if vk in ALL {
      assert KeySpec.AnySide(FamilyOf(vk).value).Accepts(vk);
    }
  }

  /** A key that accepts no code but a modifier's. */
  ghost predicate IsModifierKey(key: KeySpec) {
    forall vk: Vk :: key.Accepts(vk) ==> vk in ALL
  }

  /** A code that the key accepts is held. */
  ghost predicate IsHeld(key: KeySpec, held: Flags) {
    exists vk: Vk :: vk < 256 && held[vk] && key.Accepts(vk)
  }

  /** The pressed code is one of a payload key; or of any key, if all are
      modifiers. */
  ghost predicate Triggers(keys: seq<KeySpec>, pressed: Vk) {
    exists key :: key in keys && key.Accepts(pressed) && (!IsModifierKey(key) || forall k :: k in keys ==> IsModifierKey(k))
  }

  /** Some key accepts a code of the same modifier as `c`. */
  ghost predicate NamesFamily(keys: seq<KeySpec>, c: Vk) {
    exists key, a: Vk :: key in keys && key.Accepts(a) && SameFamily(c, a)
  }

  lemma FamilyIsModifier(key: KeySpec)
    ensures key.Family().Some? <==> IsModifierKey(key)
  {
    if key.Key? && IsModifierKey(key) {
      assert key.Accepts(key.vk);
    }
  }

  /** A key is of a family iff a code it accepts is. */
  lemma FamilyIsShared(key: KeySpec, m: Modifier)
    ensures key.Family() == Some(m) <==> exists a: Vk :: key.Accepts(a) && KeySpec.AnySide(m).Accepts(a)
  {
    match key
    case AnySide(own) =>
      assert key.Accepts(own.Left());
      if a: Vk :| key.Accepts(a) && KeySpec.AnySide(m).Accepts(a) {
        assert own == m;
      }
    case Key(vk) => assert key.Accepts(vk);
  }

  lemma HeldIsDown(key: KeySpec, held: Flags)
    ensures IsDown(held, key) <==> IsHeld(key, held)
  {
    IsDownMeansAcceptedCodeHeld(held, key);
  }

  lemma TriggerMeans(combo: KeyCombination, pressed: Vk)
    ensures IsTriggerKey(combo, pressed) <==> Triggers(combo.keys, pressed)
  {
    hide KeySpec.Accepts, KeySpec.Family, IsModifierKey;
    forall key: KeySpec ensures key.Family().Some? <==> IsModifierKey(key) {
      FamilyIsModifier(key);
    }
  }

  lemma KeysDownMeans(combo: KeyCombination, held: Flags)
    ensures KeysDown(combo, held) <==> forall key :: key in combo.keys ==> IsHeld(key, held)
  {
    forall key: KeySpec ensures IsDown(held, key) <==> IsHeld(key, held) {
      HeldIsDown(key, held);
    }
  }

  /** The families of a combination are those its keys share a code with. */
  lemma NamedFamily(combo: KeyCombination, m: Modifier, c: Vk)
    requires KeySpec.AnySide(m).Accepts(c)
    ensures m in combo.Families() <==> NamesFamily(combo.keys, c)
  {
    if m in combo.Families() {
      var key :| key in combo.keys && key.Family() == Some(m);
      FamilyIsShared(key, m);
      var a: Vk :| key.Accepts(a) && KeySpec.AnySide(m).Accepts(a);
      SameFamilyIsAModifier(c, a);
      assert SameFamily(c, a);
    }
    if key, a: Vk :| key in combo.keys && key.Accepts(a) && SameFamily(c, a) {
      SameFamilyIsAModifier(c, a);
      var other :| KeySpec.AnySide(other).Accepts(c) && KeySpec.AnySide(other).Accepts(a);
      OneFamily(c, m, other);
      FamilyIsShared(key, m);
    }
  }

  lemma OneFamily(c: Vk, m: Modifier, other: Modifier)
    requires KeySpec.AnySide(m).Accepts(c) && KeySpec.AnySide(other).Accepts(c)
    ensures m == other
  {}

  lemma ModifierHasFamily(c: Vk) returns (m: Modifier)
    requires c in ALL
    ensures KeySpec.AnySide(m).Accepts(c)
  {
    m := FamilyOf(c).value;
  }

  /** Without extra modifiers: exactly the families named are held. */
  lemma ExactFamilies(combo: KeyCombination, held: Flags)
    requires KeysDown(combo, held)
    ensures HeldFamilies(held) == combo.Families() <==>
            forall c: Vk :: c < 256 && held[c] && c in ALL ==> NamesFamily(combo.keys, c)
  {
    hide KeySpec.Accepts, FamiliesOf, NamesFamily, FamilyOf;
    forall m ensures m in HeldFamilies(held) <==> IsHeld(KeySpec.AnySide(m), held) {
      AllFamilies(m);
      HeldIsDown(KeySpec.AnySide(m), held);
    }
    forall m | m in combo.Families() ensures IsHeld(KeySpec.AnySide(m), held) {
      NamedIsHeld(combo, held, m);
    }
    if forall c: Vk :: c < 256 && held[c] && c in ALL ==> NamesFamily(combo.keys, c) {
      forall m | IsHeld(KeySpec.AnySide(m), held) ensures m in combo.Families() {
        var c: Vk :| c < 256 && held[c] && KeySpec.AnySide(m).Accepts(c);
        FamilyCodesAreModifiers(m, c);
        NamedFamily(combo, m, c);
      }
      assert HeldFamilies(held) == combo.Families();
    }
    if HeldFamilies(held) == combo.Families() {
      forall c: Vk | c < 256 && held[c] && c in ALL ensures NamesFamily(combo.keys, c) {
        var m := ModifierHasFamily(c);
        assert IsHeld(KeySpec.AnySide(m), held);
        NamedFamily(combo, m, c);
      }
    }
  }

  lemma AllFamilies(m: Modifier)
    ensures m in FAMILIES
  {
    assert FAMILIES[0] == Shift && FAMILIES[1] == Ctrl && FAMILIES[2] == Alt && FAMILIES[3] == Win;
  }

  lemma FamilyCodesAreModifiers(m: Modifier, c: Vk)
    requires KeySpec.AnySide(m).Accepts(c)
    ensures c in ALL
  {}

  lemma NamedIsHeld(combo: KeyCombination, held: Flags, m: Modifier)
    requires KeysDown(combo, held) && m in combo.Families()
    ensures IsHeld(KeySpec.AnySide(m), held)
  {
    var key :| key in combo.keys && key.Family() == Some(m);
    HeldIsDown(key, held);
    var vk: Vk :| vk < 256 && held[vk] && key.Accepts(vk);
    assert KeySpec.AnySide(m).Accepts(vk);
  }

  /** A `keys` binding matches iff the pressed code triggers it, a code of each
      of its keys is held, and, unless extra modifiers are allowed, every held
      modifier code is of a family that a key of it names. */
  lemma ComboMatchesMeans(combo: KeyCombination, pressed: Vk, held: Flags, extra: bool)
    ensures ComboMatches(combo, pressed, held, extra) <==>
            && Triggers(combo.keys, pressed)
            && (forall key :: key in combo.keys ==> IsHeld(key, held))
            && (extra || forall c: Vk :: c < 256 && held[c] && c in ALL ==> NamesFamily(combo.keys, c))
  {
    hide Triggers, IsHeld, NamesFamily, HeldFamilies, KeysDown, IsTriggerKey, FamiliesOf;
    TriggerMeans(combo, pressed);
    KeysDownMeans(combo, held);
    if KeysDown(combo, held) {
      ExactFamilies(combo, held);
    }
  }

  /** A blocker matches iff the pressed code triggers its hotkey, a code of each
      of its keys is held, and no other held code is down in Windows. */
  lemma BlockerMatchesMeans(combo: KeyCombination, pressed: Vk, held: Flags, windowsHasDown: Vk -> bool)
    ensures BlockerMatches(combo, pressed, held, windowsHasDown) <==>
            && Triggers(combo.keys, pressed)
            && (forall key :: key in combo.keys ==> IsHeld(key, held))
            && (forall c: Vk :: c < 256 && held[c] && windowsHasDown(c) ==> exists key :: key in combo.keys && key.Accepts(c))
  {
    hide Triggers, IsHeld, KeysDown, IsTriggerKey;
    TriggerMeans(combo, pressed);
    KeysDownMeans(combo, held);
  }
}
