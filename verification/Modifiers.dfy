/** Virtual-key codes, the modifier codes the engine keeps flags for, and what
    an event of a code can change in the key state of Windows. */
module Modifiers {

  /** A 16-bit virtual-key code. The key table has slots for codes below 256. */
  type Vk = code: nat | code < 0x1_0000

  const VK_LBUTTON: Vk := 0x01
  const VK_RBUTTON: Vk := 0x02
  const VK_MBUTTON: Vk := 0x04
  const VK_XBUTTON1: Vk := 0x05
  const VK_XBUTTON2: Vk := 0x06
  const VK_SHIFT: Vk := 0x10
  const VK_CONTROL: Vk := 0x11
  const VK_MENU: Vk := 0x12
  const VK_LWIN: Vk := 0x5B
  const VK_RWIN: Vk := 0x5C
  const VK_LSHIFT: Vk := 0xA0
  const VK_RSHIFT: Vk := 0xA1
  const VK_LCONTROL: Vk := 0xA2
  const VK_RCONTROL: Vk := 0xA3
  const VK_LMENU: Vk := 0xA4
  const VK_RMENU: Vk := 0xA5

  const MODIFIERS: seq<Vk> := [
    VK_SHIFT, VK_LSHIFT, VK_RSHIFT, VK_CONTROL, VK_LCONTROL, VK_RCONTROL,
    VK_MENU, VK_LMENU, VK_RMENU, VK_LWIN, VK_RWIN
  ]

  type ModifierSet = set<Vk>

  const SIDED: ModifierSet :=
    {VK_LSHIFT, VK_RSHIFT, VK_LCONTROL, VK_RCONTROL, VK_LMENU, VK_RMENU, VK_LWIN, VK_RWIN}

  /** The codes no keyboard sends: Windows reads them as "either side". */
  const GENERIC: ModifierSet := {VK_SHIFT, VK_CONTROL, VK_MENU}

  const ALL: ModifierSet := SIDED + GENERIC

  /** The Alt and Win codes: their lone press opens a menu on its release. */
  const MENU: ModifierSet := {VK_LMENU, VK_RMENU, VK_MENU, VK_LWIN, VK_RWIN}

  const MOUSE_BUTTONS: set<Vk> := {VK_LBUTTON, VK_RBUTTON, VK_MBUTTON, VK_XBUTTON1, VK_XBUTTON2}

  lemma ModifiersAreAll()
    ensures forall vk: Vk :: vk in MODIFIERS <==> vk in ALL
  {
    forall vk: Vk ensures vk in MODIFIERS <==> vk in ALL {
      if vk in ALL {
        assert vk == MODIFIERS[0] || vk == MODIFIERS[1] || vk == MODIFIERS[2] || vk == MODIFIERS[3]
            || vk == MODIFIERS[4] || vk == MODIFIERS[5] || vk == MODIFIERS[6] || vk == MODIFIERS[7]
            || vk == MODIFIERS[8] || vk == MODIFIERS[9] || vk == MODIFIERS[10];
      }
    }
  }

  /** The codes whose key state an event of `vk` changes. */
  function TouchedBy(vk: Vk): ModifierSet {
    if vk == VK_SHIFT then {VK_SHIFT, VK_LSHIFT, VK_RSHIFT}
    else if vk == VK_CONTROL then {VK_CONTROL, VK_LCONTROL, VK_RCONTROL}
    else if vk == VK_MENU then {VK_MENU, VK_LMENU, VK_RMENU}
    else if vk == VK_LSHIFT || vk == VK_RSHIFT then {vk, VK_SHIFT}
    else if vk == VK_LCONTROL || vk == VK_RCONTROL then {vk, VK_CONTROL}
    else if vk == VK_LMENU || vk == VK_RMENU then {vk, VK_MENU}
    else if vk == VK_LWIN || vk == VK_RWIN then {vk}
    else {}
  }

  /** A table with one flag per code below 256. */
  type Flags = flags: seq<bool> | |flags| == 256 witness seq(256, _ => false)

  function Flag(flags: Flags, vk: Vk): bool {
    vk < 256 && flags[vk]
  }

  /** How Windows answers for a code when `down` are the physical keys it has
      down: a generic code reads as down while either side is. */
  function ReadsDown(down: Flags, vk: Vk): bool {
    if vk == VK_SHIFT then down[VK_LSHIFT] || down[VK_RSHIFT]
    else if vk == VK_CONTROL then down[VK_LCONTROL] || down[VK_RCONTROL]
    else if vk == VK_MENU then down[VK_LMENU] || down[VK_RMENU]
    else Flag(down, vk)
  }

  /** The physical keys to which Windows may apply an event: a generic code
      means a side that the event does not name. */
  function AppliesTo(vk: Vk): set<Vk> {
    if vk == VK_SHIFT then {VK_LSHIFT, VK_RSHIFT}
    else if vk == VK_CONTROL then {VK_LCONTROL, VK_RCONTROL}
    else if vk == VK_MENU then {VK_LMENU, VK_RMENU}
    else if vk < 256 then {vk}
    else {}
  }

  /** In the key state `down`, applying the event to `key` changes how the
      modifier reads. */
  ghost predicate EventChanges(vk: Vk, key: Vk, isDown: bool, modifier: Vk, down: Flags) {
    key < 256 && key in AppliesTo(vk) && ReadsDown(down[key := isDown], modifier) != ReadsDown(down, modifier)
  }

  /** `TouchedBy` is exact for every code, generic ones included: it names the
      modifiers whose reading an event of the code can change. */
  lemma TouchedByIsWhatAnEventChanges(vk: Vk, modifier: Vk)
    requires modifier in ALL
    ensures modifier in TouchedBy(vk) <==>
            exists key: Vk, isDown, down: Flags :: EventChanges(vk, key, isDown, modifier, down)
  {
    var none: Flags := seq(256, _ => false);
    if modifier in TouchedBy(vk) {
      var key := if modifier in AppliesTo(vk) then modifier
                 else if vk in GENERIC then TouchedKey(vk) else vk;
      assert EventChanges(vk, key, true, modifier, none);
    }
  }

  /** One of the two sides of a generic code. */
  function TouchedKey(vk: Vk): Vk
    requires vk in GENERIC
  {
    if vk == VK_SHIFT then VK_LSHIFT else if vk == VK_CONTROL then VK_LCONTROL else VK_LMENU
  }
}
