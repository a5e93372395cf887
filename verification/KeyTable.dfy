/** Per-key state: which keys the engine believes are held, and what became of
    each key's latest key-down. */
module KeyTables {
  import opened Modifiers
  import opened Bindings

  datatype LastDown = Unknown | Passed | Suppressed | RepeatSuppressed

  type Records = records: seq<LastDown> | |records| == 256 witness seq(256, _ => Unknown)

  /** The two tables as values: the specification of `KeyState`. */
  datatype KeyTable = KeyTable(active: Flags, last: Records) {
    predicate Active(vk: Vk) { Flag(active, vk) }

    function Record(vk: Vk): LastDown { if vk < 256 then last[vk] else Unknown }

    predicate IsBlocked(vk: Vk) { Record(vk) == Suppressed }

    predicate IsPassed(vk: Vk) { Record(vk) == Passed }

    function Press(vk: Vk): KeyTable {
      if vk < 256 then this.(active := active[vk := true]) else this
    }

    function Release(vk: Vk): KeyTable {
      if vk < 256 then this.(active := active[vk := false]) else this
    }

    function WithRecord(vk: Vk, record: LastDown): KeyTable {
      if vk < 256 then this.(last := last[vk := record]) else this
    }

    function MarkCompleted(vk: Vk): KeyTable {
      if Active(vk) && !IsPassed(vk) then WithRecord(vk, Suppressed) else this
    }

    /** The read between key events: a sided modifier takes the state of
        Windows, a generic one is only ever dropped, and a modifier whose
        key-down was swallowed is left alone. */
    function ResyncModifiers(keyDown: Vk -> bool, which: ModifierSet): KeyTable {
      this.(active := seq(256, vk requires 0 <= vk < 256 => ResyncedFlag(keyDown, which, vk)))
    }

    predicate ResyncedFlag(keyDown: Vk -> bool, which: ModifierSet, vk: Vk)
      requires vk < 256
    {
      if vk in which && vk in ALL && last[vk] != Suppressed
      then keyDown(vk) && (vk in SIDED || active[vk])
      else active[vk]
    }

    /** The check of a decided key event: drops the modifiers of `among`, but
        the event's own and the swallowed ones, that Windows has up. */
    function ClearReleased(keyDown: Vk -> bool, own: Vk, among: ModifierSet): KeyTable {
      this.(active := seq(256, vk requires 0 <= vk < 256 => KeptFlag(keyDown, own, among, vk)))
    }

    predicate KeptFlag(keyDown: Vk -> bool, own: Vk, among: ModifierSet, vk: Vk)
      requires vk < 256
    {
      active[vk] && !(vk in among && vk in ALL && vk != own && last[vk] != Suppressed && !keyDown(vk))
    }

    function TrackInjected(vk: Vk, isDown: bool): KeyTable {
      if vk !in ALL || IsBlocked(vk) then this
      else this.(active := active[vk := isDown])
    }

    /** The codes whose held state a reset takes from Windows. */
    static predicate SeededFromOs(code: Vk) {
      1 <= code <= 254 && code !in MOUSE_BUTTONS && code !in GENERIC
    }

    function ResyncFromOs(keyDown: Vk -> bool): KeyTable {
      KeyTable(
        seq(256, code requires 0 <= code < 256 => SeededFromOs(code) && keyDown(code)),
        seq(256, code requires 0 <= code < 256 =>
          if SeededFromOs(code) && keyDown(code) then Passed
          else if last[code] in {Suppressed, RepeatSuppressed} then last[code]
          else Unknown))
    }

    function ReleaseAll(): KeyTable {
      this.(active := seq(256, _ => false))
    }

    /** Windows has an Alt or Win key down whose key-down it saw. */
    predicate AltOrWinDownInWindows() {
      exists vk :: vk in MENU && active[vk] && last[vk] != Suppressed
    }
  }

  const EmptyTable: KeyTable := KeyTable(seq(256, _ => false), seq(256, _ => Unknown))

  /** The first `n` modifier codes in table order. */
  function FirstModifiers(n: nat): ModifierSet
    requires n <= |MODIFIERS|
  {
    set vk | vk in MODIFIERS[..n]
  }

  lemma ModifierInTable(n: nat)
    requires n < |MODIFIERS|
    ensures MODIFIERS[n] < 256
  {
    ModifiersAreAll();
    assert MODIFIERS[n] in MODIFIERS;
  }

  /** Reading one modifier more. */
  lemma ReadNext(k: KeyTable, keyDown: Vk -> bool, which: ModifierSet, n: nat, vk: Vk)
    requires n < |MODIFIERS| && vk < 256
    ensures k.ResyncedFlag(keyDown, which * FirstModifiers(n + 1), vk) ==
            if vk == MODIFIERS[n] && vk in which && k.last[vk] != Suppressed
            then keyDown(vk) && (vk in SIDED || k.ResyncedFlag(keyDown, which * FirstModifiers(n), vk))
            else k.ResyncedFlag(keyDown, which * FirstModifiers(n), vk)
  {
    ModifiersAreAll();
    NextModifier(n);
    hide FirstModifiers, ALL;
    assert MODIFIERS[n] in MODIFIERS;
    hide MODIFIERS;
  }

  /** Checking one modifier more. */
  lemma CheckNext(k: KeyTable, keyDown: Vk -> bool, own: Vk, among: ModifierSet, n: nat, vk: Vk)
    requires n < |MODIFIERS| && vk < 256
    ensures k.KeptFlag(keyDown, own, among * FirstModifiers(n + 1), vk) ==
            (k.KeptFlag(keyDown, own, among * FirstModifiers(n), vk) &&
             !(vk == MODIFIERS[n] && vk in among && vk != own && k.last[vk] != Suppressed && !keyDown(vk)))
  {
    ModifiersAreAll();
    NextModifier(n);
    hide FirstModifiers, ALL;
    assert MODIFIERS[n] in MODIFIERS;
    hide MODIFIERS;
  }

  lemma NextModifier(n: nat)
    requires n < |MODIFIERS|
    ensures FirstModifiers(n + 1) == FirstModifiers(n) + {MODIFIERS[n]}
  {
    assert MODIFIERS[..n + 1] == MODIFIERS[..n] + [MODIFIERS[n]];
  }

  lemma AllModifiers()
    ensures FirstModifiers(0) == {} && FirstModifiers(|MODIFIERS|) == ALL
  {
    ModifiersAreAll();
    assert MODIFIERS[..|MODIFIERS|] == MODIFIERS;
  }

  /** The tables updated in place. */
  class KeyState {
    const active: array<bool>
    const lastDown: array<LastDown>

    ghost predicate Valid() {
      active.Length == 256 && lastDown.Length == 256
    }

    ghost function View(): KeyTable
      requires Valid()
      reads active, lastDown
    {
      KeyTable(active[..], lastDown[..])
    }

    constructor ()
      ensures Valid() && fresh(active) && fresh(lastDown)
      ensures View() == EmptyTable
    {
      active := new bool[256](_ => false);
      lastDown := new LastDown[256](_ => Unknown);
    }

    method ResyncModifiers(env: Env, which: ModifierSet)
      requires Valid()
      modifies active
      ensures View() == old(View()).ResyncModifiers(env.keyDown, which)
    {
      ghost var before := View();
      AllModifiers();
      for n := 0 to |MODIFIERS|
        invariant lastDown[..] == before.last
        invariant forall vk :: 0 <= vk < 256 ==>
                    active[vk] == before.ResyncedFlag(env.keyDown, which * FirstModifiers(n), vk)
      {
        hide KeyTable.ResyncedFlag, FirstModifiers, ALL;
        var modifier := MODIFIERS[n];
        hide MODIFIERS;
        ModifierInTable(n);
        forall vk | 0 <= vk < 256 { ReadNext(before, env.keyDown, which, n, vk); }
        if modifier in which && lastDown[modifier] != Suppressed {
          if modifier in SIDED {
            active[modifier] := env.keyDown(modifier);
          } else if active[modifier] && !env.keyDown(modifier) {
            active[modifier] := false;
          }
        }
      }
      assert which * ALL * ALL == which * ALL;
    }

    method ClearReleasedModifiers(env: Env, own: Vk, among: ModifierSet)
      requires Valid()
      modifies active
      ensures View() == old(View()).ClearReleased(env.keyDown, own, among)
    {
      ghost var before := View();
      AllModifiers();
      for n := 0 to |MODIFIERS|
        invariant lastDown[..] == before.last
        invariant forall vk :: 0 <= vk < 256 ==>
                    active[vk] == before.KeptFlag(env.keyDown, own, among * FirstModifiers(n), vk)
      {
        hide KeyTable.KeptFlag, FirstModifiers, ALL;
        var modifier := MODIFIERS[n];
        forall vk | 0 <= vk < 256 { CheckNext(before, env.keyDown, own, among, n, vk); }
        if modifier in among && active[modifier] && modifier != own
           && lastDown[modifier] != Suppressed && !env.keyDown(modifier)
        {
          active[modifier] := false;
        }
      }
    }

    method TrackInjected(vk: Vk, isDown: bool)
      requires Valid()
      modifies active
      ensures View() == old(View()).TrackInjected(vk, isDown)
    {
      if vk !in ALL || lastDown[vk] == Suppressed {
        return;
      }
      active[vk] := isDown;
    }

    method ResyncFromOs(env: Env)
      requires Valid()
      modifies active, lastDown
      ensures View() == old(View()).ResyncFromOs(env.keyDown)
    {
      ghost var before := View();
      for code := 0 to 256
        invariant forall c :: 0 <= c < code ==>
                    && active[c] == before.ResyncFromOs(env.keyDown).active[c]
                    && lastDown[c] == before.ResyncFromOs(env.keyDown).last[c]
        invariant forall c :: code <= c < 256 ==> lastDown[c] == before.last[c]
      {
        var held := KeyTable.SeededFromOs(code) && env.keyDown(code);
        active[code] := held;
        if held {
          lastDown[code] := Passed;
        } else if lastDown[code] != Suppressed && lastDown[code] != RepeatSuppressed {
          lastDown[code] := Unknown;
        }
      }
    }

    method ReleaseAll()
      requires Valid()
      modifies active
      ensures View() == old(View()).ReleaseAll()
    {
      forall code | 0 <= code < 256 {
        active[code] := false;
      }
    }

    method Press(vk: Vk) returns (wasHeld: bool)
      requires Valid()
      modifies active
      ensures View() == old(View()).Press(vk)
      ensures wasHeld == old(View()).Active(vk)
    {
      wasHeld := false;
      if vk < 256 {
        wasHeld := active[vk];
        active[vk] := true;
      }
    }

    method Release(vk: Vk)
      requires Valid()
      modifies active
      ensures View() == old(View()).Release(vk)
    {
      if vk < 256 {
        active[vk] := false;
      }
    }

    /** `mark_blocked`, `mark_repeat_suppressed` and `mark_passed`. */
    method Mark(vk: Vk, record: LastDown)
      requires Valid()
      modifies lastDown
      ensures View() == old(View()).WithRecord(vk, record)
    {
      if vk < 256 {
        lastDown[vk] := record;
      }
    }

    method MarkCompleted(vk: Vk)
      requires Valid()
      modifies lastDown
      ensures View() == old(View()).MarkCompleted(vk)
    {
      if vk < 256 && active[vk] && lastDown[vk] != Passed {
        lastDown[vk] := Suppressed;
      }
    }

    method TakeBlocked(vk: Vk) returns (wasSuppressed: bool)
      requires Valid()
      modifies lastDown
      ensures View() == old(View()).WithRecord(vk, Unknown)
      ensures wasSuppressed == (old(View()).Record(vk) in {Suppressed, RepeatSuppressed})
    {
      wasSuppressed := false;
      if vk < 256 {
        wasSuppressed := lastDown[vk] == Suppressed || lastDown[vk] == RepeatSuppressed;
        lastDown[vk] := Unknown;
      }
    }

    method AltOrWinDownInWindows() returns (yes: bool)
      requires Valid()
      ensures yes == View().AltOrWinDownInWindows()
    {
      ModifiersAreAll();
      hide MODIFIERS;
      yes := false;
      for n := 0 to |MODIFIERS|
        invariant yes == exists vk :: vk in MENU && vk in MODIFIERS[..n] && active[vk] && lastDown[vk] != Suppressed
      {
        var vk := MODIFIERS[n];
        assert vk in MODIFIERS && MODIFIERS[..n + 1] == MODIFIERS[..n] + [vk];
        if vk in MENU && active[vk] && lastDown[vk] != Suppressed {
          yes := true;
        }
      }
      assert MODIFIERS[..|MODIFIERS|] == MODIFIERS;
    }
  }
}
