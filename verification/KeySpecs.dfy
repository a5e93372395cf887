/** Trigger keys as a config names them, and sets of them. */
module KeySpecs {
  import opened Options
  import opened Modifiers

  datatype Modifier = Shift | Ctrl | Alt | Win {
    function Left(): Vk {
      match this
      case Shift => VK_LSHIFT
      case Ctrl => VK_LCONTROL
      case Alt => VK_LMENU
      case Win => VK_LWIN
    }

    function Right(): Vk {
      match this
      case Shift => VK_RSHIFT
      case Ctrl => VK_RCONTROL
      case Alt => VK_RMENU
      case Win => VK_RWIN
    }

    /** The code for "either key of the pair"; the Win keys have none. */
    function Generic(): Option<Vk> {
      match this
      case Shift => Some(VK_SHIFT)
      case Ctrl => Some(VK_CONTROL)
      case Alt => Some(VK_MENU)
      case Win => None
    }

    predicate Covers(vk: Vk) {
      vk == Left() || vk == Right() || Generic() == Some(vk)
    }
  }

  const FAMILIES: seq<Modifier> := [Shift, Ctrl, Alt, Win]

  /** The family of a sided or generic modifier code. */
  function FamilyOf(vk: Vk): Option<Modifier> {
    if Shift.Covers(vk) then Some(Shift)
    else if Ctrl.Covers(vk) then Some(Ctrl)
    else if Alt.Covers(vk) then Some(Alt)
    else if Win.Covers(vk) then Some(Win)
    else None
  }

  datatype KeySpec = AnySide(family: Modifier) | Key(vk: Vk) {
    predicate Accepts(code: Vk) {
      match this
      case AnySide(m) => m.Covers(code)
      case Key(own) => own == code
    }

    function Family(): Option<Modifier> {
      match this
      case AnySide(m) => Some(m)
      case Key(own) => FamilyOf(own)
    }

    predicate Overlaps(other: KeySpec) {
      match (this, other)
      case (AnySide(a), AnySide(b)) => a == b
      case (AnySide(m), Key(own)) => AnySide(m).Accepts(own)
      case (Key(own), AnySide(m)) => AnySide(m).Accepts(own)
      case (Key(a), Key(b)) => a == b
    }
  }

  /** Two specs overlap exactly when one key event is an event of both. */
  lemma OverlapIsASharedCode(a: KeySpec, b: KeySpec)
    ensures a.Overlaps(b) <==> exists vk: Vk :: a.Accepts(vk) && b.Accepts(vk)
  {
    var witness_ := match a case Key(own) => own case AnySide(m) => if b.Key? then b.vk else m.Left();
    if a.Overlaps(b) {
      assert a.Accepts(witness_) && b.Accepts(witness_);
    }
  }

  /** The keys of a `keys` binding or of a sequence step. */
  datatype KeyCombination = KeyCombination(keys: seq<KeySpec>) {
    /** The loader and the builders never list a key twice. */
    ghost predicate NoDuplicates() {
      forall i, j :: 0 <= i < j < |keys| ==> keys[i] != keys[j]
    }

    /** Equality of the source: as many keys, and each one in the other. */
    predicate SameAs(other: KeyCombination) {
      |keys| == |other.keys| && forall key :: key in keys ==> key in other.keys
    }

    predicate IsModifierOnly() {
      forall key :: key in keys ==> key.Family().Some?
    }

    /** The families named, each once whichever side is named. */
    function Families(): (r: set<Modifier>) {
      FamiliesOf(keys)
    }
  }

  function FamiliesOf(keys: seq<KeySpec>): (families: set<Modifier>)
    ensures forall m :: m in families <==> exists key :: key in keys && key.Family() == Some(m)
  {
    if keys == [] then {} else
    var rest := FamiliesOf(keys[1..]);
    assert keys == [keys[0]] + keys[1..];
    match keys[0].Family()
    case Some(m) => rest + {m}
    case None => rest
  }

  ghost function KeySet(keys: seq<KeySpec>): set<KeySpec> {
    set key | key in keys
  }

  lemma KeySetSize(keys: seq<KeySpec>)
    ensures |KeySet(keys)| <= |keys|
    ensures KeyCombination(keys).NoDuplicates() ==> |KeySet(keys)| == |keys|
  {
    if keys != [] {
      var n := |keys| - 1;
      KeySetSize(keys[..n]);
      assert keys == keys[..n] + [keys[n]];
      assert KeySet(keys) == KeySet(keys[..n]) + {keys[n]};
      if KeyCombination(keys).NoDuplicates() {
        assert KeyCombination(keys[..n]).NoDuplicates();
        assert keys[n] !in keys[..n];
      }
    }
  }

  lemma SubsetOfSameSize<T>(a: set<T>, b: set<T>)
    requires a <= b && |a| == |b|
    ensures a == b
  {
    assert |b - a| == |b| - |a|;
    assert b == a + (b - a);
  }

  /** Counting and one inclusion suffice: without duplicates, two
      combinations are the same exactly when they hold the same set of keys,
      so equality is symmetric and transitive. */
  lemma SameAsIsSetEquality(a: KeyCombination, b: KeyCombination)
    requires a.NoDuplicates() && b.NoDuplicates()
    ensures a.SameAs(b) <==> KeySet(a.keys) == KeySet(b.keys)
  {
    KeySetSize(a.keys);
    KeySetSize(b.keys);
    if a.SameAs(b) {
      assert KeySet(a.keys) <= KeySet(b.keys);
      SubsetOfSameSize(KeySet(a.keys), KeySet(b.keys));
    }
    if KeySet(a.keys) == KeySet(b.keys) {
      forall key | key in a.keys ensures key in b.keys {
        assert key in KeySet(a.keys);
      }
    }
  }

  /** One side without duplicates is enough to turn an equality around. */
  lemma SameAsTurnsAround(a: KeyCombination, b: KeyCombination)
    requires a.NoDuplicates() && a.SameAs(b)
    ensures b.SameAs(a)
  {
    KeySetSize(a.keys);
    KeySetSize(b.keys);
    assert KeySet(a.keys) <= KeySet(b.keys);
    assert |KeySet(b.keys) - KeySet(a.keys)| == |KeySet(b.keys)| - |KeySet(a.keys)|;
    assert KeySet(b.keys) <= KeySet(a.keys);
    forall key | key in b.keys ensures key in a.keys {
      assert key in KeySet(b.keys);
    }
  }

  /** A duplicate leaves room for any other key. */
  lemma DuplicateHidesAKey(a: KeyCombination, other: KeySpec) returns (b: KeyCombination)
    requires !a.NoDuplicates() && other !in a.keys
    ensures a.SameAs(b) && !b.SameAs(a)
  {
    var i, j :| 0 <= i < j < |a.keys| && a.keys[i] == a.keys[j];
    b := KeyCombination(a.keys[j := other]);
    forall key | key in a.keys ensures key in b.keys {
      var k :| 0 <= k < |a.keys| && a.keys[k] == key;
      assert b.keys[if k == j then i else k] == key;
    }
    assert b.keys[j] == other;
  }

  /** Exactly when equality of the source is symmetric from `a`: `a` lists no
      key twice, or lists every key there is. */
  lemma SameAsNeedsNoDuplicates(a: KeyCombination)
    ensures (forall b: KeyCombination :: a.SameAs(b) ==> b.SameAs(a)) <==>
            a.NoDuplicates() || forall key: KeySpec :: key in a.keys
  {
    if a.NoDuplicates() {
      forall b: KeyCombination | a.SameAs(b) ensures b.SameAs(a) {
        SameAsTurnsAround(a, b);
      }
    } else if other: KeySpec :| other !in a.keys {
      var b := DuplicateHidesAKey(a, other);
    }
  }

  /** Each key once, in the order first named. */
  function Dedup(keys: seq<KeySpec>): (deduped: seq<KeySpec>)
    ensures forall key :: key in deduped <==> key in keys
    ensures KeyCombination(deduped).NoDuplicates()
  {
    if keys == [] then [] else
    var n := |keys| - 1;
    assert keys == keys[..n] + [keys[n]];
    var earlier := Dedup(keys[..n]);
    if keys[n] in earlier then earlier else earlier + [keys[n]]
  }

  method FromKeys(keys: seq<KeySpec>) returns (combo: KeyCombination)
    ensures combo == KeyCombination(Dedup(keys))
  {
    var deduped: seq<KeySpec> := [];
    for n := 0 to |keys|
      invariant deduped == Dedup(keys[..n])
    {
      assert keys[..n + 1][..n] == keys[..n];
      if keys[n] !in deduped {
        deduped := deduped + [keys[n]];
      }
    }
    assert keys[..|keys|] == keys;
    combo := KeyCombination(deduped);
  }
}
