/** The laws of `when:` conditions: negation turns a condition inside out. */
module ConditionRules {
  import opened Conditions

  /** The opposite condition, written without negating a composite. */
  function Opposite(c: Condition): Condition {
    match c
    case Not(inner) => inner
    case And(parts) => Or(seq(|parts|, i requires 0 <= i < |parts| => Opposite(parts[i])))
    case Or(parts) => And(seq(|parts|, i requires 0 <= i < |parts| => Opposite(parts[i])))
    case _ => Not(c)
  }

  /** Exactly one of a condition and its opposite holds in a foreground. */
  lemma {:induction false} OppositeIsNegation(c: Condition, foreground: ForegroundInfo)
    ensures Opposite(c).Evaluate(foreground) <==> !c.Evaluate(foreground)
  {
    if c.And? || c.Or? {
      var parts := c.parts;
      var opposites := seq(|parts|, i requires 0 <= i < |parts| => Opposite(parts[i]));
      forall i | 0 <= i < |parts| ensures opposites[i].Evaluate(foreground) <==> !parts[i].Evaluate(foreground) {
        OppositeIsNegation(parts[i], foreground);
      }
      forall i | 0 <= i < |parts| ensures opposites[i] in opposites && parts[i] in parts {}
    }
  }

  lemma InEither(a: seq<Condition>, b: seq<Condition>)
    ensures forall part :: part in a + b <==> part in a || part in b
  {}

  /** Conditions listed together hold one by one; of an empty list all do. */
  lemma AllHoldOneByOne(a: seq<Condition>, b: seq<Condition>, foreground: ForegroundInfo)
    ensures And(a + b).Evaluate(foreground) <==> And(a).Evaluate(foreground) && And(b).Evaluate(foreground)
    ensures And([]).Evaluate(foreground)
  {
    InEither(a, b);
  }

  /** Of alternatives one holds; of an empty list none does. */
  lemma OneOfEitherHolds(a: seq<Condition>, b: seq<Condition>, foreground: ForegroundInfo)
    ensures Or(a + b).Evaluate(foreground) <==> Or(a).Evaluate(foreground) || Or(b).Evaluate(foreground)
    ensures !Or([]).Evaluate(foreground)
  {
    InEither(a, b);
  }

  /** One condition listed alone is that condition. */
  lemma OneHoldsAlone(c: Condition, foreground: ForegroundInfo)
    ensures And([c]).Evaluate(foreground) == Or([c]).Evaluate(foreground) == c.Evaluate(foreground)
  {
    assert c in [c];
  }
}
