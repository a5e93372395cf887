/** Foreground conditions: data as the config writes them, and their value in
    a foreground. */
module Conditions {
  /** What a condition can ask about the focused window. How a string is
      compared with the window's names is not part of the model, so each leaf
      is any predicate of its string. */
  datatype ForegroundInfo = ForegroundInfo(
    appEquals: string -> bool,
    titleContains: string -> bool,
    titleEquals: string -> bool)

  datatype Condition =
    | Always
    | AppEquals(name: string)
    | TitleContains(part: string)
    | TitleEquals(title: string)
    | Not(inner: Condition)
    | And(parts: seq<Condition>)
    | Or(parts: seq<Condition>)
  {
    predicate Evaluate(foreground: ForegroundInfo) {
      match this
      case Always => true
      case AppEquals(name) => foreground.appEquals(name)
      case TitleContains(part) => foreground.titleContains(part)
      case TitleEquals(title) => foreground.titleEquals(title)
      case Not(inner) => !inner.Evaluate(foreground)
      case And(parts) => forall part :: part in parts ==> part.Evaluate(foreground)
      case Or(parts) => exists part :: part in parts && part.Evaluate(foreground)
    }
  }
}

/** A binding of the config. */
module Bindings {
  import opened Options
  import opened Modifiers
  import opened KeySpecs
  import opened Conditions

  /** What a binding runs: the engine only passes it on. */
  datatype Action = DoNothing | Run(id: nat)

  datatype Trigger = Immediate | Tap(term: nat) | Hold(term: nat) | DoubleTap(term: nat)

  datatype BlockerMode = Swallow | MaskOnly

  datatype BindingKind =
    | Combo(combo: KeyCombination)
    | Sequence(steps: seq<KeyCombination>, maxGap: nat)
    | Chord(keys: seq<KeySpec>, window: nat)
  {
    function KeyCount(): nat {
      match this
      case Combo(combo) => |combo.keys|
      case Sequence(steps, _) => |steps|
      case Chord(keys, _) => |keys|
    }
  }

  datatype Binding = Binding(
    kind: BindingKind,
    action: Action,
    blockDefault: bool,
    blockOriginalCombo: Option<BlockerMode>,
    condition: Condition,
    trigger: Trigger,
    allowExtraModifiers: bool,
    repeat: bool,
    autoBlocker: Option<BlockerMode>)

  /** Everything a decision reads from outside: the clock, the key state of
      Windows before the event, and the focused window. */
  datatype Env = Env(now: nat, keyDown: Vk -> bool, foreground: ForegroundInfo)
}
