/**
  The kinds of value that the operators of a one-flag class (an enum whose
  members are ints) and of its multi-flag class (the QFlags container)
  produce, as the generated QFlags tests exercise them. Where a file checks
  an int result only with `isinstance(value, int)`, which a one-flag value
  (an int subclass) also passes, the model takes the runtime's plain int;
  where it checks `type(value)`, the kind is the one the file asserts. Each
  test file fixes
  a configuration: whether `|` between two flags, flag and int, or int and
  flag converts to the multi-flag class, and whether a flag may stand on
  the left of an operator whose right operand is a multi-flag value.
*/
module QFlagOps {

  /** A value's kind: a plain int, a one-flag value, or a multi-flag value. */
  datatype Kind = Int | One | Multi

  /** What evaluating an operator gives: a value of some kind, or a `TypeError`. */
  datatype Outcome = Value(kind: Kind) | TypeError

  datatype Op = Or | And | Xor | Add | Sub {
    predicate Bitwise() { this == Or || this == And || this == Xor }
  }

  /** The specific part of a test file: its conversion flags. */
  datatype Config = Config(orConvertsToMulti: bool, orIntConvertsToMulti: bool, intOrConvertsToMulti: bool, supportsOneOpMulti: bool)

  /** `QChartView.RubberBand`: no `|` converts, and a flag may combine with a multi-flag value. */
  const RubberBand := Config(false, false, false, true)

  /**
    `QStyleOptionToolBar.ToolBarFeature`: flag `|` flag and int `|` flag
    convert, flag `|` int does not; the file has no flag for
    flag-op-multi and asserts that it gives a multi-flag value.
  */
  const ToolBarFeature := Config(true, false, true, true)

  /** The kind of `lhs op rhs`. */
  function Binary(cfg: Config, op: Op, lhs: Kind, rhs: Kind): Outcome {
    match (lhs, rhs)
    case (Multi, _) => if op.Bitwise() then Value(Multi) else TypeError
    case (One, Multi) => if op.Bitwise() && cfg.supportsOneOpMulti then Value(Multi) else TypeError
    case (Int, Multi) => TypeError
    case (One, One) => if op == Or && cfg.orConvertsToMulti then Value(Multi) else Value(Int)
    case (One, Int) => if op == Or && cfg.orIntConvertsToMulti then Value(Multi) else Value(Int)
    case (Int, One) => if op == Or && cfg.intOrConvertsToMulti then Value(Multi) else Value(Int)
    case (Int, Int) => Value(Int)
  }

  /** The kind of `~v`. */
  function Invert(k: Kind): Kind {
    if k == Multi then Multi else Int
  }

  /**
    The kind of `lhs op= rhs`, by Python's rule for augmented assignment:
    the multi-flag class defines `__ior__`, `__iand__` and `__ixor__`, which
    keep a multi-flag value; every other case falls back to the binary
    operator.
  */
  function InPlace(cfg: Config, op: Op, lhs: Kind, rhs: Kind): Outcome {
    if lhs == Multi && op.Bitwise() && rhs != Multi then Value(Multi)
    else Binary(cfg, op, lhs, rhs)
  }

  /**
    `MultiFlagClass(v)` for a flag or an int, and `int(v)` for any value.
    Conversions do not depend on the configuration: each gives its target
    kind whatever the operand's kind.
  */
  function ToMulti(k: Kind): Kind {
    Multi
  }

  function ToInt(k: Kind): Kind {
    Int
  }

  /** An in-place operator gives the same kind as the binary operator, in every configuration. */
  lemma InPlaceIsBinary(cfg: Config, op: Op, lhs: Kind, rhs: Kind)
    ensures InPlace(cfg, op, lhs, rhs) == Binary(cfg, op, lhs, rhs)
  {
  }

  /**
    An operator raises `TypeError` exactly when a multi-flag value is
    involved and the operator is `+` or `-`, or the multi-flag value is on
    the right of an int, or of a flag when flag-op-multi is unsupported.
  */
  lemma TypeErrorIff(cfg: Config, op: Op, lhs: Kind, rhs: Kind)
    ensures Binary(cfg, op, lhs, rhs) == TypeError <==>
      && (lhs == Multi || rhs == Multi)
      && (!op.Bitwise() || (lhs == Int && rhs == Multi) || (lhs == One && rhs == Multi && !cfg.supportsOneOpMulti))
  {
  }

  /**
    No operator gives a one-flag value; a multi-flag value comes out exactly
    of a bitwise operator with a multi-flag operand that does not raise, or
    of a converting `|` between a flag and a flag or an int.
  */
  lemma MultiIff(cfg: Config, op: Op, lhs: Kind, rhs: Kind)
    ensures Binary(cfg, op, lhs, rhs) != Value(One)
    ensures Binary(cfg, op, lhs, rhs) == Value(Multi) <==>
      || (op.Bitwise() && lhs == Multi)
      || (op.Bitwise() && lhs == One && rhs == Multi && cfg.supportsOneOpMulti)
      || (op == Or && lhs == One && rhs == One && cfg.orConvertsToMulti)
      || (op == Or && lhs == One && rhs == Int && cfg.orIntConvertsToMulti)
      || (op == Or && lhs == Int && rhs == One && cfg.intOrConvertsToMulti)
  {
  }

  /** Without multi-flag operands nothing raises, and only `|` can leave the int kind. */
  lemma NoMultiOperands(cfg: Config, op: Op, lhs: Kind, rhs: Kind)
    requires lhs != Multi && rhs != Multi
    ensures Binary(cfg, op, lhs, rhs).Value?
    ensures op != Or ==> Binary(cfg, op, lhs, rhs) == Value(Int)
  {
  }

  // ---------------------------------------------------------------------
  // The assertions of the two test files

  /** RubberBand, one flag: `|`, `&`, `^`, `+`, `-` and `~` between flags and ints give ints. */
  lemma RubberBandOneFlag(op: Op, lhs: Kind, rhs: Kind)
    requires lhs != Multi && rhs != Multi && (lhs == One || rhs == One)
    ensures Binary(RubberBand, op, lhs, rhs) == Value(Int)
    ensures Invert(One) == Int
    ensures InPlace(RubberBand, op, One, rhs) == Value(Int)
  {
  }

  /**
    RubberBand, multi flag: bitwise operators keep the multi-flag kind, from
    either side of a flag. The conversion facts in the last clause hold in
    every configuration, since conversions ignore it; they record what the
    file asserts about them.
  */
  lemma RubberBandMultiFlag(op: Op, other: Kind)
    requires op.Bitwise()
    ensures Invert(Multi) == Multi
    ensures Binary(RubberBand, op, Multi, other) == Value(Multi)
    ensures Binary(RubberBand, op, One, Multi) == Value(Multi)
    ensures other != Multi ==> InPlace(RubberBand, op, Multi, other) == Value(Multi)
    ensures ToMulti(One) == Multi && ToMulti(Int) == Multi && ToInt(Multi) == Int
  {
  }

  /** RubberBand, errors: an int on the left of a multi-flag value, and any `+` or `-` with one, raise. */
  lemma RubberBandErrors(op: Op, other: Kind)
    ensures op.Bitwise() ==> Binary(RubberBand, op, Int, Multi) == TypeError
    ensures !op.Bitwise() ==> Binary(RubberBand, op, Multi, other) == TypeError && Binary(RubberBand, op, other, Multi) == TypeError
    ensures !op.Bitwise() && other != Multi ==> InPlace(RubberBand, op, Multi, other) == TypeError
  {
  }

  /** Without flag-op-multi support, a flag on the left of a multi-flag value raises. */
  lemma OneOpMultiUnsupported(cfg: Config, op: Op)
    requires !cfg.supportsOneOpMulti
    ensures Binary(cfg, op, One, Multi) == TypeError
  {
  }

  /** ToolBarFeature, one flag: flag `|` flag and int `|` flag convert, flag `|` int stays an int. */
  lemma ToolBarFeatureOneFlag(op: Op, lhs: Kind, rhs: Kind)
    requires lhs != Multi && rhs != Multi && (lhs == One || rhs == One)
    ensures Binary(ToolBarFeature, Or, One, One) == Value(Multi)
    ensures Binary(ToolBarFeature, Or, One, Int) == Value(Int)
    ensures Binary(ToolBarFeature, Or, Int, One) == Value(Multi)
    ensures op != Or ==> Binary(ToolBarFeature, op, lhs, rhs) == Value(Int)
    ensures InPlace(ToolBarFeature, Or, One, One) == Value(Multi) && InPlace(ToolBarFeature, Or, One, Int) == Value(Int)
    ensures op != Or ==> InPlace(ToolBarFeature, op, One, rhs) == Value(Int)
  {
  }

  /** ToolBarFeature, multi flag: bitwise operators with a flag on either side, or an int on the right, give multi-flag values. */
  lemma ToolBarFeatureMultiFlag(op: Op, other: Kind)
    requires op.Bitwise()
    ensures Binary(ToolBarFeature, op, Multi, other) == Value(Multi)
    ensures Binary(ToolBarFeature, op, One, Multi) == Value(Multi)
    ensures Binary(ToolBarFeature, op, Int, Multi) == TypeError
    ensures other != Multi ==> InPlace(ToolBarFeature, op, Multi, other) == Value(Multi)
  {
  }

  /** ToolBarFeature, errors: any `+` or `-` with a multi-flag value raises, in place too. */
  lemma ToolBarFeatureErrors(op: Op, other: Kind)
    requires !op.Bitwise()
    ensures Binary(ToolBarFeature, op, Multi, other) == TypeError && Binary(ToolBarFeature, op, other, Multi) == TypeError
    ensures InPlace(ToolBarFeature, op, Multi, other) == TypeError
  {
  }
}
