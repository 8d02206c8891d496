/**
 * The value arithmetic of the evaluator (Evaluating/Evaluator.cs, `EvaluateUnaryExpression`
 * and the operator switch of `EvaluateBinaryExpression`) on integers, booleans and strings.
 * Integers are C# `int`: arithmetic wraps at 32 bits, division and remainder truncate
 * towards zero, and shift counts are taken modulo 32.
 */
module EvaluatorValues {
  import opened BoundTypes
  import opened BoundTree

  const IntMin: int := -0x8000_0000
  const IntMax: int := 0x7FFF_FFFF
  const Modulus: int := 0x1_0000_0000

  predicate IsInt32(i: int)
  {
    IntMin <= i <= IntMax
  }

  /** Two's-complement wrap-around of an unbounded integer into `int`. */
  function Wrap(i: int): (r: int)
    ensures IsInt32(r)
    ensures (r - i) % Modulus == 0
  {
    var m := i % Modulus;
    if m > IntMax then m - Modulus else m
  }

  lemma WrapInRange(i: int)
    requires IsInt32(i)
    ensures Wrap(i) == i
  {
  }

  function Abs(i: int): (r: int)
    ensures r >= 0
  {
    if i < 0 then -i else i
  }

  /** C#'s `/` on integers: the quotient rounded towards zero. */
  function TruncDiv(a: int, b: int): int
    requires b != 0
  {
    var q := Abs(a) / Abs(b);
    if (a < 0) == (b < 0) then q else -q
  }

  /** C#'s `%` on integers: the remainder takes the sign of the dividend. */
  function TruncRem(a: int, b: int): int
    requires b != 0
  {
    var m := Abs(a) % Abs(b);
    if a < 0 then -m else m
  }

  /** Truncating division and remainder recombine to the dividend, and the remainder is smaller than the divisor and signed like the dividend. */
  lemma TruncDivRem(a: int, b: int)
    requires b != 0
    ensures TruncDiv(a, b) * b + TruncRem(a, b) == a
    ensures Abs(TruncRem(a, b)) < Abs(b)
    ensures TruncRem(a, b) == 0 || (TruncRem(a, b) < 0 <==> a < 0)
  {
    var q, m := Abs(a) / Abs(b), Abs(a) % Abs(b);
    assert Abs(a) == q * Abs(b) + m;
    if a < 0 && b < 0 {
      assert TruncDiv(a, b) * b == q * -Abs(b);
    } else if a < 0 {
      assert TruncDiv(a, b) * b == -q * Abs(b);
    } else if b < 0 {
      assert TruncDiv(a, b) * b == -q * -Abs(b);
    }
  }

  /** Integer division truncates: `9 / 2` is 4 and `-9 / 2` is -4, where Euclidean division would give -5. */
  lemma DivisionTruncates()
    ensures TruncDiv(9, 2) == 4 && TruncDiv(-9, 2) == -4 && TruncRem(-9, 2) == -1
  {
  }

  function Pow2(n: nat): (r: nat)
    ensures r > 0
  {
    if n == 0 then 1 else 2 * Pow2(n - 1)
  }

  function ToBits(i: int): bv32
  {
    (i % Modulus) as bv32
  }

  function FromBits(b: bv32): (r: int)
    ensures IsInt32(r)
  {
    Wrap(b as int)
  }

  /** `&`, `|` and `^` on the two's-complement bits of two `int`s. */
  function Bitwise(op: BinaryOperator, a: int, b: int): (r: int)
    ensures IsInt32(r)
  {
    if op == LogicalAnd then FromBits(ToBits(a) & ToBits(b))
    else if op == LogicalOr then FromBits(ToBits(a) | ToBits(b))
    else FromBits(ToBits(a) ^ ToBits(b))
  }

  /** The result of an operator on two non-null values. */
  datatype Computed =
    | Computed(value: LiteralValue)
      /** A .NET exception the program can observe, such as a division by zero. */
    | Raised(exception: string)
      /** An internal compiler error: an operator the evaluator has no case for. */
    | Failed(message: string)
      /** Floating point, characters and mixed operand types, which this model leaves out. */
    | NotModelled(what: string)

  function IntResult(i: int): Computed
  {
    Computed(IntValue(Wrap(i)))
  }

  /** The operator switch of `EvaluateBinaryExpression`, for two non-null operand values. */
  function BinaryValue(op: BinaryOperator, left: LiteralValue, right: LiteralValue): (r: Computed)
    ensures r.Computed? && r.value.IntValue? ==> IsInt32(r.value.i)
  {
    match op
    case Power => Failed("EvaluateBinaryExpression: unknown binary operator")
    case NullCoalescing => Failed("EvaluateBinaryExpression: unknown binary operator")
    case ConditionalAnd =>
      if left.BoolValue? && right.BoolValue? then Computed(BoolValue(left.b && right.b)) else NotModelled("operand types")
    case ConditionalOr =>
      if left.BoolValue? && right.BoolValue? then Computed(BoolValue(left.b || right.b)) else NotModelled("operand types")
    case EqualityEquals =>
      if left.DoubleValue? || left.OtherValue? || right.DoubleValue? || right.OtherValue? then NotModelled("operand types")
      else Computed(BoolValue(left == right))
    case EqualityNotEquals =>
      if left.DoubleValue? || left.OtherValue? || right.DoubleValue? || right.OtherValue? then NotModelled("operand types")
      else Computed(BoolValue(left != right))
    case Addition =>
      if left.IntValue? && right.IntValue? then IntResult(left.i + right.i)
      else if left.StringValue? && right.StringValue? then Computed(StringValue(left.s + right.s))
      else NotModelled("operand types")
    case LogicalAnd =>
      if left.IntValue? && right.IntValue? then Computed(IntValue(Bitwise(op, left.i, right.i)))
      else if left.BoolValue? && right.BoolValue? then Computed(BoolValue(left.b && right.b))
      else NotModelled("operand types")
    case LogicalOr =>
      if left.IntValue? && right.IntValue? then Computed(IntValue(Bitwise(op, left.i, right.i)))
      else if left.BoolValue? && right.BoolValue? then Computed(BoolValue(left.b || right.b))
      else NotModelled("operand types")
    case LogicalXor =>
      if left.IntValue? && right.IntValue? then Computed(IntValue(Bitwise(op, left.i, right.i)))
      else if left.BoolValue? && right.BoolValue? then Computed(BoolValue(left.b != right.b))
      else NotModelled("operand types")
    case _ =>
      if left.IntValue? && right.IntValue? then IntOperator(op, left.i, right.i) else NotModelled("operand types")
  }

  /** The integer cases of the operator switch of `EvaluateBinaryExpression`. */
  function IntOperator(op: BinaryOperator, a: int, b: int): Computed
  {
    match op
    case Subtraction => IntResult(a - b)
    case Multiplication => IntResult(a * b)
    case Division =>
      if b == 0 then Raised("DivideByZeroException")
      else if a == IntMin && b == -1 then Raised("OverflowException")
      else IntResult(TruncDiv(a, b))
    case Modulo =>
      if b == 0 then Raised("DivideByZeroException")
      else if a == IntMin && b == -1 then Raised("OverflowException")
      else IntResult(TruncRem(a, b))
    case LessThan => Computed(BoolValue(a < b))
    case GreaterThan => Computed(BoolValue(a > b))
    case LessOrEqual => Computed(BoolValue(a <= b))
    case GreatOrEqual => Computed(BoolValue(a >= b))
    case LeftShift => IntResult(a * Pow2(b % 32))
    case RightShift => IntResult(a / Pow2(b % 32))
    case UnsignedRightShift => IntResult((a % Modulus) / Pow2(b % 32))
    case _ => Failed("EvaluateBinaryExpression: unknown binary operator")
  }

  /** The operator switch of `EvaluateUnaryExpression`, for a non-null operand value. */
  function UnaryValue(op: UnaryOperator, operand: LiteralValue): (r: Computed)
    ensures r.Computed? && r.value.IntValue? ==> IsInt32(r.value.i)
  {
    match op
    case NumericalIdentity => if operand.IntValue? then IntResult(operand.i) else NotModelled("operand type")
    case NumericalNegation => if operand.IntValue? then IntResult(-operand.i) else NotModelled("operand type")
    case BooleanNegation => if operand.BoolValue? then Computed(BoolValue(!operand.b)) else NotModelled("operand type")
    case BitwiseCompliment => if operand.IntValue? then IntResult(-operand.i - 1) else NotModelled("operand type")
  }

  /** A quotient by a divisor of at least 2 is at most half the dividend. */
  lemma QuotientHalves(x: int, y: int)
    requires x >= 0 && y >= 2
    ensures 2 * (x / y) <= x
  {
    var q := x / y;
    assert q * y <= x;
    assert q * 2 <= q * y;
  }

  /** The truncated quotient of two `int`s is an `int`, except for the smallest `int` divided by -1. */
  lemma TruncDivInRange(a: int, b: int)
    requires IsInt32(a) && IsInt32(b) && b != 0
    requires !(a == IntMin && b == -1)
    ensures IsInt32(TruncDiv(a, b))
  {
    if Abs(b) == 1 {
      assert Abs(a) / Abs(b) == Abs(a);
    } else {
      QuotientHalves(Abs(a), Abs(b));
    }
  }

  /** On `int` operands, division gives the truncated quotient except for the two exceptional cases. */
  lemma DivisionValue(a: int, b: int)
    requires IsInt32(a) && IsInt32(b)
    ensures b == 0 ==> BinaryValue(Division, IntValue(a), IntValue(b)) == Raised("DivideByZeroException")
    ensures a == IntMin && b == -1 ==> BinaryValue(Division, IntValue(a), IntValue(b)) == Raised("OverflowException")
    ensures b != 0 && !(a == IntMin && b == -1) ==>
      BinaryValue(Division, IntValue(a), IntValue(b)) == Computed(IntValue(TruncDiv(a, b)))
  {
    if b != 0 && !(a == IntMin && b == -1) {
      TruncDivInRange(a, b);
      WrapInRange(TruncDiv(a, b));
    }
  }

  /** Negation wraps: the negation of the smallest `int` is itself. */
  lemma NegationWraps()
    ensures UnaryValue(NumericalNegation, IntValue(IntMin)) == Computed(IntValue(IntMin))
  {
  }
}
