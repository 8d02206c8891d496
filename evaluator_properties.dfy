/**
 * What the evaluator promises about control flow and operators, stated over the model in
 * the Evaluator module.
 */
module EvaluatorProperties {
  import opened Wrappers
  import opened BoundTypes
  import opened BoundTree
  import opened EvaluatorValues
  import opened Evaluator
  import Lowerer

  /** A goto continues at the statement after the label of its name. */
  lemma GotoLandsAfterLabel(p: Program, ss: seq<Stmt>, index: nat, j: nat, st: State, fuel: nat)
    requires index < |ss| && ss[index].Goto?
    requires j < |ss| && ss[j] == Label(ss[index].name)
    requires LabelMap(ss).Ok?
    ensures Next(p, ss, LabelMap(ss).value, index, st, fuel) == Proceed(j + 1, st)
  {
    LabelMapHasLabels(ss);
    assert ss[j].Label?;
  }

  /** A goto to a label the block does not hold throws, as the dictionary lookup does. */
  lemma GotoMissingLabelThrows(p: Program, ss: seq<Stmt>, index: nat, st: State, fuel: nat)
    requires index < |ss| && ss[index].Goto?
    requires forall j :: 0 <= j < |ss| ==> ss[j] != Label(ss[index].name)
    requires LabelMap(ss).Ok?
    ensures Next(p, ss, LabelMap(ss).value, index, st, fuel) == Halt(Threw("KeyNotFoundException", st))
  {
    LabelMapEntries(ss);
  }

  /**
   * A conditional goto whose condition evaluates to `b` jumps after its label iff `b`
   * equals `jumpIfTrue`, and otherwise goes on with the next statement.
   */
  lemma ConditionalGotoJumpsIff(p: Program, ss: seq<Stmt>, index: nat, j: nat, st: State, fuel: nat, b: bool, after: State)
    requires index < |ss| && ss[index].ConditionalGoto?
    requires j < |ss| && ss[j] == Label(ss[index].name)
    requires LabelMap(ss).Ok?
    requires EvalExpr(p, ss[index].condition, st, fuel) == Normal(BoolValue(b), after)
    ensures Next(p, ss, LabelMap(ss).value, index, st, fuel) ==
      Proceed(if b == ss[index].jumpIfTrue then j + 1 else index + 1, after)
  {
    LabelMapHasLabels(ss);
    assert ss[j].Label?;
  }

  /**
   * A return ends the block: what follows it is never run, the block's value is the
   * returned one, and `_hasValue` holds iff the return has a non-empty expression.
   */
  lemma ReturnStops(p: Program, ss: seq<Stmt>, rest: seq<Stmt>, labels: map<string, nat>, index: nat, st: State, fuel: nat)
    requires index < |ss| && ss[index].Return? && fuel > 0
    ensures Run(p, ss, labels, index, st, fuel) == Run(p, ss[..index + 1] + rest, labels, index, st, fuel)
    ensures var r := Run(p, ss, labels, index, st, fuel);
      r.Normal? ==> r.state.hasValue == (ss[index].returned.Some? && !ss[index].returned.value.Empty?) &&
                    r.state.lastValue == r.value
  {
    var other := ss[..index + 1] + rest;
    assert other[index] == ss[index];
    assert Next(p, ss, labels, index, st, fuel - 1) == Next(p, other, labels, index, st, fuel - 1);
  }

  /** `&&` with a `null` or `false` left operand is `false` whatever the right operand is; it is never evaluated. */
  lemma AndShortCircuits(p: Program, l: Expr, r1: Expr, r2: Expr, st: State, fuel: nat, v: LiteralValue, after: State)
    requires EvalExpr(p, l, st, fuel) == Normal(v, after)
    requires v == NullValue || v == BoolValue(false)
    ensures EvalExpr(p, Binary(l, ConditionalAnd, r1), st, fuel) == Normal(BoolValue(false), after)
    ensures EvalExpr(p, Binary(l, ConditionalAnd, r1), st, fuel) == EvalExpr(p, Binary(l, ConditionalAnd, r2), st, fuel)
  {
    assert EvalExpr(p, Binary(l, ConditionalAnd, r1), st, fuel) == ShortCircuit(p, true, v, r1, after, fuel);
    assert EvalExpr(p, Binary(l, ConditionalAnd, r2), st, fuel) == ShortCircuit(p, true, v, r2, after, fuel);
  }

  /** `||` with a `true` left operand is `true` whatever the right operand is; it is never evaluated. */
  lemma OrShortCircuits(p: Program, l: Expr, r1: Expr, r2: Expr, st: State, fuel: nat, after: State)
    requires EvalExpr(p, l, st, fuel) == Normal(BoolValue(true), after)
    ensures EvalExpr(p, Binary(l, ConditionalOr, r1), st, fuel) == Normal(BoolValue(true), after)
    ensures EvalExpr(p, Binary(l, ConditionalOr, r1), st, fuel) == EvalExpr(p, Binary(l, ConditionalOr, r2), st, fuel)
  {
    assert EvalExpr(p, Binary(l, ConditionalOr, r1), st, fuel) == ShortCircuit(p, false, BoolValue(true), r1, after, fuel);
    assert EvalExpr(p, Binary(l, ConditionalOr, r2), st, fuel) == ShortCircuit(p, false, BoolValue(true), r2, after, fuel);
  }

  /** Once the left operand does not decide, `&&` and `||` are decided by the right one, with `null` read as `false`. */
  lemma RightOperandDecides(p: Program, isAnd: bool, l: Expr, r: Expr, st: State, fuel: nat, left: LiteralValue, mid: State, right: bool, after: State)
    requires EvalExpr(p, l, st, fuel) == Normal(left, mid)
    requires left == BoolValue(isAnd) || left == NullValue
    requires EvalExpr(p, r, mid, fuel) == Normal(BoolValue(right), after)
    ensures EvalExpr(p, Binary(l, if isAnd then ConditionalAnd else ConditionalOr, r), st, fuel) ==
      if isAnd && left == NullValue then Normal(BoolValue(false), mid) else Normal(BoolValue(right), after)
  {
    BinaryShortCircuits(p, l, if isAnd then ConditionalAnd else ConditionalOr, r, st, fuel, left, mid);
    var decided := ShortCircuit(p, isAnd, left, r, mid, fuel);
    if isAnd && left == NullValue {
      assert decided == Normal(BoolValue(false), mid);
    } else {
      assert decided == Normal(BoolValue(right), after);
    }
  }

  /** `&&` and `||` hand the left operand's value to the short-circuit rule, in the state it left. */
  lemma BinaryShortCircuits(p: Program, l: Expr, op: BinaryOperator, r: Expr, st: State, fuel: nat, left: LiteralValue, mid: State)
    requires op == ConditionalAnd || op == ConditionalOr
    requires EvalExpr(p, l, st, fuel) == Normal(left, mid)
    ensures EvalExpr(p, Binary(l, op, r), st, fuel) == ShortCircuit(p, op == ConditionalAnd, left, r, mid, fuel)
  {
  }

  /** Any other binary operator with a `null` operand gives `null`, after evaluating both operands. */
  lemma NullPropagates(p: Program, l: Expr, op: BinaryOperator, r: Expr, st: State, fuel: nat,
                       left: LiteralValue, mid: State, right: LiteralValue, after: State)
    requires op != ConditionalAnd && op != ConditionalOr
    requires EvalExpr(p, l, st, fuel) == Normal(left, mid)
    requires EvalExpr(p, r, mid, fuel) == Normal(right, after)
    requires left == NullValue || right == NullValue
    ensures EvalExpr(p, Binary(l, op, r), st, fuel) == Normal(NullValue, after)
  {
  }

  /** A unary operator on a `null` operand gives `null`. */
  lemma UnaryNullPropagates(p: Program, op: UnaryOperator, x: Expr, st: State, fuel: nat, after: State)
    requires EvalExpr(p, x, st, fuel) == Normal(NullValue, after)
    ensures EvalExpr(p, Unary(op, x), st, fuel) == Normal(NullValue, after)
  {
  }

  /** Integer division of two `int` literals truncates towards zero: `9 / 2` is 4 and `-9 / 2` is -4. */
  lemma IntegerDivisionTruncates(p: Program, st: State, fuel: nat)
    ensures EvalExpr(p, Binary(Literal(IntValue(9)), Division, Literal(IntValue(2))), st, fuel) == Normal(IntValue(4), st)
    ensures EvalExpr(p, Binary(Literal(IntValue(-9)), Division, Literal(IntValue(2))), st, fuel) == Normal(IntValue(-4), st)
    ensures EvalExpr(p, Binary(Literal(IntValue(1)), Division, Literal(IntValue(0))), st, fuel) == Threw("DivideByZeroException", st)
  {
    DivisionValue(9, 2);
    DivisionValue(-9, 2);
    DivisionValue(1, 0);
  }

  /** The conditional operator evaluates the branch its condition picks and never the other one. */
  lemma TernaryChoosesBranch(p: Program, l: Expr, c: Expr, r: Expr, other: Expr, st: State, fuel: nat, b: bool, after: State)
    requires EvalExpr(p, l, st, fuel) == Normal(BoolValue(b), after)
    ensures b ==> EvalExpr(p, Ternary(l, c, r), st, fuel) == EvalExpr(p, c, after, fuel) == EvalExpr(p, Ternary(l, c, other), st, fuel)
    ensures !b ==> EvalExpr(p, Ternary(l, c, r), st, fuel) == EvalExpr(p, r, after, fuel) == EvalExpr(p, Ternary(l, other, r), st, fuel)
  {
    TernaryOnBool(p, l, c, r, st, fuel, b, after);
    TernaryOnBool(p, l, c, other, st, fuel, b, after);
    TernaryOnBool(p, l, other, r, st, fuel, b, after);
  }

  /** A condition that evaluates to a boolean picks one branch, evaluated in the state the condition left. */
  lemma TernaryOnBool(p: Program, l: Expr, c: Expr, r: Expr, st: State, fuel: nat, b: bool, after: State)
    requires EvalExpr(p, l, st, fuel) == Normal(BoolValue(b), after)
    ensures EvalExpr(p, Ternary(l, c, r), st, fuel) == if b then EvalExpr(p, c, after, fuel) else EvalExpr(p, r, after, fuel)
  {
  }

  /** Stepping an `int` up and back down by one returns it, wrap-around included. */
  lemma WrapStepBack(v: int)
    requires IsInt32(v)
    ensures Wrap(Wrap(v + 1) - 1) == v
  {
    if v == IntMax {
      assert Wrap(v + 1) == IntMin;
    } else {
      WrapInRange(v + 1);
      WrapInRange(v);
    }
  }

  /** The lowering of `x += 1`, `x = x + 1`, stores and yields the wrapped successor of `x`. */
  lemma LoweredIncrement(p: Program, x: string, st: State, fuel: nat, v: int)
    requires Lookup(st.frames, x) == Some(IntValue(v)) && IsInt32(v)
    ensures Store(st.frames, x, IntValue(Wrap(v + 1))).Some?
    ensures EvalExpr(p, Lowerer.Step(Variable(x), true), st, fuel) ==
      Normal(IntValue(Wrap(v + 1)), st.(frames := Store(st.frames, x, IntValue(Wrap(v + 1))).value))
  {
    assert EvalExpr(p, Binary(Variable(x), Addition, Literal(IntValue(1))), st, fuel) == Normal(IntValue(Wrap(v + 1)), st);
  }

  /**
   * The lowering of `x++` used as a value, `(x = x + 1) - 1`, evaluates to the old value of
   * `x` and stores the wrapped successor, as the postfix operator promises.
   */
  lemma LoweredPostfixIncrement(p: Program, x: string, st: State, fuel: nat, v: int)
    requires Lookup(st.frames, x) == Some(IntValue(v)) && IsInt32(v)
    ensures Store(st.frames, x, IntValue(Wrap(v + 1))).Some?
    ensures EvalExpr(p, Lowerer.LowerExpression(false, Postfix(Variable(x), true, false)), st, fuel) ==
      Normal(IntValue(v), st.(frames := Store(st.frames, x, IntValue(Wrap(v + 1))).value))
  {
    var step := Lowerer.Step(Variable(x), true);
    assert Lowerer.LowerExpression(false, Postfix(Variable(x), true, false)) == Binary(step, Subtraction, Literal(IntValue(1)));
    LoweredIncrement(p, x, st, fuel, v);
    SubtractOne(p, step, st, fuel, Wrap(v + 1), st.(frames := Store(st.frames, x, IntValue(Wrap(v + 1))).value));
    WrapStepBack(v);
  }

  /** Subtracting the literal 1 from an `int` operand gives its wrapped predecessor. */
  lemma SubtractOne(p: Program, e: Expr, st: State, fuel: nat, w: int, after: State)
    requires EvalExpr(p, e, st, fuel) == Normal(IntValue(w), after)
    ensures EvalExpr(p, Binary(e, Subtraction, Literal(IntValue(1))), st, fuel) == Normal(IntValue(Wrap(w - 1)), after)
  {
    var difference := BinaryValue(Subtraction, IntValue(w), IntValue(1));
    assert difference == Computed(IntValue(Wrap(w - 1)));
    assert Complete(difference, after) == Normal(IntValue(Wrap(w - 1)), after);
  }

  /** An assignment to a local stores its value where a later read finds it, and leaves every other local alone. */
  lemma AssignmentStores(p: Program, x: string, e: Expr, st: State, fuel: nat)
    requires EvalExpr(p, Assignment(Variable(x), e), st, fuel).Normal?
    ensures var r := EvalExpr(p, Assignment(Variable(x), e), st, fuel);
      var right := EvalExpr(p, e, st, fuel);
      right.Normal? && r.value == right.value && Lookup(r.state.frames, x) == Some(r.value) &&
      forall n :: n != x ==> Lookup(r.state.frames, n) == Lookup(right.state.frames, n)
  {
  }

  /**
   * A block that declares `x = 9` and returns `x / 2` evaluates to 4, with `_hasValue` set
   * and no exception recorded.
   */
  lemma DivisionProgram(p: Program)
    ensures ExecBlock(p, DivisionBlock(), false, State([map[]], NullValue, false, []), 2)
         == Normal(IntValue(4), State([map["x" := IntValue(9)]], IntValue(4), true, []))
  {
    var ss := DivisionBlock();
    assert LabelMap(ss) == Ok(map[]) by {
      assert ss[..1][..0] == [];
    }
    DivisionProgramDeclares(p);
    DivisionProgramReturns(p);
  }

  function DivisionBlock(): seq<Stmt>
  {
    [LocalDeclaration("x", Literal(IntValue(9))), Return(Some(Binary(Variable("x"), Division, Literal(IntValue(2)))))]
  }

  lemma DivisionProgramDeclares(p: Program)
    ensures Next(p, DivisionBlock(), map[], 0, State([map[]], NullValue, false, []), 1)
         == Proceed(1, State([map["x" := IntValue(9)]], NullValue, false, []))
  {
  }

  lemma DivisionProgramReturns(p: Program)
    ensures Next(p, DivisionBlock(), map[], 1, State([map["x" := IntValue(9)]], NullValue, false, []), 0)
         == Halt(Normal(IntValue(4), State([map["x" := IntValue(9)]], IntValue(4), true, [])))
  {
    var declared := State([map["x" := IntValue(9)]], NullValue, false, []);
    DivisionValue(9, 2);
    assert EvalExpr(p, Variable("x"), declared, 0) == Normal(IntValue(9), declared);
  }
}
