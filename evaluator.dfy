/**
 * The evaluator (Evaluating/Evaluator.cs): a goto interpreter over lowered blocks. Each
 * block maps every label to the index of the statement after it and runs a program
 * counter over its statements; locals live in a stack of frames, one per method
 * invocation; `_lastValue` and `_hasValue` record the last value produced. An exception
 * that is not an internal compiler error is caught at the outermost block of a method,
 * recorded, and turns the result into `null`.
 *
 * Evaluation carries a fuel bound that every statement executed and every method entered
 * consumes; it stands for the abort flag the source polls, and running out is an outcome
 * of its own.
 */
module Evaluator {
  import opened Wrappers
  import opened BoundTypes
  import opened BoundTree
  import opened EvaluatorValues
  import Lowerer

  /** One frame of the locals stack: the locals of one method invocation. */
  type Frame = map<string, LiteralValue>

  /** The evaluator's mutable state, as a value; the top of the locals stack is the last frame. */
  datatype State = State(frames: seq<Frame>, lastValue: LiteralValue, hasValue: bool, exceptions: seq<string>)

  datatype MethodBody = MethodBody(parameters: seq<string>, body: seq<Stmt>)

  /** The lowered method bodies, by method name. */
  type Program = map<string, MethodBody>

  datatype Outcome<T> =
    | Normal(value: T, state: State)
      /** A .NET exception, which the outermost block of a method catches. */
    | Threw(exception: string, state: State)
      /** A `BelteInternalException`, which nothing catches. */
    | Internal(message: string)
      /** A construct this model leaves out. */
    | Unsupported(what: string)
    | OutOfFuel

  /** Passes on an outcome that is not a value. */
  function Abandon<A, B>(o: Outcome<A>): (r: Outcome<B>)
    requires !o.Normal?
    ensures r.Threw? <==> o.Threw?
    ensures r.Threw? ==> r.exception == o.exception && r.state == o.state
  {
    match o
    case Threw(e, s) => Threw(e, s)
    case Internal(m) => Internal(m)
    case Unsupported(w) => Unsupported(w)
    case OutOfFuel => OutOfFuel
  }

  function Complete(c: Computed, st: State): (r: Outcome<LiteralValue>)
    ensures r.Normal? || r.Threw? ==> r.state == st
  {
    match c
    case Computed(v) => Normal(v, st)
    case Raised(e) => Threw(e, st)
    case Failed(m) => Internal(m)
    case NotModelled(w) => Unsupported(w)
  }

  /** `Get`: the value of a local in the topmost frame that holds it. */
  function Lookup(frames: seq<Frame>, name: string): (r: Option<LiteralValue>)
    ensures r.Some? <==> exists i :: 0 <= i < |frames| && name in frames[i]
    ensures r.Some? ==> exists i :: (0 <= i < |frames| && name in frames[i] && frames[i][name] == r.value &&
                                     forall j :: i < j < |frames| ==> name !in frames[j])
  {
    if frames == [] then None
    else if name in frames[|frames| - 1] then Some(frames[|frames| - 1][name])
    else Lookup(frames[..|frames| - 1], name)
  }

  /** `Assign` to a local: the value replaces the one in the topmost frame that holds it. */
  function Store(frames: seq<Frame>, name: string, value: LiteralValue): (r: Option<seq<Frame>>)
    ensures r.Some? <==> Lookup(frames, name).Some?
    ensures r.Some? ==> |r.value| == |frames| && Lookup(r.value, name) == Some(value)
    ensures r.Some? ==> forall n :: n != name ==> Lookup(r.value, n) == Lookup(frames, n)
  {
    if frames == [] then None
    else
      var front, top := frames[..|frames| - 1], frames[|frames| - 1];
      if name in top then Some(front + [top[name := value]])
      else
        match Store(front, name, value)
        case None => None
        case Some(f) => Some(f + [top])
  }

  /** `Create`: declares a local in the top frame, replacing one of the same name. */
  function Declare(frames: seq<Frame>, name: string, value: LiteralValue): (r: Option<seq<Frame>>)
    ensures r.Some? <==> frames != []
    ensures r.Some? ==> |r.value| == |frames| && Lookup(r.value, name) == Some(value)
  {
    if frames == [] then None
    else Some(frames[..|frames| - 1] + [frames[|frames| - 1][name := value]])
  }

  /**
   * The label table of a block: each label maps to the index of the statement after it;
   * a label that occurs twice makes `Dictionary.Add` throw.
   */
  function LabelMap(ss: seq<Stmt>): (r: Result<map<string, nat>>)
    ensures r.Fail? ==> r.error == "ArgumentException"
  {
    if ss == [] then Ok(map[])
    else
      var front := LabelMap(ss[..|ss| - 1]);
      var last := ss[|ss| - 1];
      if front.Fail? || !last.Label? then front
      else if last.name in front.value then Fail("ArgumentException")
      else Ok(front.value[last.name := |ss|])
  }

  predicate HasDuplicateLabel(ss: seq<Stmt>)
  {
    exists i, j :: 0 <= i < j < |ss| && ss[i].Label? && ss[j] == Label(ss[i].name)
  }

  /** The label table fails exactly when some label occurs twice. */
  lemma {:induction false} LabelMapFails(ss: seq<Stmt>)
    ensures LabelMap(ss).Fail? <==> HasDuplicateLabel(ss)
    decreases |ss|
  {
    if ss != [] {
      var front, last := ss[..|ss| - 1], ss[|ss| - 1];
      LabelMapFails(front);
      if LabelMap(front).Fail? {
        var i, j :| 0 <= i < j < |front| && front[i].Label? && front[j] == Label(front[i].name);
        assert ss[i] == front[i] && ss[j] == front[j];
      } else if last.Label? && last.name in LabelMap(front).value {
        LabelMapEntries(front);
        var i := LabelMap(front).value[last.name] - 1;
        assert ss[i] == front[i] == Label(last.name);
      } else {
        LabelMapHasLabels(front);
        assert forall i :: 0 <= i < |front| ==> front[i] == ss[i];
      }
    }
  }

  /** When the label table is built, every label maps to the index after it. */
  lemma {:induction false} LabelMapHasLabels(ss: seq<Stmt>)
    ensures LabelMap(ss).Ok? ==> forall i :: 0 <= i < |ss| && ss[i].Label? ==>
      ss[i].name in LabelMap(ss).value && LabelMap(ss).value[ss[i].name] == i + 1
    decreases |ss|
  {
    if ss != [] && LabelMap(ss).Ok? {
      var front, last := ss[..|ss| - 1], ss[|ss| - 1];
      LabelMapHasLabels(front);
      assert forall i :: 0 <= i < |front| ==> front[i] == ss[i];
    }
  }

  /** Every entry of the label table is the index after a label of that name. */
  lemma {:induction false} LabelMapEntries(ss: seq<Stmt>)
    ensures LabelMap(ss).Ok? ==> forall n :: n in LabelMap(ss).value ==>
      1 <= LabelMap(ss).value[n] <= |ss| && ss[LabelMap(ss).value[n] - 1] == Label(n)
    decreases |ss|
  {
    if ss != [] && LabelMap(ss).Ok? {
      var front, last := ss[..|ss| - 1], ss[|ss| - 1];
      LabelMapEntries(front);
      assert forall i :: 0 <= i < |front| ==> front[i] == ss[i];
    }
  }

  /** The loop in `EvaluateStatement` that fills the label table. */
  method BuildLabelMap(ss: seq<Stmt>) returns (r: Result<map<string, nat>>)
    ensures r == LabelMap(ss)
  {
    var labels: map<string, nat> := map[];
    var i := 0;
    while i < |ss|
      invariant 0 <= i <= |ss|
      invariant LabelMap(ss[..i]) == Ok(labels)
    {
      assert ss[..i + 1][..i] == ss[..i];
      if ss[i].Label? {
        if ss[i].name in labels {
          LabelMapEntries(ss[..i]);
          var a := labels[ss[i].name] - 1;
          assert ss[a] == Label(ss[i].name);
          assert ss[a].Label? && ss[i] == Label(ss[a].name);
          LabelMapFails(ss);
          return Fail("ArgumentException");
        }
        labels := labels[ss[i].name := i + 1];
      }
      i := i + 1;
    }
    assert ss[..i] == ss;
    r := Ok(labels);
  }

  /** The outermost block of a method catches an exception: it is recorded and the result is `null`. */
  function Catch(insideTry: bool, exception: string, st: State): (r: Outcome<LiteralValue>)
    ensures insideTry ==> r == Threw(exception, st)
    ensures !insideTry ==> (r.Normal? && r.value == NullValue && !r.state.hasValue &&
                            r.state.exceptions == st.exceptions + [exception] && r.state.frames == st.frames)
  {
    if insideTry then Threw(exception, st)
    else Normal(NullValue, st.(exceptions := st.exceptions + [exception], hasValue := false))
  }

  /**
   * `EvaluateExpression` on the node kinds that survive lowering: a constant is its value,
   * a variable reads its local, an assignment stores into it, `&&` and `||` short-circuit,
   * any other binary or unary operator on a `null` operand is `null`, the conditional
   * operator evaluates only the branch it takes, and a call binds its arguments to the
   * callee's parameters in a new frame.
   */
  function EvalExpr(p: Program, e: Expr, st: State, fuel: nat): (r: Outcome<LiteralValue>)
    ensures r.Normal? || r.Threw? ==> |r.state.frames| == |st.frames|
    decreases fuel, 1, ExprSize(e), 0, 0
  {
    match e
    case Literal(v) => Normal(v, st)
    case Constant(_, v) => Normal(v, st)
    case Empty => Normal(NullValue, st)
    case Variable(name) =>
      if Lookup(st.frames, name).Some? then Normal(Lookup(st.frames, name).value, st)
      else Internal("Get: not found in any accessible scopes")
    case Assignment(l, x) =>
      if !l.Variable? then Unsupported("assignment to a member or an element")
      else
        var right := EvalExpr(p, x, st, fuel);
        if !right.Normal? then right
        else
          (match Store(right.state.frames, l.name, right.value)
           case None => Internal("Get: not found in any accessible scopes")
           case Some(frames) => Normal(right.value, right.state.(frames := frames)))
    case Unary(op, x) =>
      var operand := EvalExpr(p, x, st, fuel);
      if !operand.Normal? then operand
      else if operand.value == NullValue then Normal(NullValue, operand.state)
      else Complete(UnaryValue(op, operand.value), operand.state)
    case Binary(l, op, x) =>
      var left := EvalExpr(p, l, st, fuel);
      if !left.Normal? then left
      else if op == ConditionalAnd || op == ConditionalOr then ShortCircuit(p, op == ConditionalAnd, left.value, x, left.state, fuel)
      else
        var right := EvalExpr(p, x, left.state, fuel);
        if !right.Normal? then right
        else if left.value == NullValue || right.value == NullValue then Normal(NullValue, right.state)
        else Complete(BinaryValue(op, left.value, right.value), right.state)
    case Ternary(l, c, x) =>
      var left := EvalExpr(p, l, st, fuel);
      if !left.Normal? then left
      else if left.value == BoolValue(true) then EvalExpr(p, c, left.state, fuel)
      else if left.value == BoolValue(false) then EvalExpr(p, x, left.state, fuel)
      else if left.value == NullValue then Threw("NullReferenceException", left.state)
      else Threw("InvalidCastException", left.state)
    case Call(name, args) =>
      if name !in p then Unsupported("a built-in method")
      else
        var frame := EvalArgs(p, args, p[name].parameters, st, fuel);
        if !frame.Normal? then Abandon(frame)
        else if fuel == 0 then OutOfFuel
        else
          var entered := frame.state.(frames := frame.state.frames + [frame.value]);
          var result := ExecBlock(p, p[name].body, false, entered, fuel - 1);
          if !result.Normal? then Abandon(result)
          else Normal(result.value, result.state.(frames := result.state.frames[..|result.state.frames| - 1]))
    case CompoundAssignment(_, _, _) => Internal("EvaluateExpression: unexpected node")
    case Prefix(_, _) => Internal("EvaluateExpression: unexpected node")
    case Postfix(_, _, _) => Internal("EvaluateExpression: unexpected node")
    case Cast(_, _) => Unsupported("casts")
    case Index(_, _) => Unsupported("collections")
  }

  /**
   * `&&` (`isAnd`) and `||` once the left operand is known: a `null` or `false` left
   * operand decides `&&`, a `true` one decides `||`, and otherwise the right operand
   * decides, with `null` read as `false`.
   */
  function ShortCircuit(p: Program, isAnd: bool, left: LiteralValue, x: Expr, st: State, fuel: nat)
    : (r: Outcome<LiteralValue>)
    ensures r.Normal? || r.Threw? ==> |r.state.frames| == |st.frames|
    decreases fuel, 1, ExprSize(x), 1, 0
  {
    if isAnd && (left == NullValue || left == BoolValue(false)) then Normal(BoolValue(false), st)
    else if !isAnd && left == BoolValue(true) then Normal(BoolValue(true), st)
    else if left != NullValue && !left.BoolValue? then Threw("InvalidCastException", st)
    else
      var right := EvalExpr(p, x, st, fuel);
      if !right.Normal? then right
      else if right.value == BoolValue(true) then Normal(BoolValue(true), right.state)
      else if right.value == NullValue || right.value == BoolValue(false) then Normal(BoolValue(false), right.state)
      else Threw("InvalidCastException", right.state)
  }

  /**
   * The argument loop of `InvokeMethod`: each argument is evaluated in order and added to
   * the new frame under its parameter; an argument without a parameter, or a parameter
   * added twice, throws.
   */
  function EvalArgs(p: Program, args: seq<Expr>, parameters: seq<string>, st: State, fuel: nat): (r: Outcome<Frame>)
    ensures r.Normal? || r.Threw? ==> |r.state.frames| == |st.frames|
    ensures r.Normal? ==> |args| <= |parameters| && forall i :: 0 <= i < |args| ==> parameters[i] in r.value
    decreases fuel, 1, ExprsSize(args), 1, |args|
  {
    if args == [] then Normal(map[], st)
    else
      var front := EvalArgs(p, args[..|args| - 1], parameters, st, fuel);
      if !front.Normal? then front
      else if |args| - 1 >= |parameters| then Threw("IndexOutOfRangeException", front.state)
      else
        var value := EvalExpr(p, args[|args| - 1], front.state, fuel);
        if !value.Normal? then Abandon(value)
        else if parameters[|args| - 1] in front.value then Threw("ArgumentException", value.state)
        else Normal(front.value[parameters[|args| - 1] := value.value], value.state)
  }

  /** What one statement of the loop leads to: the index to go on at, or the outcome of the block. */
  datatype Transition = Proceed(next: nat, state: State) | Halt(outcome: Outcome<LiteralValue>)

  /**
   * One iteration of the `while` loop of `EvaluateStatement`, on statement `index`. A nested
   * block runs as a block of its own whose exceptions reach this one, and a return inside it
   * does not end this block.
   */
  function Next(p: Program, ss: seq<Stmt>, labels: map<string, nat>, index: nat, st: State, fuel: nat)
    : (t: Transition)
    requires index < |ss|
    ensures t.Proceed? ==> |t.state.frames| == |st.frames|
    ensures t.Halt? && (t.outcome.Normal? || t.outcome.Threw?) ==> |t.outcome.state.frames| == |st.frames|
    ensures t.Halt? && t.outcome.Normal? ==> t.outcome.value == t.outcome.state.lastValue
    decreases fuel, 4, 0, 0, 0
  {
    match ss[index]
    case Block(inner) =>
      var nested := ExecBlock(p, inner, true, st, fuel);
      if nested.Normal? then Proceed(index + 1, nested.state) else Halt(nested)
    case Nop => Proceed(index + 1, st)
    case Label(_) => Proceed(index + 1, st)
    case ExpressionStatement(x) =>
      var value := EvalExpr(p, x, st, fuel);
      if value.Normal? then Proceed(index + 1, value.state.(lastValue := value.value)) else Halt(value)
    case LocalDeclaration(name, x) =>
      var value := EvalExpr(p, x, st, fuel);
      if !value.Normal? then Halt(value)
      else
        var cleared := value.state.(lastValue := NullValue);
        (match Declare(cleared.frames, name, value.value)
         case None => Halt(Threw("InvalidOperationException", cleared))
         case Some(frames) => Proceed(index + 1, cleared.(frames := frames)))
    case Goto(name) =>
      if name in labels then Proceed(labels[name], st) else Halt(Threw("KeyNotFoundException", st))
    case ConditionalGoto(name, x, jumpIfTrue) =>
      var condition := EvalExpr(p, x, st, fuel);
      if !condition.Normal? then Halt(condition)
      else if !condition.value.BoolValue? then
        Halt(Threw(if condition.value == NullValue then "NullReferenceException" else "InvalidCastException", condition.state))
      else if condition.value.b != jumpIfTrue then Proceed(index + 1, condition.state)
      else if name in labels then Proceed(labels[name], condition.state)
      else Halt(Threw("KeyNotFoundException", condition.state))
    case Return(x) =>
      if x.None? then Halt(Normal(NullValue, st.(lastValue := NullValue, hasValue := false)))
      else
        var value := EvalExpr(p, x.value, st, fuel);
        if !value.Normal? then Halt(value)
        else Halt(Normal(value.value, value.state.(lastValue := value.value, hasValue := !x.value.Empty?)))
    case _ => Halt(Internal("EvaluateStatement: unexpected statement"))
  }

  /** The `while` loop of `EvaluateStatement` from statement `index` on; each iteration consumes fuel. */
  function Run(p: Program, ss: seq<Stmt>, labels: map<string, nat>, index: nat, st: State, fuel: nat)
    : (r: Outcome<LiteralValue>)
    ensures r.Normal? || r.Threw? ==> |r.state.frames| == |st.frames|
    ensures r.Normal? ==> r.value == r.state.lastValue
    decreases fuel, 2, 0, 0, 0
  {
    if index >= |ss| then Normal(st.lastValue, st)
    else if fuel == 0 then OutOfFuel
    else
      match Next(p, ss, labels, index, st, fuel - 1)
      case Proceed(next, s) => Run(p, ss, labels, next, s, fuel - 1)
      case Halt(outcome) => outcome
  }

  /**
   * `EvaluateStatement` on a block: `_hasValue` is cleared, the label table is built and the
   * statements run from the first; outside a nested block an exception is caught.
   */
  function ExecBlock(p: Program, ss: seq<Stmt>, insideTry: bool, st: State, fuel: nat): (r: Outcome<LiteralValue>)
    ensures !insideTry ==> !r.Threw?
    ensures r.Normal? || r.Threw? ==> |r.state.frames| == |st.frames|
    decreases fuel, 3, 0, 0, 0
  {
    var start := st.(hasValue := false);
    match LabelMap(ss)
    case Fail(e) => Catch(insideTry, e, start)
    case Ok(labels) =>
      var r := Run(p, ss, labels, 0, start, fuel);
      if r.Threw? then Catch(insideTry, r.exception, r.state) else r
  }

  /** The evaluator object, whose locals stack and last-value fields the statement loop updates. */
  class Evaluator {
    const program: Program
    var locals: seq<Frame>
    var lastValue: LiteralValue
    var hasValue: bool
    var exceptions: seq<string>

    function Current(): State
      reads this
    {
      State(locals, lastValue, hasValue, exceptions)
    }

    /** The constructor pushes one empty frame. */
    constructor(program: Program)
      ensures this.program == program
      ensures Current() == State([map[]], NullValue, false, [])
    {
      this.program := program;
      locals := [map[]];
      lastValue := NullValue;
      hasValue := false;
      exceptions := [];
    }

    method Restore(s: State)
      modifies this
      ensures Current() == s
    {
      locals, lastValue, hasValue, exceptions := s.frames, s.lastValue, s.hasValue, s.exceptions;
    }

    /** `EvaluateStatement` on a block of statements. */
    method EvaluateStatement(ss: seq<Stmt>, insideTry: bool, fuel: nat) returns (r: Outcome<LiteralValue>)
      modifies this
      ensures r == ExecBlock(program, ss, insideTry, old(Current()), fuel)
      ensures r.Normal? || r.Threw? ==> Current() == r.state
      decreases fuel, 2
    {
      hasValue := false;
      var labelMap := BuildLabelMap(ss);
      if labelMap.Fail? {
        r := Catch(insideTry, labelMap.error, Current());
      } else {
        r := RunStatements(ss, labelMap.value, fuel);
        if r.Threw? {
          r := Catch(insideTry, r.exception, r.state);
        }
      }
      if r.Normal? || r.Threw? {
        Restore(r.state);
      }
    }

    /** The program-counter loop of `EvaluateStatement`. */
    method RunStatements(ss: seq<Stmt>, labels: map<string, nat>, fuel: nat) returns (r: Outcome<LiteralValue>)
      modifies this
      ensures r == Run(program, ss, labels, 0, old(Current()), fuel)
      ensures r.Normal? || r.Threw? ==> Current() == r.state
      decreases fuel, 1
    {
      var index: nat := 0;
      var f: nat := fuel;
      while index < |ss|
        invariant f <= fuel
        invariant Run(program, ss, labels, index, Current(), f) == Run(program, ss, labels, 0, old(Current()), fuel)
        decreases f
      {
        if f == 0 {
          return OutOfFuel;
        }
        var t := Step(ss, labels, index, f - 1);
        if t.Halt? {
          return t.outcome;
        }
        index, f := t.next, f - 1;
      }
      r := Normal(lastValue, Current());
    }

    /** One iteration of the loop, on statement `index`. */
    method Step(ss: seq<Stmt>, labels: map<string, nat>, index: nat, fuel: nat) returns (t: Transition)
      requires index < |ss|
      modifies this
      ensures t == Next(program, ss, labels, index, old(Current()), fuel)
      ensures t.Proceed? ==> Current() == t.state
      ensures t.Halt? && (t.outcome.Normal? || t.outcome.Threw?) ==> Current() == t.outcome.state
      decreases fuel, 3
    {
      match ss[index] {
        case Block(inner) =>
          var nested := EvaluateStatement(inner, true, fuel);
          t := if nested.Normal? then Proceed(index + 1, nested.state) else Halt(nested);
        case Nop =>
          t := Proceed(index + 1, Current());
        case Label(_) =>
          t := Proceed(index + 1, Current());
        case ExpressionStatement(x) =>
          t := EvaluateExpressionStatement(ss, labels, index, fuel);
        case LocalDeclaration(name, x) =>
          t := DeclareLocal(ss, labels, index, fuel);
        case Goto(name) =>
          t := if name in labels then Proceed(labels[name], Current()) else Halt(Threw("KeyNotFoundException", Current()));
        case ConditionalGoto(name, x, jumpIfTrue) =>
          t := JumpIf(ss, labels, index, fuel);
        case Return(x) =>
          t := EvaluateReturn(ss, labels, index, fuel);
        case _ =>
          t := Halt(Internal("EvaluateStatement: unexpected statement"));
      }
    }

    /** `EvaluateExpressionStatement`: the expression's value becomes the last value. */
    method EvaluateExpressionStatement(ss: seq<Stmt>, labels: map<string, nat>, index: nat, fuel: nat)
      returns (t: Transition)
      requires index < |ss| && ss[index].ExpressionStatement?
      modifies this
      ensures t == Next(program, ss, labels, index, old(Current()), fuel)
      ensures t.Proceed? ==> Current() == t.state
      ensures t.Halt? && (t.outcome.Normal? || t.outcome.Threw?) ==> Current() == t.outcome.state
    {
      var value := EvalExpr(program, ss[index].expression, Current(), fuel);
      if value.Normal? {
        Restore(value.state);
        lastValue := value.value;
        t := Proceed(index + 1, Current());
      } else {
        if value.Threw? {
          Restore(value.state);
        }
        t := Halt(value);
      }
    }

    /** `EvaluateLocalDeclarationStatement`: the initializer's value is declared in the top frame. */
    method DeclareLocal(ss: seq<Stmt>, labels: map<string, nat>, index: nat, fuel: nat) returns (t: Transition)
      requires index < |ss| && ss[index].LocalDeclaration?
      modifies this
      ensures t == Next(program, ss, labels, index, old(Current()), fuel)
      ensures t.Proceed? ==> Current() == t.state
      ensures t.Halt? && (t.outcome.Normal? || t.outcome.Threw?) ==> Current() == t.outcome.state
    {
      var statement := ss[index];
      var value := EvalExpr(program, statement.initializer, Current(), fuel);
      if !value.Normal? {
        if value.Threw? {
          Restore(value.state);
        }
        return Halt(value);
      }
      Restore(value.state);
      lastValue := NullValue;
      if locals == [] {
        return Halt(Threw("InvalidOperationException", Current()));
      }
      locals := locals[..|locals| - 1] + [locals[|locals| - 1][statement.name := value.value]];
      t := Proceed(index + 1, Current());
    }

    /** A conditional goto: the condition must be a boolean, and the jump is taken iff it equals `jumpIfTrue`. */
    method JumpIf(ss: seq<Stmt>, labels: map<string, nat>, index: nat, fuel: nat) returns (t: Transition)
      requires index < |ss| && ss[index].ConditionalGoto?
      modifies this
      ensures t == Next(program, ss, labels, index, old(Current()), fuel)
      ensures t.Proceed? ==> Current() == t.state
      ensures t.Halt? && (t.outcome.Normal? || t.outcome.Threw?) ==> Current() == t.outcome.state
    {
      var statement := ss[index];
      var condition := EvalExpr(program, statement.condition, Current(), fuel);
      if !condition.Normal? {
        if condition.Threw? {
          Restore(condition.state);
        }
        return Halt(condition);
      }
      Restore(condition.state);
      if !condition.value.BoolValue? {
        t := Halt(Threw(if condition.value == NullValue then "NullReferenceException" else "InvalidCastException", Current()));
      } else if condition.value.b != statement.jumpIfTrue {
        t := Proceed(index + 1, Current());
      } else if statement.name in labels {
        t := Proceed(labels[statement.name], Current());
      } else {
        t := Halt(Threw("KeyNotFoundException", Current()));
      }
    }

    /** A return statement ends the block with its value; `_hasValue` says whether it had a non-empty expression. */
    method EvaluateReturn(ss: seq<Stmt>, labels: map<string, nat>, index: nat, fuel: nat) returns (t: Transition)
      requires index < |ss| && ss[index].Return?
      modifies this
      ensures t == Next(program, ss, labels, index, old(Current()), fuel)
      ensures t.Proceed? ==> Current() == t.state
      ensures t.Halt? && (t.outcome.Normal? || t.outcome.Threw?) ==> Current() == t.outcome.state
    {
      var returned := ss[index].returned;
      if returned.None? {
        lastValue, hasValue := NullValue, false;
        return Halt(Normal(NullValue, Current()));
      }
      var value := EvalExpr(program, returned.value, Current(), fuel);
      if !value.Normal? {
        if value.Threw? {
          Restore(value.state);
        }
        return Halt(value);
      }
      Restore(value.state);
      lastValue, hasValue := value.value, !returned.value.Empty?;
      t := Halt(Normal(value.value, Current()));
    }

    /**
     * `InvokeMethod`: the arguments fill a new frame, which is pushed for the body and
     * popped afterwards, so the locals stack is as deep as before.
     */
    method InvokeMethod(name: string, arguments: seq<Expr>, fuel: nat) returns (r: Outcome<LiteralValue>)
      requires name in program
      modifies this
      ensures r == EvalExpr(program, Call(name, arguments), old(Current()), fuel)
      ensures r.Normal? || r.Threw? ==> Current() == r.state && |locals| == old(|locals|)
    {
      var frame := EvalArgs(program, arguments, program[name].parameters, Current(), fuel);
      if !frame.Normal? {
        if frame.Threw? {
          Restore(frame.state);
        }
        return Abandon(frame);
      }
      if fuel == 0 {
        return OutOfFuel;
      }
      Restore(frame.state);
      locals := locals + [frame.value];
      var result := EvaluateStatement(program[name].body, false, fuel - 1);
      if !result.Normal? {
        return Abandon(result);
      }
      locals := locals[..|locals| - 1];
      r := Normal(result.value, Current());
    }
  }
}
