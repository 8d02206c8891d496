/**
 * Pure parts of the IL emitter (Emitting/ILEmitter.cs): how a chain of string additions is
 * flattened, its constant pieces folded and the concatenation call chosen; how recorded
 * branches are patched to their labels once a method body is emitted; and which
 * conversion method a cast calls. The IL library itself is not part of this model:
 * instructions are plain values here.
 */
module ILEmitter {
  import opened Wrappers
  import opened BoundTypes

  // ---------------------------------------------------------------------------------------
  // String concatenation

  /**
   * The expressions a string concatenation is made of: an addition of two expressions,
   * or any other expression, identified by `id`, perhaps with a constant string value
   * (a null constant is folded away like the empty string, so it is written as ""). `isString`
   * says whether the expression's type is `string`.
   */
  datatype Expr =
    | Addition(left: Expr, right: Expr, isString: bool)
    | Other(id: nat, isString: bool, constant: Option<string>)

  /** An addition of two strings, which `Flatten` takes apart. */
  predicate IsConcat(e: Expr)
  {
    e.Addition? && e.left.isString && e.right.isString
  }

  /** `Flatten`: the operands of nested string additions, left to right; any other operand must be a string. */
  function Flatten(e: Expr): (r: Result<seq<Expr>>)
    ensures r.Ok? ==> |r.value| >= 1 && forall k :: 0 <= k < |r.value| ==> r.value[k].isString && !IsConcat(r.value[k])
    ensures !IsConcat(e) ==> (r.Ok? <==> e.isString)
  {
    if IsConcat(e) then
      match Flatten(e.left)
      case Fail(m) => Fail(m)
      case Ok(l) =>
        match Flatten(e.right)
        case Fail(m) => Fail(m)
        case Ok(rt) => Ok(l + rt)
    else if !e.isString then Fail("Flatten: unexpected node type in string concatenation")
    else Ok([e])
  }

  /** The value of an expression as a string, reading non-constant ones from `env`. */
  function Value(e: Expr, env: nat -> string): string
  {
    if IsConcat(e) then Value(e.left, env) + Value(e.right, env)
    else match e
      case Other(id, _, constant) => if constant.Some? then constant.value else env(id)
      case Addition(_, _, _) => env(0)
  }

  /** The value of a list of expressions joined together. */
  function Concat(nodes: seq<Expr>, env: nat -> string): string
  {
    if nodes == [] then "" else Concat(nodes[..|nodes| - 1], env) + Value(nodes[|nodes| - 1], env)
  }

  lemma {:induction false} ConcatAppend(a: seq<Expr>, b: seq<Expr>, env: nat -> string)
    ensures Concat(a + b, env) == Concat(a, env) + Concat(b, env)
    decreases |b|
  {
    if b == [] {
      assert a + b == a;
    } else {
      assert (a + b)[..|a + b| - 1] == a + b[..|b| - 1];
      ConcatAppend(a, b[..|b| - 1], env);
    }
  }

  /** Flattening keeps the value of the concatenation. */
  lemma {:induction false} FlattenKeepsValue(e: Expr, env: nat -> string)
    requires Flatten(e).Ok?
    ensures Concat(Flatten(e).value, env) == Value(e, env)
  {
    if IsConcat(e) {
      FlattenKeepsValue(e.left, env);
      FlattenKeepsValue(e.right, env);
      ConcatAppend(Flatten(e.left).value, Flatten(e.right).value, env);
    } else {
      assert Flatten(e).value == [e];
      assert [e][..0] == [];
    }
  }

  /** The literal `FoldConstants` makes of a run of constants. */
  function Literal(text: string): Expr
  {
    Other(0, true, Some(text))
  }

  /** What `FoldConstants` has produced so far, and the constant text still gathered. */
  datatype FoldState = FoldState(out: seq<Expr>, pending: string)

  /** Ends a run of constants: the gathered text, if any, becomes one literal. */
  function Emit(st: FoldState): seq<Expr>
  {
    if st.pending != "" then st.out + [Literal(st.pending)] else st.out
  }

  /** One node offered to `FoldConstants`. */
  function FoldStep(st: FoldState, node: Expr): FoldState
  {
    if node.Other? && node.constant.Some? then
      if node.constant.value == "" then st else st.(pending := st.pending + node.constant.value)
    else FoldState(Emit(st) + [node], "")
  }

  /** `FoldConstants`, node by node. */
  function Fold(nodes: seq<Expr>): FoldState
  {
    if nodes == [] then FoldState([], "") else FoldStep(Fold(nodes[..|nodes| - 1]), nodes[|nodes| - 1])
  }

  /** Whether a node is a constant. */
  predicate IsConstant(e: Expr)
  {
    e.Other? && e.constant.Some?
  }

  /** The non-constant nodes, in order. */
  function NonConstants(nodes: seq<Expr>): seq<Expr>
  {
    if nodes == [] then []
    else NonConstants(nodes[..|nodes| - 1]) + (if IsConstant(nodes[|nodes| - 1]) then [] else [nodes[|nodes| - 1]])
  }

  /** `FoldConstants` on a whole list: the last run is flushed at the end. */
  method FoldConstants(nodes: seq<Expr>) returns (r: seq<Expr>)
    ensures r == Emit(Fold(nodes))
  {
    r := [];
    var builder := "";
    var i := 0;
    while i < |nodes|
      invariant 0 <= i <= |nodes|
      invariant FoldState(r, builder) == Fold(nodes[..i])
    {
      assert nodes[..i + 1][..i] == nodes[..i];
      var node := nodes[i];
      if node.Other? && node.constant.Some? {
        var text := node.constant.value;
        if text != "" {
          builder := builder + text;
        }
      } else {
        if |builder| > 0 {
          r := r + [Literal(builder)];
          builder := "";
        }
        r := r + [node];
      }
      i := i + 1;
    }
    assert nodes[..i] == nodes;
    if |builder| > 0 {
      r := r + [Literal(builder)];
    }
  }

  /** Well-folded output: no empty constant, and no two constants side by side. */
  predicate Folded(nodes: seq<Expr>)
  {
    (forall k :: 0 <= k < |nodes| && IsConstant(nodes[k]) ==> nodes[k].constant.value != "")
    && (forall k :: 0 < k < |nodes| && IsConstant(nodes[k]) ==> !IsConstant(nodes[k - 1]))
  }

  lemma ConcatSnoc(a: seq<Expr>, x: Expr, env: nat -> string)
    ensures Concat(a + [x], env) == Concat(a, env) + Value(x, env)
  {
    assert (a + [x])[..|a|] == a;
  }

  lemma NonConstantsSnoc(a: seq<Expr>, x: Expr)
    ensures NonConstants(a + [x]) == NonConstants(a) + (if IsConstant(x) then [] else [x])
  {
    assert (a + [x])[..|a|] == a;
  }

  /** Closing a run adds its text as one constant and no non-constant node. */
  lemma EmitKeeps(st: FoldState, env: nat -> string)
    ensures Concat(Emit(st), env) == Concat(st.out, env) + st.pending
    ensures NonConstants(Emit(st)) == NonConstants(st.out)
  {
    if st.pending != "" {
      ConcatSnoc(st.out, Literal(st.pending), env);
      NonConstantsSnoc(st.out, Literal(st.pending));
    }
  }

  /** The output so far plus the gathered text has the value of the input. */
  lemma {:induction false} FoldKeepsValue(nodes: seq<Expr>, env: nat -> string)
    ensures Concat(Fold(nodes).out, env) + Fold(nodes).pending == Concat(nodes, env)
    decreases |nodes|
  {
    if nodes != [] {
      var front, node := nodes[..|nodes| - 1], nodes[|nodes| - 1];
      FoldKeepsValue(front, env);
      if !IsConstant(node) {
        EmitKeeps(Fold(front), env);
        ConcatSnoc(Emit(Fold(front)), node, env);
      }
    }
  }

  /** The output so far keeps the input's non-constant nodes in order. */
  lemma {:induction false} FoldKeepsNonConstants(nodes: seq<Expr>)
    ensures NonConstants(Fold(nodes).out) == NonConstants(nodes)
    decreases |nodes|
  {
    if nodes != [] {
      var front, node := nodes[..|nodes| - 1], nodes[|nodes| - 1];
      FoldKeepsNonConstants(front);
      if !IsConstant(node) {
        EmitKeeps(Fold(front), x => "");
        NonConstantsSnoc(Emit(Fold(front)), node);
      }
    }
  }

  /** Adding a non-empty constant after a non-constant node, or any non-constant node, keeps a list well folded. */
  lemma FoldedSnoc(s: seq<Expr>, x: Expr)
    requires Folded(s)
    requires IsConstant(x) ==> x.constant.value != "" && (|s| > 0 ==> !IsConstant(s[|s| - 1]))
    ensures Folded(s + [x])
  {
    var t := s + [x];
    forall k | 0 < k < |t| && IsConstant(t[k]) ensures !IsConstant(t[k - 1]) {
      if k < |s| {
        assert t[k] == s[k] && t[k - 1] == s[k - 1];
      }
    }
  }

  /** The output so far is well folded and, unless empty, ends in a non-constant node. */
  lemma {:induction false} FoldWellFolded(nodes: seq<Expr>)
    ensures Folded(Fold(nodes).out)
    ensures |Fold(nodes).out| > 0 ==> !IsConstant(Fold(nodes).out[|Fold(nodes).out| - 1])
    decreases |nodes|
  {
    if nodes != [] {
      var front, node := nodes[..|nodes| - 1], nodes[|nodes| - 1];
      FoldWellFolded(front);
      var st := Fold(front);
      if !IsConstant(node) {
        if st.pending != "" {
          FoldedSnoc(st.out, Literal(st.pending));
        }
        FoldedSnoc(Emit(st), node);
      }
    }
  }

  /**
   * Folding keeps the value of the concatenation and its non-constant nodes in order, and
   * leaves no empty constant and no two neighbouring constants.
   */
  lemma FoldConstantsCorrect(nodes: seq<Expr>, env: nat -> string)
    ensures Concat(Emit(Fold(nodes)), env) == Concat(nodes, env)
    ensures NonConstants(Emit(Fold(nodes))) == NonConstants(nodes)
    ensures Folded(Emit(Fold(nodes)))
  {
    FoldKeepsValue(nodes, env);
    FoldKeepsNonConstants(nodes);
    FoldWellFolded(nodes);
    EmitKeeps(Fold(nodes), env);
    var st := Fold(nodes);
    if st.pending != "" {
      FoldedSnoc(st.out, Literal(st.pending));
    }
  }

  /** The instructions of a string concatenation; `Load` emits one operand. */
  datatype Op =
    | Ldstr(text: string)
    | Load(node: Expr)
    | CallConcat(arity: nat)
    | CallConcatArray
    | LdcI4(value: int)
    | NewStringArray
    | Dup
    | StelemRef

  /** The operands an instruction list loads, in order. */
  function Loaded(il: seq<Op>): seq<Expr>
  {
    if il == [] then [] else Loaded(il[..|il| - 1]) + (if il[|il| - 1].Load? then [il[|il| - 1].node] else [])
  }

  /** Storing one node into the array at index `i`. */
  function StoreAt(i: int, node: Expr): seq<Op>
  {
    [Dup, LdcI4(i), Load(node), StelemRef]
  }

  lemma LoadedSnoc(il: seq<Op>, op: Op)
    ensures Loaded(il + [op]) == Loaded(il) + (if op.Load? then [op.node] else [])
  {
    assert (il + [op])[..|il|] == il;
  }

  /** Storing a node loads exactly that node. */
  lemma LoadedStore(il: seq<Op>, i: int, node: Expr)
    ensures Loaded(il + StoreAt(i, node)) == Loaded(il) + [node]
  {
    LoadedSnoc(il, Dup);
    LoadedSnoc(il + [Dup], LdcI4(i));
    LoadedSnoc(il + [Dup, LdcI4(i)], Load(node));
    LoadedSnoc(il + [Dup, LdcI4(i), Load(node)], StelemRef);
    assert il + [Dup] + [LdcI4(i)] == il + [Dup, LdcI4(i)];
    assert il + [Dup, LdcI4(i)] + [Load(node)] == il + [Dup, LdcI4(i), Load(node)];
    assert il + [Dup, LdcI4(i), Load(node)] + [StelemRef] == il + StoreAt(i, node);
  }

  /**
   * `EmitStringConcatExpression` after folding: the empty string for no node, the node
   * itself for one, the two-, three- or four-argument `String.Concat` for up to four, and
   * otherwise an array filled index by index and `String.Concat(string[])`.
   */
  method EmitConcat(nodes: seq<Expr>) returns (il: seq<Op>)
    ensures Loaded(il) == nodes
    ensures |nodes| == 0 ==> il == [Ldstr("")]
    ensures |nodes| == 1 ==> il == [Load(nodes[0])]
    ensures 2 <= |nodes| <= 4 ==> |il| == |nodes| + 1 && il[|nodes|] == CallConcat(|nodes|)
    ensures |nodes| > 4 ==> (
      |il| == 4 * |nodes| + 3
      && il[..2] == [LdcI4(|nodes|), NewStringArray] && il[|il| - 1] == CallConcatArray
      && forall i :: 0 <= i < |nodes| ==> il[2 + 4 * i..6 + 4 * i] == StoreAt(i, nodes[i]))
  {
    if |nodes| == 0 {
      il := [Ldstr("")];
      LoadedSnoc([], Ldstr(""));
    } else if |nodes| <= 4 {
      il := EmitLoads(nodes);
      if |nodes| > 1 {
        LoadedSnoc(il, CallConcat(|nodes|));
        il := il + [CallConcat(|nodes|)];
      }
    } else {
      il := EmitArrayConcat(nodes);
    }
  }

  /** Each operand loaded in turn, for the fixed-arity calls. */
  method EmitLoads(nodes: seq<Expr>) returns (il: seq<Op>)
    ensures |il| == |nodes| && Loaded(il) == nodes
    ensures forall k :: 0 <= k < |nodes| ==> il[k] == Load(nodes[k])
  {
    il := [];
    var i := 0;
    while i < |nodes|
      invariant 0 <= i <= |nodes| && |il| == i
      invariant forall k :: 0 <= k < i ==> il[k] == Load(nodes[k])
      invariant Loaded(il) == nodes[..i]
    {
      LoadedSnoc(il, Load(nodes[i]));
      assert nodes[..i + 1] == nodes[..i] + [nodes[i]];
      il := il + [Load(nodes[i])];
      i := i + 1;
    }
    assert nodes[..i] == nodes;
  }

  /** The array path: a new array of the right length, filled index by index, then one call. */
  method EmitArrayConcat(nodes: seq<Expr>) returns (il: seq<Op>)
    ensures |il| == 4 * |nodes| + 3 && Loaded(il) == nodes
    ensures il[..2] == [LdcI4(|nodes|), NewStringArray] && il[|il| - 1] == CallConcatArray
    ensures forall i :: 0 <= i < |nodes| ==> il[2 + 4 * i..6 + 4 * i] == StoreAt(i, nodes[i])
  {
    var n := |nodes|;
    LoadedSnoc([], LdcI4(n));
    LoadedSnoc([LdcI4(n)], NewStringArray);
    il := [LdcI4(n), NewStringArray];
    var i := 0;
    while i < n
      invariant 0 <= i <= n && |il| == 2 + 4 * i
      invariant il[..2] == [LdcI4(n), NewStringArray]
      invariant forall j :: 0 <= j < i ==> il[2 + 4 * j..6 + 4 * j] == StoreAt(j, nodes[j])
      invariant Loaded(il) == nodes[..i]
    {
      var before := il;
      il := il + StoreAt(i, nodes[i]);
      LoadedStore(before, i, nodes[i]);
      assert nodes[..i + 1] == nodes[..i] + [nodes[i]];
      forall j | 0 <= j < i ensures il[2 + 4 * j..6 + 4 * j] == StoreAt(j, nodes[j]) {
        assert il[2 + 4 * j..6 + 4 * j] == before[2 + 4 * j..6 + 4 * j];
      }
      assert il[2 + 4 * i..6 + 4 * i] == StoreAt(i, nodes[i]);
      i := i + 1;
    }
    assert nodes[..n] == nodes;
    var body := il;
    LoadedSnoc(body, CallConcatArray);
    il := il + [CallConcatArray];
    assert il[..2] == body[..2];
    forall j | 0 <= j < n ensures il[2 + 4 * j..6 + 4 * j] == StoreAt(j, nodes[j]) {
      assert il[2 + 4 * j..6 + 4 * j] == body[2 + 4 * j..6 + 4 * j];
    }
  }

  // ---------------------------------------------------------------------------------------
  // Branch fixups

  /** An instruction: its opcode, and the index of the instruction it branches to, if any. */
  datatype Instruction = Instruction(opcode: string, target: Option<int>)

  /** A branch emitted before its label's position was known: the branch's index and the label it goes to. */
  datatype Fixup = Fixup(index: int, labelName: string)

  /** Every recorded branch is an instruction of the body and its label has a position in it. */
  predicate FixupsValid(n: int, labels: map<string, int>, fixups: seq<Fixup>)
  {
    forall k :: 0 <= k < |fixups| ==>
      0 <= fixups[k].index < n && fixups[k].labelName in labels && 0 <= labels[fixups[k].labelName] < n
  }

  /** One fixup: the branch's operand becomes the instruction at its label's index. */
  function Patch(body: seq<Instruction>, labels: map<string, int>, f: Fixup): seq<Instruction>
    requires 0 <= f.index < |body| && f.labelName in labels
  {
    body[f.index := body[f.index].(target := Some(labels[f.labelName]))]
  }

  /** The fixups applied in the order they were recorded. */
  function Patched(body: seq<Instruction>, labels: map<string, int>, fixups: seq<Fixup>): (r: seq<Instruction>)
    requires FixupsValid(|body|, labels, fixups)
    ensures |r| == |body|
  {
    if fixups == [] then body
    else
      var front := fixups[..|fixups| - 1];
      assert FixupsValid(|body|, labels, front) by {
        forall k | 0 <= k < |front| ensures 0 <= front[k].index < |body| {
          assert front[k] == fixups[k];
        }
      }
      Patch(Patched(body, labels, front), labels, fixups[|fixups| - 1])
  }

  /** The fixup loop at the end of `EmitMethodBody`, patching the instruction list in place. */
  method FixBranches(body: array<Instruction>, labels: map<string, int>, fixups: seq<Fixup>)
    requires FixupsValid(body.Length, labels, fixups)
    modifies body
    ensures body[..] == Patched(old(body[..]), labels, fixups)
  {
    var i := 0;
    while i < |fixups|
      invariant 0 <= i <= |fixups|
      invariant FixupsValid(body.Length, labels, fixups[..i])
      invariant body[..] == Patched(old(body[..]), labels, fixups[..i])
    {
      var fixup := fixups[i];
      var targetIndex := labels[fixup.labelName];
      var fixed := body[fixup.index].(target := Some(targetIndex));
      assert fixups[..i + 1][..i] == fixups[..i];
      body[fixup.index] := fixed;
      i := i + 1;
    }
    assert fixups[..i] == fixups;
  }

  /**
   * When each branch was recorded once, every recorded branch ends up pointing at its
   * label's instruction, and every other instruction, and every opcode, is as emitted.
   */
  lemma {:induction false} PatchedBranches(body: seq<Instruction>, labels: map<string, int>, fixups: seq<Fixup>)
    requires FixupsValid(|body|, labels, fixups)
    requires forall k, l :: 0 <= k < l < |fixups| ==> fixups[k].index != fixups[l].index
    ensures var r := Patched(body, labels, fixups);
      (forall k :: 0 <= k < |fixups| ==> r[fixups[k].index].target == Some(labels[fixups[k].labelName]))
      && (forall j :: 0 <= j < |r| ==> r[j].opcode == body[j].opcode)
      && (forall j :: 0 <= j < |r| && (forall k :: 0 <= k < |fixups| ==> fixups[k].index != j) ==> r[j] == body[j])
    decreases |fixups|
  {
    if fixups != [] {
      var front, last := fixups[..|fixups| - 1], fixups[|fixups| - 1];
      assert FixupsValid(|body|, labels, front) by {
        forall k | 0 <= k < |front| ensures 0 <= front[k].index < |body| { assert front[k] == fixups[k]; }
      }
      PatchedBranches(body, labels, front);
      var r := Patched(body, labels, fixups);
      forall k | 0 <= k < |fixups| ensures r[fixups[k].index].target == Some(labels[fixups[k].labelName]) {
        if k < |fixups| - 1 {
          assert front[k] == fixups[k];
        }
      }
      forall j | 0 <= j < |r| && (forall k :: 0 <= k < |fixups| ==> fixups[k].index != j)
        ensures r[j] == body[j]
      {
        forall k | 0 <= k < |front| ensures front[k].index != j { assert front[k] == fixups[k]; }
      }
    }
  }

  // ---------------------------------------------------------------------------------------
  // Conversions

  /** The `Convert` methods a cast can call. */
  datatype ConvertMethod = ToBoolean | ToInt32 | ToString | ToDouble

  /** The type a conversion method produces. */
  function Produces(m: ConvertMethod): TypeSymbol
  {
    match m
    case ToBoolean => BoolSymbol
    case ToInt32 => IntSymbol
    case ToString => StringSymbol
    case ToDouble => DecimalSymbol
  }

  /**
   * `GetConvertTo`: no call for a cast to `any`, the `Convert` method that produces the
   * target for the four convertible types; a cast from a nullable type that is not implicit,
   * or to any other type, throws.
   */
  function GetConvertTo(from: BoundType, to: BoundType, isImplicit: bool): (r: Result<Option<ConvertMethod>>)
    ensures r.Fail? <==> ((from.isNullable && !isImplicit)
      || to.typeSymbol !in {Some(AnySymbol), Some(BoolSymbol), Some(IntSymbol), Some(StringSymbol), Some(DecimalSymbol)})
    ensures r == Ok(None) <==> (!from.isNullable || isImplicit) && to.typeSymbol == Some(AnySymbol)
    ensures r.Ok? && r.value.Some? ==> to.typeSymbol == Some(Produces(r.value.value))
  {
    if !from.isNullable || isImplicit then
      if to.typeSymbol == Some(AnySymbol) then Ok(None)
      else if to.typeSymbol == Some(BoolSymbol) then Ok(Some(ToBoolean))
      else if to.typeSymbol == Some(IntSymbol) then Ok(Some(ToInt32))
      else if to.typeSymbol == Some(StringSymbol) then Ok(Some(ToString))
      else if to.typeSymbol == Some(DecimalSymbol) then Ok(Some(ToDouble))
      else Fail("GetConvertTo: unexpected cast")
    else Fail("GetConvertTo: cannot convert nullable types")
  }
}
