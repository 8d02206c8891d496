/**
 * The binder's type descriptor (Binding/BoundTree/BoundType.cs): a type
 * symbol with reference, constness, nullability and literal flags, array
 * dimensions, template arguments, an arity and array sizes. Descriptors are
 * immutable; every operation builds a new one.
 */
module BoundTypes {
  import opened Wrappers

  /** The type symbols the descriptors refer to; a template parameter carries its 1-based ordinal. */
  datatype TypeSymbol =
    | DecimalSymbol | IntSymbol | StringSymbol | CharSymbol | BoolSymbol
    | AnySymbol | FuncSymbol | TypeTypeSymbol | VoidSymbol
    | TemplateSymbol(ordinal: int)
    | NamedSymbol(name: string)

  /**
   * `BoundType`. `typeSymbol` is None for the type of `null`; `sizes` holds
   * the identities of the size expressions, which the source compares by
   * reference.
   */
  datatype BoundType = BoundType(
    typeSymbol: Option<TypeSymbol>,
    isImplicit: bool,
    isConstantReference: bool,
    isReference: bool,
    isExplicitReference: bool,
    isConstant: bool,
    isNullable: bool,
    isLiteral: bool,
    dimensions: nat,
    templateArguments: seq<TemplateArgument>,
    arity: nat,
    isConstantExpression: bool,
    sizes: seq<nat>)

  /** A template argument: a type, or a constant of a type. */
  datatype TemplateArgument = TemplateArgument(argType: BoundType, constant: Option<string>)

  /** A descriptor with every optional argument of the constructor at its default. */
  function Plain(symbol: Option<TypeSymbol>): BoundType
  {
    BoundType(symbol, false, false, false, false, false, false, false, 0, [], 0, false, [])
  }

  /** The shared descriptors: plain ones, and nullable ones (`Void` is nullable only so that it displays bare). */
  const Int := Plain(Some(IntSymbol))
  const Bool := Plain(Some(BoolSymbol))
  const String := Plain(Some(StringSymbol))
  const Any := Plain(Some(AnySymbol))
  const Void := Plain(Some(VoidSymbol)).(isNullable := true)
  const NullableInt := Plain(Some(IntSymbol)).(isNullable := true)
  const NullableBool := Plain(Some(BoolSymbol)).(isNullable := true)

  /** The named arguments of `CopyWith`; None keeps the copied descriptor's field. */
  datatype Overrides = Overrides(
    typeSymbol: Option<TypeSymbol>,
    isImplicit: Option<bool>,
    isConstantReference: Option<bool>,
    isReference: Option<bool>,
    isExplicitReference: Option<bool>,
    isConstant: Option<bool>,
    isNullable: Option<bool>,
    isLiteral: Option<bool>,
    dimensions: Option<nat>,
    templateArguments: Option<seq<TemplateArgument>>,
    arity: Option<nat>,
    isConstantExpression: Option<bool>,
    sizes: Option<seq<nat>>)

  const NoOverrides := Overrides(None, None, None, None, None, None, None, None, None, None, None, None, None)

  function Or<T>(o: Option<T>, d: T): T
  {
    if o.Some? then o.value else d
  }

  /** `CopyWith`: a copy of `type` with the given fields replaced; a null type gives null. */
  function CopyWith(t: Option<BoundType>, o: Overrides): (r: Option<BoundType>)
    ensures r.Some? <==> t.Some?
  {
    match t
    case None => None
    case Some(b) =>
      // A null type symbol override keeps the old symbol: the source cannot tell it from "no override".
      Some(BoundType(
        if o.typeSymbol.Some? then o.typeSymbol else b.typeSymbol,
        Or(o.isImplicit, b.isImplicit),
        Or(o.isConstantReference, b.isConstantReference),
        Or(o.isReference, b.isReference),
        Or(o.isExplicitReference, b.isExplicitReference),
        Or(o.isConstant, b.isConstant),
        Or(o.isNullable, b.isNullable),
        Or(o.isLiteral, b.isLiteral),
        Or(o.dimensions, b.dimensions),
        Or(o.templateArguments, b.templateArguments),
        Or(o.arity, b.arity),
        Or(o.isConstantExpression, b.isConstantExpression),
        Or(o.sizes, b.sizes)))
  }

  /** With no overrides, `CopyWith` returns an equal copy. */
  lemma CopyWithNothing(t: Option<BoundType>)
    ensures CopyWith(t, NoOverrides) == t
  {
  }

  /** Overriding only the dimensions changes only the dimensions. */
  lemma CopyWithDimensions(b: BoundType, d: nat)
    ensures CopyWith(Some(b), NoOverrides.(dimensions := Some(d))) == Some(b.(dimensions := d))
  {
  }

  /** Overriding only nullability changes only nullability. */
  lemma CopyWithNullable(b: BoundType, n: bool)
    ensures CopyWith(Some(b), NoOverrides.(isNullable := Some(n))) == Some(b.(isNullable := n))
  {
  }

  /** `ChildType`: the element type of an array, `any` itself for `any`, and null otherwise. */
  function ChildType(t: BoundType): (r: Option<BoundType>)
    ensures t.dimensions > 0 ==> r == Some(t.(dimensions := t.dimensions - 1))
    ensures t.dimensions == 0 ==> (r.Some? <==> t.typeSymbol == Some(AnySymbol))
    ensures t.dimensions == 0 && r.Some? ==> r.value == t
  {
    if t.dimensions > 0 then CopyWith(Some(t), NoOverrides.(dimensions := Some(t.dimensions - 1)))
    else if t.typeSymbol == Some(AnySymbol) then Some(t)
    else None
  }

  /** `BaseType`: the type with every array dimension removed. */
  function BaseType(t: BoundType): (r: BoundType)
    ensures r.dimensions == 0
    ensures r == t.(dimensions := 0)
    ensures t.dimensions == 0 ==> r == t
  {
    if t.dimensions > 0 then CopyWith(Some(t), NoOverrides.(dimensions := Some(0))).value else t
  }

  /** Taking an element type keeps the base type, and taking the base type twice changes nothing. */
  lemma ChildKeepsBase(t: BoundType)
    requires ChildType(t).Some?
    ensures BaseType(ChildType(t).value) == BaseType(t)
    ensures BaseType(BaseType(t)) == BaseType(t)
  {
  }

  /** The run-time values a literal can hold; anything else makes `Assume` throw. */
  datatype LiteralValue =
    | BoolValue(b: bool)
    | IntValue(i: int)
    | StringValue(s: string)
    | CharValue(c: char)
    | DoubleValue
    | NullValue
    | OtherValue(typeName: string)

  /** `Assume`: the literal type of a constant value. */
  function Assume(v: LiteralValue): (r: Result<BoundType>)
    ensures r.Ok? <==> !v.OtherValue?
    ensures r.Ok? ==> r.value.isLiteral && r.value.dimensions == 0 && !r.value.isConstant
    ensures r.Ok? ==> (r.value.isNullable <==> v.NullValue?) && (r.value.typeSymbol.None? <==> v.NullValue?)
    ensures v.BoolValue? ==> r == Ok(Bool.(isLiteral := true))
    ensures v.IntValue? ==> r == Ok(Int.(isLiteral := true))
    ensures v.StringValue? ==> r == Ok(String.(isLiteral := true))
    ensures v.CharValue? ==> r.Ok? && r.value.typeSymbol == Some(CharSymbol)
    ensures v.DoubleValue? ==> r.Ok? && r.value.typeSymbol == Some(DecimalSymbol)
  {
    match v
    case BoolValue(_) => Ok(Plain(Some(BoolSymbol)).(isLiteral := true))
    case IntValue(_) => Ok(Plain(Some(IntSymbol)).(isLiteral := true))
    case StringValue(_) => Ok(Plain(Some(StringSymbol)).(isLiteral := true))
    case CharValue(_) => Ok(Plain(Some(CharSymbol)).(isLiteral := true))
    case DoubleValue => Ok(Plain(Some(DecimalSymbol)).(isLiteral := true))
    case NullValue => Ok(Plain(None).(isLiteral := true, isNullable := true))
    case OtherValue(name) => Fail("Assume: unexpected literal of type '" + name + "'")
  }

  /**
   * `Compound(receiver, type)`: a member type written with a template
   * parameter of the receiver is resolved against the receiver's template
   * arguments. The flags combine (implicit and literal only when both are,
   * nullable only when both are, the others when either is) and the
   * dimensions add up. Any other type is returned as it is.
   */
  /** Whether the type is written with a template parameter. */
  predicate IsTemplate(t: BoundType)
  {
    t.typeSymbol.Some? && t.typeSymbol.value.TemplateSymbol?
  }

  function Compound(receiver: BoundType, t: BoundType): (r: Result<BoundType>)
    ensures !(IsTemplate(t) && |receiver.templateArguments| > 0) ==> r == Ok(t)
    ensures r.Fail? <==> (IsTemplate(t) && |receiver.templateArguments| > 0 &&
      !(1 <= t.typeSymbol.value.ordinal <= |receiver.templateArguments|))
    ensures IsTemplate(t) && 1 <= t.typeSymbol.value.ordinal <= |receiver.templateArguments| ==>
      var resolved := receiver.templateArguments[t.typeSymbol.value.ordinal - 1].argType;
      r.Ok? &&
      r.value.typeSymbol == resolved.typeSymbol &&
      r.value.dimensions == resolved.dimensions + t.dimensions &&
      r.value.templateArguments == resolved.templateArguments &&
      (r.value.isNullable <==> resolved.isNullable && t.isNullable) &&
      (r.value.isImplicit <==> resolved.isImplicit && t.isImplicit) &&
      (r.value.isLiteral <==> resolved.isLiteral && t.isLiteral) &&
      (r.value.isConstant <==> resolved.isConstant || t.isConstant) &&
      (r.value.isReference <==> resolved.isReference || t.isReference) &&
      r.value.sizes == (if |t.sizes| > 0 then t.sizes else resolved.sizes)
  {
    if IsTemplate(t) && |receiver.templateArguments| > 0 then
      var ordinal := t.typeSymbol.value.ordinal;
      if !(1 <= ordinal <= |receiver.templateArguments|) then Fail("IndexOutOfRangeException")
      else
        var resolved := receiver.templateArguments[ordinal - 1].argType;
        Ok(BoundType(
          resolved.typeSymbol,
          resolved.isImplicit && t.isImplicit,
          resolved.isConstantReference || t.isConstantReference,
          resolved.isReference || t.isReference,
          resolved.isExplicitReference || t.isExplicitReference,
          resolved.isConstant || t.isConstant,
          !(!resolved.isNullable || !t.isNullable),
          resolved.isLiteral && t.isLiteral,
          resolved.dimensions + t.dimensions,
          resolved.templateArguments,
          resolved.arity,
          resolved.isConstantExpression || t.isConstantExpression,
          if |t.sizes| > 0 then t.sizes else resolved.sizes))
    else Ok(t)
  }

  // ---------------------------------------------------------------------------
  // Equals

  /** The fields `Equals` compares one by one before its loops, as the source writes them. */
  predicate ScalarFieldsMatch(a: BoundType, b: BoundType, loose: bool)
  {
    !((!loose || (a.typeSymbol.Some? && b.typeSymbol.Some?)) && a.typeSymbol != b.typeSymbol) &&
    a.isImplicit == b.isImplicit &&
    a.isConstantReference == b.isConstantReference &&
    a.isReference == b.isReference &&
    a.isConstant == b.isConstant &&
    a.isNullable == b.isNullable &&
    a.isLiteral == b.isLiteral &&
    a.dimensions == b.dimensions &&
    a.arity == b.arity &&
    a.isConstantExpression == b.isConstantExpression &&
    |a.sizes| == |b.sizes|
  }

  /**
   * The loop over `this.templateArguments` from index `i`, the arguments
   * before `i` being known to agree: true when this type's arguments are a
   * prefix of the other's, an index error when the other's are a proper
   * prefix of this type's, false otherwise. Template arguments are compared
   * structurally; the template arguments' own `Equals`, which the source calls, is not part
   * of this model and is assumed to compare the same way.
   */
  function TemplateLoop(mine: seq<TemplateArgument>, theirs: seq<TemplateArgument>, i: nat): (r: Result<bool>)
    requires i <= |mine| && i <= |theirs| && mine[..i] == theirs[..i]
    ensures r == Ok(true) <==> mine <= theirs
    ensures r.Fail? <==> theirs < mine
    decreases |mine| - i
  {
    if i == |mine| then Ok(true)
    else if i >= |theirs| then Fail("IndexOutOfRangeException")
    else if mine[i] != theirs[i] then Ok(false)
    else
      assert mine[..i + 1] == mine[..i] + [mine[i]] && theirs[..i + 1] == theirs[..i] + [theirs[i]];
      TemplateLoop(mine, theirs, i + 1)
  }

  /**
   * `Equals(type, loose)` as written: the type symbols (only when both are
   * known, if `loose`), the flags other than `isExplicitReference`, the
   * dimensions, the arity, the number of sizes, then the template arguments
   * of this type against the other's, then the sizes.
   */
  function EqualsAsWritten(a: BoundType, b: BoundType, loose: bool): (r: Result<bool>)
    ensures r == Ok(true) <==> ScalarFieldsMatch(a, b, loose) && a.templateArguments <= b.templateArguments && a.sizes == b.sizes
    ensures r.Fail? <==> ScalarFieldsMatch(a, b, loose) && b.templateArguments < a.templateArguments
  {
    if !ScalarFieldsMatch(a, b, loose) then Ok(false)
    else
      var templates := TemplateLoop(a.templateArguments, b.templateArguments, 0);
      if templates != Ok(true) then templates
      else Ok(a.sizes == b.sizes)
  }

  /** As written, two types that differ only in `isExplicitReference` compare equal. */
  lemma EqualsIgnoresExplicitReference()
    ensures EqualsAsWritten(Int, Int.(isExplicitReference := true), false) == Ok(true)
  {
  }

  /**
   * As written, `Equals` is not symmetric when a type's arity differs from its number of
   * template arguments: `List<string>` built with arity 0, as the standard library builds it,
   * equals the bare `List`, while the other way round indexes past the end.
   */
  lemma EqualsNotSymmetric()
    ensures var list := Plain(Some(NamedSymbol("List")));
      var listOfString := list.(templateArguments := [TemplateArgument(String, None)]);
      listOfString.arity == list.arity == 0 &&
      EqualsAsWritten(list, listOfString, false) == Ok(true) && EqualsAsWritten(listOfString, list, false).Fail?
  {
    var list := Plain(Some(NamedSymbol("List")));
    var listOfString := list.(templateArguments := [TemplateArgument(String, None)]);
    assert TemplateLoop(listOfString.templateArguments, list.templateArguments, 0).Fail?;
  }

  /**
   * `Equals` as evidently intended: every flag, the dimensions, the arity,
   * the template arguments and the sizes agree, and the type symbols agree
   * unless `loose` and one of them is unknown.
   */
  function Equals(a: BoundType, b: BoundType, loose: bool): (r: bool)
    ensures r ==> a.isExplicitReference == b.isExplicitReference && a.templateArguments == b.templateArguments
    ensures r && !loose ==> a == b
    ensures a == b ==> r
  {
    ScalarFieldsMatch(a, b, loose) && a.isExplicitReference == b.isExplicitReference &&
    a.templateArguments == b.templateArguments && a.sizes == b.sizes
  }

  /** The intended comparison is symmetric, and without `loose` it is plain equality. */
  lemma EqualsSymmetric(a: BoundType, b: BoundType, loose: bool)
    ensures Equals(a, b, loose) == Equals(b, a, loose)
    ensures Equals(a, b, false) <==> a == b
  {
  }

  /** When both types have as many template arguments, the written comparison gives the intended answer, up to `isExplicitReference`. */
  lemma EqualsAgree(a: BoundType, b: BoundType, loose: bool)
    requires |a.templateArguments| == |b.templateArguments|
    ensures EqualsAsWritten(a, b, loose) == Ok(Equals(a, b.(isExplicitReference := a.isExplicitReference), loose))
  {
    var b' := b.(isExplicitReference := a.isExplicitReference);
    assert ScalarFieldsMatch(a, b', loose) == ScalarFieldsMatch(a, b, loose);
    assert a.templateArguments <= b.templateArguments <==> a.templateArguments == b.templateArguments by {
      if a.templateArguments <= b.templateArguments {
        assert a.templateArguments == b.templateArguments[..|a.templateArguments|] == b.templateArguments;
      }
    }
    assert !(b.templateArguments < a.templateArguments);
    var r := EqualsAsWritten(a, b, loose);
    if r.Ok? {
      assert r.value <==> Equals(a, b', loose);
    }
  }
}
