/**
 * The validation helpers of the binder (Binding/Binder_old.cs): the fold
 * that turns a method's modifier keywords into declaration modifiers, the
 * accessibility those modifiers give, parameter binding (duplicates,
 * default values, numbering), the first pass over call arguments, the
 * name of a local function, and two walks over bound expressions.
 *
 * `DeclarationModifiers` is a flags enum in the source; the model keeps the
 * set of flags that are on, so `(modifiers & m) != 0` is `m in modifiers`.
 */
module BinderChecks {
  import opened Wrappers
  import opened Strings
  import BoundTypes

  datatype Modifier =
    | Static | Const | ConstExpr | LowLevel | Public | Private | Protected
    | Virtual | Override | New | Abstract | Sealed

  /** The modifier keywords; any other token in a modifier list is `OtherModifierKeyword`. */
  datatype ModifierKind =
    | StaticKeyword | ConstKeyword | LowlevelKeyword | PublicKeyword | PrivateKeyword | ProtectedKeyword
    | VirtualKeyword | OverrideKeyword | NewKeyword | AbstractKeyword | OtherModifierKeyword

  datatype ModifierToken = ModifierToken(kind: ModifierKind, location: nat, text: string)

  /** The diagnostics these helpers push, with the location and the arguments of their messages. */
  datatype Diagnostic =
    | ModifierAlreadyApplied(location: nat, text: string)
    | ConflictingModifiers(location: nat, first: string, second: string)
    | ConflictingOverrideModifiers(location: nat)
    | InvalidModifier(location: nat, text: string)
    | DefaultMustBeConstant(location: nat)
    | DefaultBeforeNoDefault(location: nat)
    | ParameterAlreadyDeclared(location: nat, name: string)
    | NonTypeTemplate(location: nat)
    | NamedBeforeUnnamed(location: nat)
    | NamedArgumentTwice(location: nat, name: string)
    | TemplateMustBeConstant(location: nat)

  datatype Accessibility = NotApplicable | PublicAccess | ProtectedAccess | PrivateAccess

  // ---------------------------------------------------------------------------
  // Method modifiers

  /** The flag a modifier keyword sets. */
  function ModifierOf(k: ModifierKind): Modifier
    requires k != OtherModifierKeyword
  {
    match k
    case StaticKeyword => Static
    case ConstKeyword => Const
    case LowlevelKeyword => LowLevel
    case PublicKeyword => Public
    case PrivateKeyword => Private
    case ProtectedKeyword => Protected
    case VirtualKeyword => Virtual
    case OverrideKeyword => Override
    case NewKeyword => New
    case AbstractKeyword => Abstract
  }

  /** Whether a method may carry this keyword: `lowlevel` anywhere, the others only inside a class. */
  predicate AllowedOnMethod(k: ModifierKind, inClass: bool)
  {
    k != OtherModifierKeyword && (inClass || k == LowlevelKeyword)
  }

  /**
   * `ConflictingAccessibilityModifier`: the pair of keywords to report when
   * adding `m` would combine two of public, private and protected.
   */
  function AccessibilityConflict(modifiers: set<Modifier>, m: Modifier): (r: Option<(string, string)>)
    ensures r.Some? <==> m in {Public, Private, Protected} && exists other :: other in {Public, Private, Protected} && other != m && other in modifiers
  {
    if (m == Public && Private in modifiers) || (m == Private && Public in modifiers) then Some(("public", "private"))
    else if (m == Public && Protected in modifiers) || (m == Protected && Public in modifiers) then Some(("public", "protected"))
    else if (m == Private && Protected in modifiers) || (m == Protected && Private in modifiers) then Some(("protected", "private"))
    else None
  }

  /** `ConflictingDerivationModifier`: virtual, override and abstract exclude each other, and override excludes new. */
  predicate DerivationConflict(modifiers: set<Modifier>, m: Modifier)
  {
    (m == Virtual && Override in modifiers) || (m == Override && Virtual in modifiers) ||
    (m == Override && New in modifiers) ||
    (m == Virtual && Abstract in modifiers) || (m == Abstract && Virtual in modifiers) ||
    (m == Override && Abstract in modifiers) || (m == Abstract && Override in modifiers)
  }

  /** The modifiers a method can end up with: at most one accessibility, never both static and const, only `lowlevel` outside a class. */
  predicate ValidMethodModifiers(modifiers: set<Modifier>, inClass: bool)
  {
    !(Public in modifiers && Private in modifiers) &&
    !(Public in modifiers && Protected in modifiers) &&
    !(Private in modifiers && Protected in modifiers) &&
    !(Static in modifiers && Const in modifiers) &&
    (!inClass ==> modifiers <= {LowLevel}) &&
    modifiers <= {Static, Const, LowLevel, Public, Private, Protected, Virtual, Override, New, Abstract}
  }

  /**
   * One iteration of the loop of `BindMethodDeclarationModifiers`: the new
   * flags and the diagnostics this keyword pushes. A derivation conflict is
   * reported but the flag is still set.
   */
  function MethodModifierStep(modifiers: set<Modifier>, t: ModifierToken, inClass: bool): (r: (set<Modifier>, seq<Diagnostic>))
    ensures ValidMethodModifiers(modifiers, inClass) ==> ValidMethodModifiers(r.0, inClass)
    ensures !AllowedOnMethod(t.kind, inClass) ==> r == (modifiers, [InvalidModifier(t.location, t.text)])
    ensures AllowedOnMethod(t.kind, inClass) && ModifierOf(t.kind) in modifiers ==>
      r == (modifiers, [ModifierAlreadyApplied(t.location, t.text)])
    ensures r.0 == modifiers || (AllowedOnMethod(t.kind, inClass) && r.0 == modifiers + {ModifierOf(t.kind)})
    ensures AllowedOnMethod(t.kind, inClass) && t.kind in {VirtualKeyword, OverrideKeyword, NewKeyword, AbstractKeyword} ==>
      r.0 == modifiers + {ModifierOf(t.kind)}
    ensures |r.1| <= 1
  {
    if !AllowedOnMethod(t.kind, inClass) then (modifiers, [InvalidModifier(t.location, t.text)])
    else
      var m := ModifierOf(t.kind);
      if m in modifiers then (modifiers, [ModifierAlreadyApplied(t.location, t.text)])
      else if (m == Static && Const in modifiers) || (m == Const && Static in modifiers) then
        (modifiers, [ConflictingModifiers(t.location, "static", "constant")])
      else if AccessibilityConflict(modifiers, m).Some? then
        var pair := AccessibilityConflict(modifiers, m).value;
        (modifiers, [ConflictingModifiers(t.location, pair.0, pair.1)])
      else if DerivationConflict(modifiers, m) then (modifiers + {m}, [ConflictingOverrideModifiers(t.location)])
      else (modifiers + {m}, [])
  }

  /** The flags and diagnostics after folding the first `|ts|` keywords, left to right. */
  function MethodModifiers(ts: seq<ModifierToken>, inClass: bool): (r: (set<Modifier>, seq<Diagnostic>))
    ensures ValidMethodModifiers(r.0, inClass)
    ensures |r.1| <= |ts|
  {
    if |ts| == 0 then ({}, [])
    else
      var before := MethodModifiers(ts[..|ts| - 1], inClass);
      var step := MethodModifierStep(before.0, ts[|ts| - 1], inClass);
      (step.0, before.1 + step.1)
  }

  /** Outside a class every keyword but `lowlevel` is reported as invalid, and only `lowlevel` can be set. */
  lemma {:induction false} ClassOnlyModifiersRejected(ts: seq<ModifierToken>, i: nat)
    requires i < |ts| && ts[i].kind != LowlevelKeyword
    ensures InvalidModifier(ts[i].location, ts[i].text) in MethodModifiers(ts, false).1
  {
    if i < |ts| - 1 {
      assert ts[..|ts| - 1][i] == ts[i];
      ClassOnlyModifiersRejected(ts[..|ts| - 1], i);
    }
  }

  /** Folding one more keyword applies one more step to the flags and appends its diagnostics. */
  lemma MethodModifiersSnoc(ts: seq<ModifierToken>, t: ModifierToken, inClass: bool)
    ensures var before := MethodModifiers(ts, inClass);
      var step := MethodModifierStep(before.0, t, inClass);
      MethodModifiers(ts + [t], inClass) == (step.0, before.1 + step.1)
  {
    assert (ts + [t])[..|ts|] == ts;
  }

  /** A keyword whose flag is already set is reported as applied twice and changes nothing. */
  lemma RepeatedModifierReported(ts: seq<ModifierToken>, t: ModifierToken, inClass: bool)
    requires AllowedOnMethod(t.kind, inClass) && ModifierOf(t.kind) in MethodModifiers(ts, inClass).0
    ensures MethodModifiers(ts + [t], inClass) ==
      (MethodModifiers(ts, inClass).0, MethodModifiers(ts, inClass).1 + [ModifierAlreadyApplied(t.location, t.text)])
  {
    MethodModifiersSnoc(ts, t, inClass);
  }

  /** `BindAccessibilityFromModifiers`. */
  function AccessibilityOf(modifiers: set<Modifier>, inClass: bool): (r: Accessibility)
    ensures r == NotApplicable <==> !inClass
    ensures inClass && ValidMethodModifiers(modifiers, inClass) ==>
      (r == PublicAccess <==> Public in modifiers) &&
      (r == ProtectedAccess <==> Protected in modifiers) &&
      (Private in modifiers ==> r == PrivateAccess) &&
      (r == PrivateAccess ==> Public !in modifiers && Protected !in modifiers)
  {
    if !inClass then NotApplicable
    else if Public in modifiers then PublicAccess
    else if Protected in modifiers then ProtectedAccess
    else PrivateAccess
  }

  // ---------------------------------------------------------------------------
  // Parameters

  /** A parameter as written: its name, its bound type, and whether it has a default whose value is constant. */
  datatype ParameterSyntax = ParameterSyntax(
    name: string,
    location: nat,
    typeLocation: nat,
    parameterType: BoundTypes.BoundType,
    isTypeType: bool,
    defaultValue: Option<bool>)

  /** A bound parameter: `ordinal` counts the kept parameters from 1. */
  datatype ParameterSymbol = ParameterSymbol(
    name: string,
    parameterType: BoundTypes.BoundType,
    ordinal: nat,
    hasDefault: bool,
    isTemplate: bool)

  /** The loop's state; the source's set of seen names always holds exactly the names of the kept parameters, given by `KeptNames`. */
  datatype ParameterState = ParameterState(kept: seq<ParameterSymbol>, diagnostics: seq<Diagnostic>)

  function KeptNames(kept: seq<ParameterSymbol>): (r: seq<string>)
    ensures |r| == |kept| && forall k :: 0 <= k < |kept| ==> r[k] == kept[k].name
  {
    seq(|kept|, k requires 0 <= k < |kept| => kept[k].name)
  }

  /** What a consistent parameter state keeps: distinct names, numbered 1, 2, ... */
  predicate ParametersNumbered(s: ParameterState)
  {
    (forall k :: 0 <= k < |s.kept| ==> s.kept[k].ordinal == k + 1) &&
    (forall j, k :: 0 <= j < k < |s.kept| ==> s.kept[j].name != s.kept[k].name)
  }

  /** The type a parameter is bound with: template parameters are constant expressions. */
  function BoundParameterType(p: ParameterSyntax, isTemplate: bool): (r: BoundTypes.BoundType)
    ensures r.isConstantExpression == (isTemplate || p.parameterType.isConstantExpression)
    ensures r.(isConstantExpression := p.parameterType.isConstantExpression) == p.parameterType
  {
    if isTemplate then
      BoundTypes.CopyWith(Some(p.parameterType), BoundTypes.NoOverrides.(isConstantExpression := Some(true))).value
    else p.parameterType
  }

  /** One iteration of the loop of `BindParameters`, on parameter `i`. */
  function ParameterStep(ps: seq<ParameterSyntax>, i: nat, isTemplate: bool, transpile: bool, s: ParameterState): (r: ParameterState)
    requires i < |ps|
    ensures s.diagnostics <= r.diagnostics
    ensures r.kept == s.kept || (|r.kept| == |s.kept| + 1 && r.kept[..|s.kept|] == s.kept)
  {
    var p := ps[i];
    if p.defaultValue == Some(false) then
      s.(diagnostics := s.diagnostics + [DefaultMustBeConstant(p.location)])
    else if p.defaultValue.Some? && i < |ps| - 1 && ps[i + 1].defaultValue.None? then
      s.(diagnostics := s.diagnostics + [DefaultBeforeNoDefault(p.location)])
    else if p.name in KeptNames(s.kept) then
      s.(diagnostics := s.diagnostics + [ParameterAlreadyDeclared(p.location, p.name)])
    else
      var warned := if isTemplate && transpile && !p.isTypeType then [NonTypeTemplate(p.typeLocation)] else [];
      var symbol := ParameterSymbol(p.name, BoundParameterType(p, isTemplate), |s.kept| + 1, p.defaultValue.Some?, isTemplate);
      ParameterState(s.kept + [symbol], s.diagnostics + warned)
  }

  /** Each iteration keeps the kept parameters distinct and numbered. */
  lemma ParameterStepNumbered(ps: seq<ParameterSyntax>, i: nat, isTemplate: bool, transpile: bool, s: ParameterState)
    requires i < |ps| && ParametersNumbered(s)
    ensures ParametersNumbered(ParameterStep(ps, i, isTemplate, transpile, s))
  {
    var r := ParameterStep(ps, i, isTemplate, transpile, s);
    if r.kept != s.kept {
      assert r.kept[..|s.kept|] == s.kept;
      assert r.kept[|s.kept|].name == ps[i].name && ps[i].name !in KeptNames(s.kept);
    }
  }

  /** The state of `BindParameters` after its first `n` iterations. */
  function ParametersUpTo(ps: seq<ParameterSyntax>, n: nat, isTemplate: bool, transpile: bool): (r: ParameterState)
    requires n <= |ps|
    ensures ParametersNumbered(r)
    ensures |r.kept| <= n
  {
    if n == 0 then ParameterState([], [])
    else
      var before := ParametersUpTo(ps, n - 1, isTemplate, transpile);
      ParameterStepNumbered(ps, n - 1, isTemplate, transpile, before);
      ParameterStep(ps, n - 1, isTemplate, transpile, before)
  }

  /** Diagnostics only accumulate as the loop goes on. */
  lemma {:induction false} ParameterDiagnosticsGrow(ps: seq<ParameterSyntax>, m: nat, n: nat, isTemplate: bool, transpile: bool)
    requires m <= n <= |ps|
    ensures ParametersUpTo(ps, m, isTemplate, transpile).diagnostics <= ParametersUpTo(ps, n, isTemplate, transpile).diagnostics
    decreases n - m
  {
    if m < n {
      ParameterDiagnosticsGrow(ps, m, n - 1, isTemplate, transpile);
    }
  }

  /** A constant default followed by a parameter without one is rejected with `DefaultBeforeNoDefault`. */
  lemma DefaultBeforeNoDefaultReported(ps: seq<ParameterSyntax>, i: nat, isTemplate: bool, transpile: bool)
    requires i + 1 < |ps| && ps[i].defaultValue == Some(true) && ps[i + 1].defaultValue.None?
    ensures DefaultBeforeNoDefault(ps[i].location) in ParametersUpTo(ps, |ps|, isTemplate, transpile).diagnostics
  {
    var before := ParametersUpTo(ps, i, isTemplate, transpile);
    var after := ParametersUpTo(ps, i + 1, isTemplate, transpile);
    assert after.diagnostics == before.diagnostics + [DefaultBeforeNoDefault(ps[i].location)];
    ParameterDiagnosticsGrow(ps, i + 1, |ps|, isTemplate, transpile);
    assert ParametersUpTo(ps, |ps|, isTemplate, transpile).diagnostics[|before.diagnostics|] == after.diagnostics[|before.diagnostics|];
  }

  /** A parameter whose name was already kept is dropped with `ParameterAlreadyDeclared`. */
  lemma DuplicateParameterDropped(ps: seq<ParameterSyntax>, i: nat, isTemplate: bool, transpile: bool)
    requires i < |ps| && ps[i].defaultValue != Some(false)
    requires !(ps[i].defaultValue.Some? && i < |ps| - 1 && ps[i + 1].defaultValue.None?)
    requires ps[i].name in KeptNames(ParametersUpTo(ps, i, isTemplate, transpile).kept)
    ensures ParametersUpTo(ps, i + 1, isTemplate, transpile).kept == ParametersUpTo(ps, i, isTemplate, transpile).kept
    ensures ParameterAlreadyDeclared(ps[i].location, ps[i].name) in ParametersUpTo(ps, |ps|, isTemplate, transpile).diagnostics
  {
    var before := ParametersUpTo(ps, i, isTemplate, transpile);
    var after := ParametersUpTo(ps, i + 1, isTemplate, transpile);
    assert after == before.(diagnostics := before.diagnostics + [ParameterAlreadyDeclared(ps[i].location, ps[i].name)]);
    ParameterDiagnosticsGrow(ps, i + 1, |ps|, isTemplate, transpile);
    assert ParametersUpTo(ps, |ps|, isTemplate, transpile).diagnostics[|before.diagnostics|] == after.diagnostics[|before.diagnostics|];
  }

  // ---------------------------------------------------------------------------
  // Arguments

  /** The bound form of an argument expression, as far as the first pass needs it. */
  datatype ArgumentValue =
    | EmptyArgument
    | NullLiteral
    | Bound(hasConstantValue: bool, isType: bool, isConstantExpressionType: bool)

  datatype ArgumentSyntax = ArgumentSyntax(name: Option<string>, nameLocation: nat, location: nat, value: ArgumentValue)

  /** What the template check accepts: a constant, a type, or an expression of a constant-expression type. */
  predicate TemplateAcceptable(v: ArgumentValue)
  {
    v.NullLiteral? || (v.Bound? && (v.hasConstantValue || v.isType || v.isConstantExpressionType))
  }

  /** An empty argument is bound as the null literal. */
  function ArgumentBinding(v: ArgumentValue): (r: ArgumentValue)
    ensures !r.EmptyArgument?
    ensures !v.EmptyArgument? ==> r == v
  {
    if v.EmptyArgument? then NullLiteral else v
  }

  /** The loop's state; the source's set of seen names always holds the names of the arguments before `i`, given by `NamesBefore`. */
  datatype ArgumentState = ArgumentState(result: bool, bound: seq<(Option<string>, ArgumentValue)>, diagnostics: seq<Diagnostic>)

  function NamesBefore(args: seq<ArgumentSyntax>, i: nat): (r: seq<Option<string>>)
    requires i <= |args|
    ensures |r| == i && forall j :: 0 <= j < i ==> r[j] == args[j].name
  {
    seq(i, j requires 0 <= j < i => args[j].name)
  }

  /** The reasons `PartiallyBindArguments` fails on argument `i`. */
  predicate ArgumentRejected(args: seq<ArgumentSyntax>, i: nat, isTemplate: bool)
    requires i < |args|
  {
    (i < |args| - 1 && args[i].name.Some? && args[i + 1].name.None?) ||
    (args[i].name.Some? && exists j :: 0 <= j < i && args[j].name == args[i].name) ||
    (isTemplate && !TemplateAcceptable(ArgumentBinding(args[i].value)))
  }

  /** One iteration of the loop of `PartiallyBindArguments`, on argument `i`. */
  function ArgumentStep(args: seq<ArgumentSyntax>, i: nat, isTemplate: bool, s: ArgumentState): (r: ArgumentState)
    requires i < |args|
    ensures |r.bound| == |s.bound| + 1 && r.bound[..|s.bound|] == s.bound
    ensures r.bound[|s.bound|] == (args[i].name, ArgumentBinding(args[i].value))
    ensures r.result == (s.result && !ArgumentRejected(args, i, isTemplate))
  {
    var a := args[i];
    assert a.name in NamesBefore(args, i) <==> exists j :: 0 <= j < i && args[j].name == a.name by {
      if exists j :: 0 <= j < i && args[j].name == a.name {
        var j :| 0 <= j < i && args[j].name == a.name;
        assert NamesBefore(args, i)[j] == a.name;
      }
    }
    var d1 := if i < |args| - 1 && a.name.Some? && args[i + 1].name.None? then [NamedBeforeUnnamed(a.nameLocation)] else [];
    var d2 := if a.name.Some? && a.name in NamesBefore(args, i) then [NamedArgumentTwice(a.nameLocation, a.name.value)] else [];
    var v := ArgumentBinding(a.value);
    var d3 := if isTemplate && !TemplateAcceptable(v) then [TemplateMustBeConstant(a.location)] else [];
    ArgumentState(
      s.result && d1 == [] && d2 == [] && d3 == [],
      s.bound + [(a.name, v)],
      s.diagnostics + d1 + d2 + d3)
  }

  function ArgumentsUpTo(args: seq<ArgumentSyntax>, n: nat, isTemplate: bool): (r: ArgumentState)
    requires n <= |args|
    ensures |r.bound| == n
    ensures forall k :: 0 <= k < n ==> r.bound[k] == (args[k].name, ArgumentBinding(args[k].value))
  {
    if n == 0 then ArgumentState(true, [], [])
    else ArgumentStep(args, n - 1, isTemplate, ArgumentsUpTo(args, n - 1, isTemplate))
  }

  /** The first pass succeeds exactly when no argument is named before an unnamed one, repeats a name, or (for templates) is not constant. */
  lemma {:induction false} ArgumentsResult(args: seq<ArgumentSyntax>, n: nat, isTemplate: bool)
    requires n <= |args|
    ensures ArgumentsUpTo(args, n, isTemplate).result <==> forall i :: 0 <= i < n ==> !ArgumentRejected(args, i, isTemplate)
  {
    if n > 0 {
      ArgumentsResult(args, n - 1, isTemplate);
      var before := ArgumentsUpTo(args, n - 1, isTemplate);
      assert ArgumentsUpTo(args, n, isTemplate).result == (before.result && !ArgumentRejected(args, n - 1, isTemplate));
      if before.result && !ArgumentRejected(args, n - 1, isTemplate) {
        forall i | 0 <= i < n
          ensures !ArgumentRejected(args, i, isTemplate)
        {
          if i < n - 1 {
            assert 0 <= i < n - 1;
          }
        }
      } else if !before.result {
        var i :| 0 <= i < n - 1 && ArgumentRejected(args, i, isTemplate);
        assert 0 <= i < n && ArgumentRejected(args, i, isTemplate);
      } else {
        assert 0 <= n - 1 < n && ArgumentRejected(args, n - 1, isTemplate);
      }
    }
  }

  // ---------------------------------------------------------------------------
  // Constantality and compile-time computability

  /** A bound expression as far as these walks see it: a constant value short-circuits both. */
  datatype BoundExpr = BoundExpr(constant: bool, exprType: BoundTypes.BoundType, shape: Shape)

  datatype Shape =
    | MemberAccess(left: BoundExpr)
    | Unary(operand: BoundExpr)
    | Binary(left: BoundExpr, right: BoundExpr)
    | Ternary(left: BoundExpr, center: BoundExpr, right: BoundExpr)
    | Cast(operand: BoundExpr)
    | Index(expression: BoundExpr, index: BoundExpr)
    | Variable(variable: string)
    | OtherShape

  /** The types along a member-access chain, outermost first. */
  function AccessChain(e: BoundExpr): (r: seq<BoundTypes.BoundType>)
    ensures |r| >= 1 && r[0] == e.exprType
  {
    if e.shape.MemberAccess? then [e.exprType] + AccessChain(e.shape.left) else [e.exprType]
  }

  /** Whether a member-access chain ends at a constant and a constant reference somewhere along it. */
  function ChainConstantality(e: BoundExpr): (bool, bool)
  {
    var rest := if e.shape.MemberAccess? then ChainConstantality(e.shape.left) else (false, false);
    (e.exprType.isConstant || rest.0, e.exprType.isConstantReference || rest.1)
  }

  /** The chain is constant iff some type along it is constant. */
  lemma {:induction false} ChainConstantAlongChain(e: BoundExpr)
    ensures ChainConstantality(e).0 ==> exists k :: 0 <= k < |AccessChain(e)| && AccessChain(e)[k].isConstant
    ensures (exists k :: 0 <= k < |AccessChain(e)| && AccessChain(e)[k].isConstant) ==> ChainConstantality(e).0
  {
    var c := AccessChain(e);
    if !e.shape.MemberAccess? {
      assert c == [e.exprType];
    } else if e.exprType.isConstant {
      assert c[0].isConstant;
    } else {
      var left := AccessChain(e.shape.left);
      ChainConstantAlongChain(e.shape.left);
      assert c == [e.exprType] + left;
      if ChainConstantality(e.shape.left).0 {
        var k :| 0 <= k < |left| && left[k].isConstant;
        assert c[k + 1] == left[k];
      }
      if exists k :: 0 <= k < |c| && c[k].isConstant {
        var k :| 0 <= k < |c| && c[k].isConstant;
        assert k > 0 && left[k - 1] == c[k];
      }
    }
  }

  /** The chain is a constant reference iff some type along it is. */
  lemma {:induction false} ChainConstantReferenceAlongChain(e: BoundExpr)
    ensures ChainConstantality(e).1 ==> exists k :: 0 <= k < |AccessChain(e)| && AccessChain(e)[k].isConstantReference
    ensures (exists k :: 0 <= k < |AccessChain(e)| && AccessChain(e)[k].isConstantReference) ==> ChainConstantality(e).1
  {
    var c := AccessChain(e);
    if !e.shape.MemberAccess? {
      assert c == [e.exprType];
    } else if e.exprType.isConstantReference {
      assert c[0].isConstantReference;
    } else {
      var left := AccessChain(e.shape.left);
      ChainConstantReferenceAlongChain(e.shape.left);
      assert c == [e.exprType] + left;
      if ChainConstantality(e.shape.left).1 {
        var k :| 0 <= k < |left| && left[k].isConstantReference;
        assert c[k + 1] == left[k];
      }
      if exists k :: 0 <= k < |c| && c[k].isConstantReference {
        var k :| 0 <= k < |c| && c[k].isConstantReference;
        assert k > 0 && left[k - 1] == c[k];
      }
    }
  }

  /** The chain is constant iff some type along it is constant, and likewise for constant references. */
  lemma ChainConstantalityAlongChain(e: BoundExpr)
    ensures ChainConstantality(e).0 <==> exists k :: 0 <= k < |AccessChain(e)| && AccessChain(e)[k].isConstant
    ensures ChainConstantality(e).1 <==> exists k :: 0 <= k < |AccessChain(e)| && AccessChain(e)[k].isConstantReference
  {
    ChainConstantAlongChain(e);
    ChainConstantReferenceAlongChain(e);
  }

  /** `IsCompilerComputable`: built from constants and allowed variables through unary, binary, ternary, cast and index nodes. */
  predicate IsCompilerComputable(e: BoundExpr, allowed: seq<string>)
  {
    e.constant ||
    match e.shape
    case Unary(o) => IsCompilerComputable(o, allowed)
    case Binary(l, r) => IsCompilerComputable(l, allowed) && IsCompilerComputable(r, allowed)
    case Ternary(l, c, r) => IsCompilerComputable(l, allowed) && IsCompilerComputable(c, allowed) && IsCompilerComputable(r, allowed)
    case Cast(o) => IsCompilerComputable(o, allowed)
    case Index(x, i) => IsCompilerComputable(x, allowed) && IsCompilerComputable(i, allowed)
    case Variable(v) => v in allowed
    case _ => false
  }

  /** The variables an expression reads outside constant subexpressions. */
  function FreeVariables(e: BoundExpr): set<string>
  {
    if e.constant then {}
    else match e.shape
      case MemberAccess(l) => FreeVariables(l)
      case Unary(o) => FreeVariables(o)
      case Binary(l, r) => FreeVariables(l) + FreeVariables(r)
      case Ternary(l, c, r) => FreeVariables(l) + FreeVariables(c) + FreeVariables(r)
      case Cast(o) => FreeVariables(o)
      case Index(x, i) => FreeVariables(x) + FreeVariables(i)
      case Variable(v) => {v}
      case OtherShape => {}
  }

  /** A computable expression only reads allowed variables, and allowing more variables keeps it computable. */
  lemma {:induction false} ComputableReadsAllowed(e: BoundExpr, allowed: seq<string>, more: seq<string>)
    requires IsCompilerComputable(e, allowed)
    requires forall v :: v in allowed ==> v in more
    ensures forall v :: v in FreeVariables(e) ==> v in allowed
    ensures IsCompilerComputable(e, more)
  {
    if !e.constant {
      match e.shape
      case Unary(o) => ComputableReadsAllowed(o, allowed, more);
      case Binary(l, r) => ComputableReadsAllowed(l, allowed, more); ComputableReadsAllowed(r, allowed, more);
      case Ternary(l, c, r) =>
        ComputableReadsAllowed(l, allowed, more); ComputableReadsAllowed(c, allowed, more); ComputableReadsAllowed(r, allowed, more);
      case Cast(o) => ComputableReadsAllowed(o, allowed, more);
      case Index(x, i) => ComputableReadsAllowed(x, allowed, more); ComputableReadsAllowed(i, allowed, more);
      case Variable(v) =>
    }
  }

  // ---------------------------------------------------------------------------
  // The binder state these helpers change

  /** The part of the binder these helpers read and change: its diagnostics, whether it binds inside a class, the build mode, and the stack of enclosing local-function names. */
  class Binder {
    var diagnostics: seq<Diagnostic>
    const inClass: bool
    const transpile: bool
    var innerPrefix: seq<string>

    constructor(inClass: bool, transpile: bool, innerPrefix: seq<string>)
      ensures this.inClass == inClass && this.transpile == transpile
      ensures this.innerPrefix == innerPrefix && diagnostics == []
    {
      this.inClass := inClass;
      this.transpile := transpile;
      this.innerPrefix := innerPrefix;
      diagnostics := [];
    }

    /** `ModifierAlreadyApplied`: reports, and answers true, exactly when the flag is already set. */
    method CheckModifierAlreadyApplied(modifiers: set<Modifier>, modifier: Modifier, syntax: ModifierToken) returns (applied: bool)
      modifies this
      ensures applied <==> modifier in modifiers
      ensures diagnostics == old(diagnostics) + (if applied then [ModifierAlreadyApplied(syntax.location, syntax.text)] else [])
    {
      applied := modifier in modifiers;
      if applied {
        diagnostics := diagnostics + [ModifierAlreadyApplied(syntax.location, syntax.text)];
      }
    }

    /** `BindMethodDeclarationModifiers`: folds the keywords left to right. */
    method BindMethodDeclarationModifiers(ts: seq<ModifierToken>) returns (modifiers: set<Modifier>)
      modifies this
      ensures modifiers == MethodModifiers(ts, inClass).0
      ensures diagnostics == old(diagnostics) + MethodModifiers(ts, inClass).1
      ensures ValidMethodModifiers(modifiers, inClass)
    {
      modifiers := {};
      var i := 0;
      while i < |ts|
        invariant 0 <= i <= |ts|
        invariant modifiers == MethodModifiers(ts[..i], inClass).0
        invariant diagnostics == old(diagnostics) + MethodModifiers(ts[..i], inClass).1
      {
        assert ts[..i + 1][..i] == ts[..i];
        var step := MethodModifierStep(modifiers, ts[i], inClass);
        modifiers := step.0;
        diagnostics := diagnostics + step.1;
        i := i + 1;
      }
      assert ts[..|ts|] == ts;
    }

    /** `BindParameters`: keeps the parameters that pass the checks, numbered from 1. */
    method BindParameters(ps: seq<ParameterSyntax>, isTemplate: bool) returns (parameters: seq<ParameterSymbol>)
      modifies this
      ensures parameters == ParametersUpTo(ps, |ps|, isTemplate, transpile).kept
      ensures diagnostics == old(diagnostics) + ParametersUpTo(ps, |ps|, isTemplate, transpile).diagnostics
      ensures forall k :: 0 <= k < |parameters| ==> parameters[k].ordinal == k + 1
      ensures forall j, k :: 0 <= j < k < |parameters| ==> parameters[j].name != parameters[k].name
    {
      var state := ParameterState([], []);
      var i := 0;
      while i < |ps|
        invariant 0 <= i <= |ps|
        invariant state == ParametersUpTo(ps, i, isTemplate, transpile)
      {
        state := ParameterStep(ps, i, isTemplate, transpile, state);
        i := i + 1;
      }
      parameters := state.kept;
      diagnostics := diagnostics + state.diagnostics;
    }

    /** `PartiallyBindArguments`: binds every argument and answers whether the list is well formed. */
    method PartiallyBindArguments(args: seq<ArgumentSyntax>, isTemplate: bool) returns (ok: bool, bound: seq<(Option<string>, ArgumentValue)>)
      modifies this
      ensures ok <==> forall i :: 0 <= i < |args| ==> !ArgumentRejected(args, i, isTemplate)
      ensures |bound| == |args| && forall k :: 0 <= k < |args| ==> bound[k] == (args[k].name, ArgumentBinding(args[k].value))
      ensures diagnostics == old(diagnostics) + ArgumentsUpTo(args, |args|, isTemplate).diagnostics
    {
      var state := BindEachArgument(args, isTemplate);
      ArgumentsResult(args, |args|, isTemplate);
      ok, bound := state.result, state.bound;
      diagnostics := diagnostics + state.diagnostics;
    }

    /** The loop of `PartiallyBindArguments`: one step per argument, in order. */
    method BindEachArgument(args: seq<ArgumentSyntax>, isTemplate: bool) returns (state: ArgumentState)
      ensures state == ArgumentsUpTo(args, |args|, isTemplate)
    {
      state := ArgumentState(true, [], []);
      var i := 0;
      while i < |args|
        invariant 0 <= i <= |args|
        invariant state == ArgumentsUpTo(args, i, isTemplate)
      {
        state := ArgumentStep(args, i, isTemplate, state);
        i := i + 1;
      }
    }

    /**
     * `ConstructInnerName`: `<outer::...::inner>g__name` from the stack of
     * enclosing names (the last element is the top). The source walks
     * `ToArray()`, which lists the stack top first; index `i` of that array
     * is element `|innerPrefix| - 1 - i` here. An empty stack throws.
     */
    method ConstructInnerName() returns (r: Result<string>)
      ensures |innerPrefix| == 0 ==> r.Fail?
      ensures |innerPrefix| > 0 ==>
        r == Ok("<" + Join(innerPrefix[..|innerPrefix| - 1], "::") + ">g__" + innerPrefix[|innerPrefix| - 1])
    {
      var name := "<";
      var i := |innerPrefix| - 1;
      while i > 0
        invariant if |innerPrefix| == 0 then i == -1 else 0 <= i < |innerPrefix|
        invariant i >= 0 ==>
          var done := |innerPrefix| - 1 - i;
          name == "<" + Join(innerPrefix[..done], "::") + (if 0 < done < |innerPrefix| - 1 then "::" else "")
      {
        var done := |innerPrefix| - 1 - i;
        var prefix := innerPrefix[..done + 1];
        assert prefix[..done] == innerPrefix[..done] && prefix[done] == innerPrefix[done];
        if done == 0 {
          assert Join(prefix, "::") == innerPrefix[0];
        } else {
          assert Join(prefix, "::") == Join(innerPrefix[..done], "::") + "::" + innerPrefix[done];
        }
        name := name + innerPrefix[|innerPrefix| - 1 - i];
        assert name == "<" + Join(prefix, "::");
        if i > 1 {
          name := name + "::";
        }
        i := i - 1;
      }
      if |innerPrefix| == 0 {
        return Fail("InvalidOperationException");
      }
      assert name == "<" + Join(innerPrefix[..|innerPrefix| - 1], "::");
      r := Ok(name + ">g__" + innerPrefix[|innerPrefix| - 1]);
    }

    /** `CheckConstantality`: walks the member-access chain to its end. */
    method CheckConstantality(expression: BoundExpr) returns (isConstant: bool, isConstantReference: bool)
      ensures (isConstant, isConstantReference) == ChainConstantality(expression)
    {
      isConstant, isConstantReference := false, false;
      var e := expression;
      while true
        invariant (isConstant || ChainConstantality(e).0, isConstantReference || ChainConstantality(e).1) == ChainConstantality(expression)
        decreases e
      {
        if e.exprType.isConstant {
          isConstant := true;
        }
        if e.exprType.isConstantReference {
          isConstantReference := true;
        }
        if e.shape.MemberAccess? {
          e := e.shape.left;
        } else {
          break;
        }
      }
    }
  }
}
