/**
 * Pure helpers of the C# transpiler (Emitting/CSharpEmitter.cs): the C# spelling of a
 * bound type, the text of a cast and of a return statement, and the final clean-up of the
 * emitted text. Line breaks are "\n".
 */
module CSharpEmitter {
  import opened Wrappers
  import opened Strings
  import opened BoundTypes

  // ---------------------------------------------------------------------------------------
  // Type names

  /**
   * Whether a name is a C# identifier: a letter or underscore, then letters, digits and
   * underscores.
   */
  predicate IsValidIdentifier(name: string)
  {
    |name| > 0 && (IsAsciiLetter(name[0]) || name[0] == '_')
    && forall i :: 0 <= i < |name| ==> IsAsciiLetter(name[i]) || IsAsciiDigit(name[i]) || name[i] == '_'
  }

  /** `<`, `>` and `:` become underscores. */
  function ReplaceAngles(s: string): (r: string)
    ensures |r| == |s|
    ensures forall i :: 0 <= i < |r| ==> r[i] == (if s[i] in {'<', '>', ':'} then '_' else s[i])
  {
    if s == [] then [] else ReplaceAngles(s[..|s| - 1]) + [if s[|s| - 1] in {'<', '>', ':'} then '_' else s[|s| - 1]]
  }

  /** `GetSafeName`: a name that is not an identifier is escaped with `@`, then angle brackets and colons are replaced. */
  function SafeName(name: string): (r: string)
    ensures forall i :: 0 <= i < |r| ==> r[i] != '<' && r[i] != '>' && r[i] != ':'
    ensures IsValidIdentifier(name) ==> r == name
    ensures !IsValidIdentifier(name) ==> |r| == |name| + 1 && r[0] == '@'
  {
    var escaped := if IsValidIdentifier(name) then name else "@" + name;
    var r := ReplaceAngles(escaped);
    assert IsValidIdentifier(name) ==> r == name;
    r
  }

  /** `GetEquivalentTypeName`: the C# name of a type symbol; a named type stands for a struct. */
  function TypeName(symbol: Option<TypeSymbol>): string
  {
    match symbol
    case Some(NamedSymbol(name)) => SafeName(name)
    case Some(BoolSymbol) => "bool"
    case Some(DecimalSymbol) => "double"
    case Some(IntSymbol) => "int"
    case Some(StringSymbol) => "string"
    case _ => "object"
  }

  /** Whether the type is written with a leading `ref `. */
  predicate WritesRef(t: BoundType, makeReferenceExplicit: bool)
  {
    t.isExplicitReference || (t.isReference && makeReferenceExplicit)
  }

  /** Whether the element type is wrapped in `Nullable<>`: only nullable value types are. */
  predicate WritesNullable(t: BoundType)
  {
    t.isNullable && TypeName(t.typeSymbol) in ["bool", "double", "int"]
  }

  /** The element type's text. */
  function ElementText(t: BoundType): string
  {
    var name := TypeName(t.typeSymbol);
    if WritesNullable(t) then "Nullable<" + name + ">" else name
  }

  /** `List<` ... `>` once per dimension around a text. */
  function Lists(d: nat, inner: string): string
  {
    if d == 0 then inner else "List<" + Lists(d - 1, inner) + ">"
  }

  /** The C# spelling of a bound type (the specification of `GetEquivalentType`). */
  function EquivalentType(t: BoundType, makeReferenceExplicit: bool): string
  {
    if t.typeSymbol == Some(VoidSymbol) then "void"
    else (if WritesRef(t, makeReferenceExplicit) then "ref " else "") + Lists(t.dimensions, ElementText(t))
  }

  /** `GetEquivalentType`: the dimensions are wrapped on one at a time. */
  method GetEquivalentType(t: BoundType, makeReferenceExplicit: bool) returns (r: string)
    ensures r == EquivalentType(t, makeReferenceExplicit)
  {
    if t.typeSymbol == Some(VoidSymbol) {
      return "void";
    }
    r := if WritesRef(t, makeReferenceExplicit) then "ref " else "";
    var typeName := TypeName(t.typeSymbol);
    if t.isNullable && typeName in ["bool", "double", "int"] {
      typeName := "Nullable<" + typeName + ">";
    }
    var i := 0;
    while i < t.dimensions
      invariant 0 <= i <= t.dimensions
      invariant typeName == Lists(i, ElementText(t))
    {
      typeName := "List<" + typeName + ">";
      i := i + 1;
    }
    r := r + typeName;
  }

  /** A C# type text read back: whether it is a reference, its list depth, whether the element is `Nullable<>`, and the element's name. */
  datatype TypeText = TypeText(isRef: bool, dimensions: nat, nullable: bool, name: string)

  /** Peels `List<` ... `>` wrappers. */
  function Unlist(s: string): (nat, string)
    decreases |s|
  {
    if |s| >= 6 && StartsWith(s, "List<") && s[|s| - 1] == '>' then
      var (d, inner) := Unlist(s[5..|s| - 1]);
      (d + 1, inner)
    else (0, s)
  }

  /** Peels a `Nullable<` ... `>` wrapper, when there is one. */
  function Unnull(inner: string): (bool, string)
  {
    if |inner| >= 10 && StartsWith(inner, "Nullable<") && inner[|inner| - 1] == '>' then
      (true, inner[9..|inner| - 1])
    else (false, inner)
  }

  /** Reads a C# type text back into its parts. */
  function ParseType(s: string): TypeText
  {
    var isRef := StartsWith(s, "ref ");
    var (d, inner) := Unlist(if isRef then s[4..] else s);
    var (nullable, name) := Unnull(inner);
    TypeText(isRef, d, nullable, name)
  }

  /** A name that cannot be mistaken for a wrapper or for `ref `. */
  predicate BareName(name: string)
  {
    (forall i :: 0 <= i < |name| ==> name[i] != '<') && !StartsWith(name, "ref ")
  }

  /** An escaped name is bare: it has no angle bracket and does not start with `ref `. */
  lemma SafeNameIsBare(name: string)
    ensures BareName(SafeName(name))
  {
    var n := SafeName(name);
    if IsValidIdentifier(name) {
      if |n| >= 4 {
        assert n[3] == name[3];
        DiffersAt(n, "ref ", 3);
      }
    } else {
      DiffersAt(n, "ref ", 0);
    }
  }

  lemma TypeNameIsBare(symbol: Option<TypeSymbol>)
    ensures BareName(TypeName(symbol))
  {
    match symbol
    case Some(NamedSymbol(name)) => SafeNameIsBare(name);
    case Some(BoolSymbol) => DiffersAt("bool", "ref ", 0);
    case Some(DecimalSymbol) => DiffersAt("double", "ref ", 0);
    case Some(IntSymbol) => DiffersAt("int", "ref ", 0);
    case Some(StringSymbol) => DiffersAt("string", "ref ", 0);
    case _ => DiffersAt("object", "ref ", 0);
  }

  lemma {:induction false} UnlistLists(d: nat, inner: string)
    requires !StartsWith(inner, "List<")
    ensures Unlist(Lists(d, inner)) == (d, inner)
    decreases d
  {
    if d > 0 {
      var s := Lists(d, inner);
      assert s[..5] == "List<";
      assert s[5..|s| - 1] == Lists(d - 1, inner);
      UnlistLists(d - 1, inner);
    }
  }

  /** The element text is neither a list nor a `ref ` type, and its wrapper reads back. */
  lemma ElementReadsBack(t: BoundType)
    ensures !StartsWith(ElementText(t), "List<") && !StartsWith(ElementText(t), "ref ")
    ensures Unnull(ElementText(t)) == (WritesNullable(t), TypeName(t.typeSymbol))
  {
    var name := TypeName(t.typeSymbol);
    TypeNameIsBare(t.typeSymbol);
    var element := ElementText(t);
    if WritesNullable(t) {
      DiffersAt(element, "List<", 0);
      DiffersAt(element, "ref ", 0);
      assert element[..9] == "Nullable<";
      assert element[9..|element| - 1] == name;
    } else {
      assert element == name;
      if |name| >= 5 {
        assert name[4] != '<';
        DiffersAt(name, "List<", 4);
      } else {
        DiffersAt(name, "List<", |name|);
      }
      if |name| >= 9 {
        assert name[8] != '<';
        DiffersAt(name, "Nullable<", 8);
      } else {
        DiffersAt(name, "Nullable<", |name|);
      }
    }
  }

  /**
   * The C# spelling of a non-void type reads back as `ref ` exactly when the type is an
   * explicit reference (or any reference, when asked), one `List<>` per dimension, and a
   * `Nullable<>` element exactly for nullable `bool`, `double` and `int`.
   */
  lemma ParseEquivalentType(t: BoundType, makeReferenceExplicit: bool)
    requires t.typeSymbol != Some(VoidSymbol)
    ensures ParseType(EquivalentType(t, makeReferenceExplicit))
      == TypeText(WritesRef(t, makeReferenceExplicit), t.dimensions, WritesNullable(t), TypeName(t.typeSymbol))
  {
    var element := ElementText(t);
    ElementReadsBack(t);
    var listed := Lists(t.dimensions, element);
    UnlistLists(t.dimensions, element);
    var s := EquivalentType(t, makeReferenceExplicit);
    if WritesRef(t, makeReferenceExplicit) {
      assert s == "ref " + listed;
      assert s[..4] == "ref ";
      assert s[4..] == listed;
    } else {
      assert s == listed;
      if t.dimensions > 0 {
        DiffersAt(s, "ref ", 0);
      }
    }
  }

  // ---------------------------------------------------------------------------------------
  // Casts and returns

  /**
   * The conversion calls `EmitCastExpression` opens around the operand, outermost first:
   * `Convert.ToX` for the four convertible targets, with `Math.Truncate` inside it when an
   * int is made from a decimal; none for any other target.
   */
  function CastCalls(target: Option<TypeSymbol>, source: Option<TypeSymbol>): seq<string>
  {
    match target
    case Some(BoolSymbol) => ["Convert.ToBoolean"]
    case Some(DecimalSymbol) => ["Convert.ToDouble"]
    case Some(StringSymbol) => ["Convert.ToString"]
    case Some(IntSymbol) =>
      if source == Some(DecimalSymbol) then ["Convert.ToInt32", "Math.Truncate"] else ["Convert.ToInt32"]
    case _ => []
  }

  /** Each call opened with its parenthesis. */
  function Opened(calls: seq<string>): string
  {
    if calls == [] then "" else Opened(calls[..|calls| - 1]) + calls[|calls| - 1] + "("
  }

  /**
   * `EmitCastExpression`: a nullable target is first cast with its C# type in parentheses;
   * then the conversion calls are opened, the operand written, and exactly one parenthesis
   * closed per call opened (`neededParenthesis`), which is at most two.
   */
  function CastText(target: BoundType, source: BoundType, operand: string): (r: string)
    ensures var calls := CastCalls(target.typeSymbol, source.typeSymbol);
      var prefix := if target.isNullable then "(" + EquivalentType(target, false) + ")" else "";
      r == prefix + Opened(calls) + operand + Repeat(')', |calls|) && |calls| <= 2
      && (target.typeSymbol !in {Some(BoolSymbol), Some(DecimalSymbol), Some(StringSymbol), Some(IntSymbol)}
          ==> r == prefix + operand)
  {
    var calls := CastCalls(target.typeSymbol, source.typeSymbol);
    var prefix := if target.isNullable then "(" + EquivalentType(target, false) + ")" else "";
    prefix + Opened(calls) + operand + Repeat(')', |calls|)
  }

  /** What `EmitReturnStatement` needs of the returned expression. */
  datatype Returned = Returned(isNullConstant: bool, text: string, isNullable: bool)

  /**
   * `EmitReturnStatement`: a bare `return;`, `return 0;` for a null constant, and otherwise
   * the expression, defaulted with `?? 0` when it is nullable inside `Main`.
   */
  function ReturnText(expression: Option<Returned>, insideMain: bool): (r: string)
    ensures StartsWith(r, "return") && EndsWith(r, ";")
    ensures expression.None? ==> r == "return;"
    ensures expression.Some? && expression.value.isNullConstant ==> r == "return 0;"
    ensures expression.Some? && !expression.value.isNullConstant ==>
      StartsWith(r, "return " + expression.value.text)
      && (insideMain && expression.value.isNullable ==> EndsWith(r, " ?? 0;"))
      && (!(insideMain && expression.value.isNullable) ==> |r| == |"return " + expression.value.text| + 1)
  {
    match expression
    case None => "return;"
    case Some(e) =>
      if e.isNullConstant then "return 0;"
      else
        var tail := if insideMain && e.isNullable then " ?? 0;" else ";";
        var r := "return " + e.text + tail;
        assert r[..|"return " + e.text|] == "return " + e.text;
        assert r[..6] == "return";
        assert r[|r| - |tail|..] == tail;
        r
  }

  // ---------------------------------------------------------------------------------------
  // Output clean-up

  /** Each line right-trimmed and followed by a line break. */
  function Terminated(lines: seq<string>): (r: string)
    ensures lines != [] ==> |r| > 0 && r[|r| - 1] == '\n'
  {
    if lines == [] then "" else Terminated(lines[..|lines| - 1]) + TrimEnd(lines[|lines| - 1]) + "\n"
  }

  /**
   * The clean-up at the end of `EmitInternal`: every line right-trimmed, then trailing
   * whitespace and blank lines removed and a single line break put back.
   */
  function Tidy(text: string): (r: string)
    ensures |r| >= 1 && r[|r| - 1] == '\n'
    ensures |r| == 1 || !IsWhiteSpace(r[|r| - 2])
  {
    TrimEnd(Terminated(SplitLines(text))) + "\n"
  }

  /** The line-by-line `StringBuilder` loop of `EmitInternal`. */
  method TidyOutput(text: string) returns (r: string)
    ensures r == Tidy(text)
  {
    var lines := SplitLines(text);
    var builder := "";
    var i := 0;
    while i < |lines|
      invariant 0 <= i <= |lines|
      invariant builder == Terminated(lines[..i])
    {
      assert lines[..i + 1][..i] == lines[..i];
      builder := builder + TrimEnd(lines[i]) + "\n";
      i := i + 1;
    }
    assert lines[..i] == lines;
    r := TrimEnd(builder) + "\n";
  }

  /** No line ends in whitespace: a line break follows a line break or a visible character. */
  predicate LinesTrimmed(s: string)
  {
    forall i :: 0 < i < |s| && s[i] == '\n' ==> s[i - 1] == '\n' || !IsWhiteSpace(s[i - 1])
  }

  lemma {:induction false} TerminatedTrimmed(lines: seq<string>)
    requires forall i :: 0 <= i < |lines| ==> '\n' !in lines[i]
    ensures LinesTrimmed(Terminated(lines))
    decreases |lines|
  {
    if lines != [] {
      var front := Terminated(lines[..|lines| - 1]);
      var line := TrimEnd(lines[|lines| - 1]);
      TerminatedTrimmed(lines[..|lines| - 1]);
      var s := Terminated(lines);
      assert s == front + line + "\n";
      assert forall j :: |front| <= j < |front| + |line| ==> s[j] == line[j - |front|] != '\n';
      forall i | 0 < i < |s| && s[i] == '\n' ensures s[i - 1] == '\n' || !IsWhiteSpace(s[i - 1]) {
        if i < |front| {
          assert s[i] == front[i] && s[i - 1] == front[i - 1];
        } else {
          assert i == |front| + |line|;
          if |line| > 0 {
            assert s[i - 1] == line[|line| - 1];
          } else {
            assert s[i - 1] == front[|front| - 1];
          }
        }
      }
    }
  }

  /**
   * The emitted text has no line ending in whitespace, and it ends with exactly one line
   * break after its last visible character.
   */
  lemma TidyTrimsLines(text: string)
    ensures LinesTrimmed(Tidy(text))
  {
    var t := Terminated(SplitLines(text));
    TerminatedTrimmed(SplitLines(text));
    var body := TrimEnd(t);
    var r := Tidy(text);
    forall i | 0 < i < |r| && r[i] == '\n' ensures r[i - 1] == '\n' || !IsWhiteSpace(r[i - 1]) {
      if i < |body| {
        assert r[i] == t[i] && r[i - 1] == t[i - 1];
      } else {
        assert r[i - 1] == body[|body| - 1];
      }
    }
  }

  /** The characters of a text that are not whitespace, in order. */
  function Visible(s: string): string
  {
    if s == [] then "" else Visible(s[..|s| - 1]) + (if IsWhiteSpace(s[|s| - 1]) then "" else [s[|s| - 1]])
  }

  lemma {:induction false} VisibleAppend(a: string, b: string)
    ensures Visible(a + b) == Visible(a) + Visible(b)
    decreases |b|
  {
    if b != [] {
      assert (a + b)[..|a + b| - 1] == a + b[..|b| - 1];
      VisibleAppend(a, b[..|b| - 1]);
    } else {
      assert a + b == a;
    }
  }

  lemma {:induction false} VisibleTrimEnd(s: string)
    ensures Visible(TrimEnd(s)) == Visible(s)
    decreases |s|
  {
    if |s| > 0 && IsWhiteSpace(s[|s| - 1]) {
      VisibleTrimEnd(s[..|s| - 1]);
    }
  }

  lemma {:induction false} VisibleTerminated(lines: seq<string>)
    ensures Visible(Terminated(lines)) == Visible(Join(lines, "\n"))
    decreases |lines|
  {
    if lines != [] {
      var front, last := lines[..|lines| - 1], lines[|lines| - 1];
      VisibleTerminated(front);
      VisibleAppend(Terminated(front) + TrimEnd(last), "\n");
      VisibleAppend(Terminated(front), TrimEnd(last));
      VisibleTrimEnd(last);
      assert Visible("\n") == "";
      if |lines| == 1 {
        assert Terminated(front) == "";
      } else {
        VisibleAppend(Join(front, "\n") + "\n", last);
        VisibleAppend(Join(front, "\n"), "\n");
      }
    }
  }

  /** Clean-up moves no visible character: only whitespace is dropped or added. */
  lemma TidyKeepsVisible(text: string)
    ensures Visible(Tidy(text)) == Visible(text)
  {
    var lines := SplitLines(text);
    var t := Terminated(lines);
    VisibleAppend(TrimEnd(t), "\n");
    assert Visible("\n") == "";
    VisibleTrimEnd(t);
    VisibleTerminated(lines);
    SplitLinesJoin(text);
  }
}
