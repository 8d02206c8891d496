/**
 * The string helpers and the indenting writer of the syntax source
 * generator (SourceGenerators/SyntaxGenerator/SourceWriter.cs). The text
 * writer becomes the `output` string; the generated syntax itself (the
 * XML tree walk) is not part of this model.
 */
module SourceWriter {
  import opened Wrappers
  import opened Strings

  /** Spaces per indentation level. */
  const IndentSize: nat := 4

  /** The index of the first `c` at or after `from`. */
  function IndexOf(s: string, c: char, from: nat): (r: Option<nat>)
    ensures r.Some? ==> from <= r.value < |s| && s[r.value] == c && forall k :: from <= k < r.value ==> s[k] != c
    ensures r.None? ==> forall k :: from <= k < |s| ==> s[k] != c
    decreases |s| - from
  {
    if from >= |s| then None
    else if s[from] == c then Some(from)
    else IndexOf(s, c, from + 1)
  }

  /** `GetElementType`: the text between the first `<` and the next `>`, or "" when either is missing. */
  function GetElementType(typeName: string): (r: string)
    ensures r != "" ==> exists i, j :: 0 <= i < j < |typeName| && typeName[i] == '<' && typeName[j] == '>' && r == typeName[i + 1..j]
    ensures '>' !in r
  {
    match IndexOf(typeName, '<', 0)
    case None => ""
    case Some(i) =>
      match IndexOf(typeName, '>', i + 1)
      case None => ""
      case Some(j) => typeName[i + 1..j]
  }

  /** The element type of a list type written out is the element type's name, whatever follows. */
  lemma ElementTypeOfList(prefix: string, element: string, rest: string)
    requires '<' !in prefix && '>' !in element
    ensures GetElementType(prefix + "<" + element + ">" + rest) == element
  {
    var s := prefix + "<" + element + ">" + rest;
    assert s[|prefix|] == '<';
    assert forall k :: 0 <= k < |prefix| ==> s[k] == prefix[k];
    assert IndexOf(s, '<', 0) == Some(|prefix|);
    assert s[|prefix| + 1 + |element|] == '>';
    assert forall k :: |prefix| + 1 <= k < |prefix| + 1 + |element| ==> s[k] == element[k - |prefix| - 1];
    assert IndexOf(s, '>', |prefix| + 1) == Some(|prefix| + 1 + |element|);
    assert s[|prefix| + 1..|prefix| + 1 + |element|] == element;
  }

  /** A type name without `<`, or with no `>` after it, has no element type. */
  lemma NoElementTypeWithoutBrackets(typeName: string)
    requires '<' !in typeName || (forall k :: 0 <= k < |typeName| ==> typeName[k] != '>')
    ensures GetElementType(typeName) == ""
  {
  }

  /** `StripPost`: removes `post` from the end of `name` when it is there. */
  function StripPost(name: string, post: string): (r: string)
    ensures EndsWith(name, post) ==> r + post == name
    ensures !EndsWith(name, post) ==> r == name
  {
    if EndsWith(name, post) then name[..|name| - |post|] else name
  }

  /** Stripping a suffix that was appended gives back the original name. */
  lemma StripPostAppended(name: string, post: string)
    ensures StripPost(name + post, post) == name
  {
    assert (name + post)[|name + post| - |post|..] == post;
    assert (name + post)[..|name|] == name;
  }

  /** The base type `n` steps up the parent map from `d`; `None` once the chain ends. */
  function Ancestor(parents: map<string, Option<string>>, d: Option<string>, n: nat): Option<string>
    decreases n
  {
    if n == 0 then d
    else if d.Some? && d.value in parents then Ancestor(parents, parents[d.value], n - 1)
    else None
  }

  /**
   * `IsDerivedType`: follows the parent map from `derived` until it meets
   * `typeName` or the chain ends; `fuel` bounds the number of steps.
   */
  function DerivedWithin(parents: map<string, Option<string>>, typeName: string, derived: Option<string>, fuel: nat): bool
    decreases fuel
  {
    derived == Some(typeName) ||
    (fuel > 0 && derived.Some? && derived.value in parents && DerivedWithin(parents, typeName, parents[derived.value], fuel - 1))
  }

  /** A type derives from `typeName` exactly when `typeName` is one of its first `fuel` ancestors. */
  lemma {:induction false} DerivedWithinIsAncestor(parents: map<string, Option<string>>, typeName: string, derived: Option<string>, fuel: nat)
    ensures DerivedWithin(parents, typeName, derived, fuel) ==> exists n :: 0 <= n <= fuel && Ancestor(parents, derived, n) == Some(typeName)
    ensures (exists n :: 0 <= n <= fuel && Ancestor(parents, derived, n) == Some(typeName)) ==> DerivedWithin(parents, typeName, derived, fuel)
    decreases fuel
  {
    if derived == Some(typeName) {
      assert 0 <= 0 <= fuel && Ancestor(parents, derived, 0) == Some(typeName);
    } else if fuel > 0 && derived.Some? && derived.value in parents {
      var up := parents[derived.value];
      DerivedWithinIsAncestor(parents, typeName, up, fuel - 1);
      assert DerivedWithin(parents, typeName, derived, fuel) == DerivedWithin(parents, typeName, up, fuel - 1);
      forall n | 0 < n
        ensures Ancestor(parents, derived, n) == Ancestor(parents, up, n - 1)
      {
      }
      if DerivedWithin(parents, typeName, up, fuel - 1) {
        var n :| 0 <= n <= fuel - 1 && Ancestor(parents, up, n) == Some(typeName);
        assert 0 <= n + 1 <= fuel && Ancestor(parents, derived, n + 1) == Some(typeName);
        assert exists m :: 0 <= m <= fuel && Ancestor(parents, derived, m) == Some(typeName);
        assert DerivedWithin(parents, typeName, derived, fuel);
      } else {
        forall n | 0 <= n <= fuel
          ensures Ancestor(parents, derived, n) != Some(typeName)
        {
          if n > 0 {
            assert Ancestor(parents, up, n - 1) != Some(typeName);
          }
        }
      }
    } else {
      forall n | 0 <= n <= fuel
        ensures Ancestor(parents, derived, n) != Some(typeName)
      {
      }
    }
  }

  /** `IsDerivedType` with as many steps as the map has entries, enough for any chain without a cycle. */
  function IsDerivedType(parents: map<string, Option<string>>, typeName: string, derived: Option<string>): (r: bool)
    ensures derived == Some(typeName) ==> r
  {
    DerivedWithin(parents, typeName, derived, |parents.Keys|)
  }

  /** No type is its own ancestor: following the parent map from a type never leads back to it. */
  ghost predicate Acyclic(parents: map<string, Option<string>>)
  {
    forall k, n: nat :: k in parents && 0 < n ==> Ancestor(parents, Some(k), n) != Some(k)
  }

  /** Going `i` steps up and then `m` more is going `i + m` steps up. */
  lemma {:induction false} AncestorAdd(parents: map<string, Option<string>>, d: Option<string>, i: nat, m: nat)
    ensures Ancestor(parents, d, i + m) == Ancestor(parents, Ancestor(parents, d, i), m)
    decreases i
  {
    if i > 0 {
      if d.Some? && d.value in parents {
        AncestorAdd(parents, parents[d.value], i - 1, m);
      } else if m > 0 {
        assert Ancestor(parents, d, i) == None;
      }
    }
  }

  /** Every step of a chain that goes on for `n` steps is a type with a parent entry. */
  lemma ChainInParents(parents: map<string, Option<string>>, d: Option<string>, n: nat, j: nat)
    requires Ancestor(parents, d, n).Some? && j < n
    ensures Ancestor(parents, d, j).Some? && Ancestor(parents, d, j).value in parents
  {
    AncestorAdd(parents, d, j, n - j);
  }

  /** In a map without cycles, the steps of a chain are pairwise different types. */
  lemma ChainDistinct(parents: map<string, Option<string>>, d: Option<string>, n: nat, i: nat, j: nat)
    requires Acyclic(parents) && Ancestor(parents, d, n).Some? && i < j < n
    ensures Ancestor(parents, d, i) != Ancestor(parents, d, j)
  {
    ChainInParents(parents, d, n, i);
    AncestorAdd(parents, d, i, j - i);
    var k := Ancestor(parents, d, i).value;
    assert Ancestor(parents, Some(k), j - i) != Some(k);
  }

  /** The types met in the first `m` steps of a chain. */
  ghost function ChainKeys(parents: map<string, Option<string>>, d: Option<string>, m: nat): set<string>
  {
    if m == 0 then {}
    else ChainKeys(parents, d, m - 1) + (if Ancestor(parents, d, m - 1).Some? then {Ancestor(parents, d, m - 1).value} else {})
  }

  /** Every type in `ChainKeys` was met at one of the first `m` steps. */
  lemma {:induction false} ChainKeysMember(parents: map<string, Option<string>>, d: Option<string>, m: nat, y: string)
    requires y in ChainKeys(parents, d, m)
    ensures exists j :: 0 <= j < m && Ancestor(parents, d, j) == Some(y)
  {
    if Ancestor(parents, d, m - 1) == Some(y) {
      assert 0 <= m - 1 < m && Ancestor(parents, d, m - 1) == Some(y);
    } else {
      ChainKeysMember(parents, d, m - 1, y);
      var j :| 0 <= j < m - 1 && Ancestor(parents, d, j) == Some(y);
      assert 0 <= j < m && Ancestor(parents, d, j) == Some(y);
    }
  }

  lemma {:induction false} ChainKeysCount(parents: map<string, Option<string>>, d: Option<string>, n: nat, m: nat)
    requires Acyclic(parents) && Ancestor(parents, d, n).Some? && m <= n
    ensures ChainKeys(parents, d, m) <= parents.Keys && |ChainKeys(parents, d, m)| == m
    ensures forall j :: 0 <= j < m ==> Ancestor(parents, d, j).Some? && Ancestor(parents, d, j).value in ChainKeys(parents, d, m)
  {
    if m > 0 {
      ChainKeysCount(parents, d, n, m - 1);
      ChainInParents(parents, d, n, m - 1);
      var x := Ancestor(parents, d, m - 1).value;
      if x in ChainKeys(parents, d, m - 1) {
        ChainKeysMember(parents, d, m - 1, x);
        var j :| 0 <= j < m - 1 && Ancestor(parents, d, j) == Some(x);
        ChainDistinct(parents, d, n, j, m - 1);
        assert false;
      }
    }
  }

  /** A subset is no larger than its superset. */
  lemma {:induction false} SubsetCard(a: set<string>, b: set<string>)
    requires a <= b
    ensures |a| <= |b|
    decreases |a|
  {
    if a != {} {
      var x :| x in a;
      SubsetCard(a - {x}, b - {x});
    }
  }

  /** In a map without cycles, a chain that goes on for `n` steps visits `n` different types, so `n` is at most the number of entries. */
  lemma ChainFits(parents: map<string, Option<string>>, d: Option<string>, n: nat)
    requires Acyclic(parents) && Ancestor(parents, d, n).Some?
    ensures n <= |parents.Keys|
  {
    ChainKeysCount(parents, d, n, n);
    SubsetCard(ChainKeys(parents, d, n), parents.Keys);
  }

  /**
   * When the parent map has no cycle, the step bound of `IsDerivedType` loses nothing: a
   * type derives from `typeName` exactly when `typeName` is one of its ancestors, however far up.
   */
  lemma IsDerivedTypeAcyclic(parents: map<string, Option<string>>, typeName: string, derived: Option<string>)
    requires Acyclic(parents)
    ensures IsDerivedType(parents, typeName, derived) <==> exists n: nat :: Ancestor(parents, derived, n) == Some(typeName)
  {
    var fuel := |parents.Keys|;
    DerivedWithinIsAncestor(parents, typeName, derived, fuel);
    if n: nat :| Ancestor(parents, derived, n) == Some(typeName) {
      ChainFits(parents, derived, n);
      assert 0 <= n <= fuel && Ancestor(parents, derived, n) == Some(typeName);
    }
  }

  /** A type whose parent entry names `typeName` derives from it. */
  lemma DirectBaseIsDerived(parents: map<string, Option<string>>, typeName: string, derived: string)
    requires derived in parents && parents[derived] == Some(typeName)
    ensures IsDerivedType(parents, typeName, Some(derived))
  {
    assert derived in parents.Keys;
    assert parents.Keys != {};
    assert |parents.Keys| > 0;
  }

  /** The strings kept by `Join`: the empty ones are dropped. */
  function NonEmpty(values: seq<string>): (r: seq<string>)
    ensures |r| <= |values|
    ensures forall k :: 0 <= k < |r| ==> r[k] != "" && r[k] in values
  {
    if |values| == 0 then []
    else NonEmpty(values[..|values| - 1]) + (if values[|values| - 1] == "" then [] else [values[|values| - 1]])
  }

  lemma {:induction false} NonEmptyAppend(xs: seq<string>, ys: seq<string>)
    ensures NonEmpty(xs + ys) == NonEmpty(xs) + NonEmpty(ys)
    decreases |ys|
  {
    if |ys| > 0 {
      var n := |ys| - 1;
      assert (xs + ys)[..|xs + ys| - 1] == xs + ys[..n];
      NonEmptyAppend(xs, ys[..n]);
    } else {
      assert xs + ys == xs;
    }
  }

  /** `Join`: the non-empty values with the separator between neighbours. */
  function JoinNonEmpty(separator: string, values: seq<string>): string
  {
    Join(NonEmpty(values), separator)
  }

  /** Joining only empty values gives the empty string. */
  lemma {:induction false} JoinOfEmpties(separator: string, values: seq<string>)
    requires forall k :: 0 <= k < |values| ==> values[k] == ""
    ensures NonEmpty(values) == [] && JoinNonEmpty(separator, values) == ""
  {
    if |values| > 0 {
      JoinOfEmpties(separator, values[..|values| - 1]);
    }
  }

  /** An empty value anywhere in the list leaves the joined text as it would be without it. */
  lemma JoinSkipsEmpty(separator: string, xs: seq<string>, ys: seq<string>)
    ensures JoinNonEmpty(separator, xs + [""] + ys) == JoinNonEmpty(separator, xs + ys)
  {
    NonEmptyAppend(xs + [""], ys);
    NonEmptyAppend(xs, [""]);
    NonEmptyAppend(xs, ys);
    assert [""][..0] == [];
    assert NonEmpty([""]) == [];
    assert NonEmpty(xs + [""]) == NonEmpty(xs);
  }

  /** `CommaJoin`. */
  function CommaJoin(values: seq<string>): string
  {
    JoinNonEmpty(", ", values)
  }

  /** The writer's output state: the text so far and whether the next text starts a line. */
  datatype WriterState = WriterState(output: string, indentLevel: nat, needIndent: bool)

  function Indentation(level: nat): (r: string)
    ensures |r| == level * IndentSize && forall k :: 0 <= k < |r| ==> r[k] == ' '
  {
    Repeat(' ', level * IndentSize)
  }

  /** `Write`: the indentation if a line is starting, then the text. */
  function WriteText(s: WriterState, msg: string): (r: WriterState)
    ensures !r.needIndent && r.indentLevel == s.indentLevel
    ensures s.output <= r.output
  {
    var indent := if s.needIndent then Indentation(s.indentLevel) else "";
    s.(output := s.output + indent + msg, needIndent := false)
  }

  /** `WriteLine`: a non-empty text is written as by `Write`; then a newline, and the next text starts a line. */
  function WriteLineText(s: WriterState, msg: string): (r: WriterState)
    ensures r.needIndent && r.indentLevel == s.indentLevel
    ensures |r.output| > 0 && r.output[|r.output| - 1] == '\n'
  {
    var indent := if msg != "" && s.needIndent then Indentation(s.indentLevel) else "";
    s.(output := s.output + indent + msg + "\n", needIndent := true)
  }

  /** The indentation is written once per line: two writes on a fresh line give one indentation followed by both texts. */
  lemma IndentOncePerLine(s: WriterState, a: string, b: string)
    requires s.needIndent
    ensures WriteText(WriteText(s, a), b).output == s.output + Indentation(s.indentLevel) + a + b
  {
  }

  /** A line that was written in pieces reads as if written at once. */
  lemma WritePiecesThenLine(s: WriterState, a: string, b: string)
    requires a != ""
    ensures WriteLineText(WriteText(s, a), b).output == WriteLineText(s, a + b).output
  {
  }

  /** An empty line carries no indentation. */
  lemma EmptyLineHasNoIndent(s: WriterState)
    ensures WriteLineText(s, "").output == s.output + "\n"
  {
  }

  /** The writer: text output plus the indentation level and the pending-indent flag. */
  class Writer {
    var output: string
    var indentLevel: nat
    var needIndent: bool

    ghost function State(): WriterState
      reads this
    {
      WriterState(output, indentLevel, needIndent)
    }

    constructor()
      ensures State() == WriterState("", 0, true)
    {
      output := "";
      indentLevel := 0;
      needIndent := true;
    }

    method Indent()
      modifies this
      ensures State() == old(State()).(indentLevel := old(indentLevel) + 1)
    {
      indentLevel := indentLevel + 1;
    }

    /** `Unindent`: at the base level the source throws; here that is a failed result and nothing changes. */
    method Unindent() returns (r: Result<()>)
      modifies this
      ensures r.Ok? <==> old(indentLevel) > 0
      ensures r.Ok? ==> State() == old(State()).(indentLevel := old(indentLevel) - 1)
      ensures r.Fail? ==> State() == old(State())
    {
      if indentLevel <= 0 {
        return Fail("Cannot unindent from base level");
      }
      indentLevel := indentLevel - 1;
      r := Ok(());
    }

    method WriteIndentIfNeeded()
      modifies this
      ensures State() == WriteText(old(State()), "")
    {
      if needIndent {
        output := output + Repeat(' ', indentLevel * IndentSize);
        needIndent := false;
      }
    }

    method Write(msg: string)
      modifies this
      ensures State() == WriteText(old(State()), msg)
    {
      WriteIndentIfNeeded();
      output := output + msg;
    }

    method WriteLine(msg: string)
      modifies this
      ensures State() == WriteLineText(old(State()), msg)
    {
      if msg != "" {
        WriteIndentIfNeeded();
      }
      output := output + msg + "\n";
      needIndent := true;
    }

    /** `OpenBlock`: ends the line with ` {` and indents one more level. */
    method OpenBlock()
      modifies this
      ensures State() == WriteLineText(old(State()), " {").(indentLevel := old(indentLevel) + 1)
    {
      WriteLine(" {");
      Indent();
    }

    /** `CloseBlock`: unindents (failing at the base level) and writes the closing brace. */
    method CloseBlock(extra: string) returns (r: Result<()>)
      modifies this
      ensures r.Ok? <==> old(indentLevel) > 0
      ensures r.Ok? ==> State() == WriteLineText(old(State()).(indentLevel := old(indentLevel) - 1), "}" + extra)
      ensures r.Fail? ==> State() == old(State())
    {
      r := Unindent();
      if r.Ok? {
        WriteLine("}" + extra);
      }
    }
  }
}
