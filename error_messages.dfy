/**
 * The texts of the compiler's error diagnostics (Diagnostics/Error.cs):
 * how a syntax kind is described, and the messages whose wording depends
 * on their arguments. Symbols and types appear through their display
 * strings; locations and diagnostic codes are not part of this model.
 */
module ErrorMessages {
  import opened Wrappers
  import opened Strings
  import opened SyntaxFacts

  /** Each character lower-cased, with a space before every upper-case one. */
  function Words(s: string): (r: string)
    ensures forall i :: 0 <= i < |r| ==> !IsUpper(r[i])
  {
    if |s| == 0 then ""
    else Words(s[..|s| - 1]) + (if IsUpper(s[|s| - 1]) then " " else "") + [ToLowerChar(s[|s| - 1])]
  }

  function UpperCount(s: string): nat
  {
    if |s| == 0 then 0 else UpperCount(s[..|s| - 1]) + (if IsUpper(s[|s| - 1]) then 1 else 0)
  }

  /** Splitting into words adds exactly one character per upper-case letter. */
  lemma {:induction false} WordsLength(s: string)
    ensures |Words(s)| == |s| + UpperCount(s)
  {
    if |s| > 0 {
      WordsLength(s[..|s| - 1]);
    }
  }

  /** A token kind's name spelled out: `EndOfFile` becomes `end of file` (the leading space dropped). */
  function SpellOut(stem: string): (r: string)
    ensures forall i :: 0 <= i < |r| ==> !IsUpper(r[i])
  {
    var w := Words(stem);
    if |w| == 0 then "" else w[1..]
  }

  /**
   * `DiagnosticText`: a kind with a fixed text is quoted (as a token when
   * asked to and it is one); otherwise statements, expressions and keywords
   * are named by category, other tokens are spelled out from their name,
   * and anything else is its lower-cased name.
   */
  function DiagnosticText(k: SyntaxKind, sayToken: bool): (r: string)
    ensures GetText(k).Some? ==> EndsWith(r, "'" + GetText(k).value + "'")
    ensures GetText(k).Some? ==> (StartsWith(r, "token ") <==> IsToken(k) && sayToken)
    ensures GetText(k).None? && Suffix(k) == StatementSuffix ==> r == "statement"
    ensures GetText(k).None? && Suffix(k) == ExpressionSuffix ==> r == "expression"
  {
    match GetText(k)
    case Some(t) =>
      var quoted := "'" + t + "'";
      assert ("token " + quoted)[|"token " + quoted| - |quoted|..] == quoted;
      assert !StartsWith(quoted, "token ") by {
        if |quoted| >= 6 {
          assert quoted[..6][0] == '\'' != "token "[0];
        }
      }
      if IsToken(k) && sayToken then "token " + quoted else quoted
    case None =>
      if Suffix(k) == StatementSuffix then "statement"
      else if Suffix(k) == ExpressionSuffix then "expression"
      else if IsKeywordKind(k) then "keyword"
      else if IsToken(k) then SpellOut(Stem(k))
      else ToLower(Name(k))
  }

  /** `UnexpectedToken`: three forms, by whether a kind was expected and whether the input had ended. */
  function UnexpectedToken(unexpected: SyntaxKind, expected: Option<SyntaxKind>): (r: string)
    ensures expected.None? ==> r == "unexpected " + DiagnosticText(unexpected, true)
    ensures expected.Some? && unexpected != EndOfFileToken ==>
      r == "unexpected " + DiagnosticText(unexpected, true) + ", expected " + DiagnosticText(expected.value, false)
    ensures expected.Some? && unexpected == EndOfFileToken ==>
      r == "expected " + DiagnosticText(expected.value, false) + " at end of input"
  {
    if expected.None? then "unexpected " + DiagnosticText(unexpected, true)
    else if unexpected != EndOfFileToken then
      "unexpected " + DiagnosticText(unexpected, true) + ", expected " + DiagnosticText(expected.value, false)
    else "expected " + DiagnosticText(expected.value, false) + " at end of input"
  }

  /** Only the end of input drops the "unexpected" opening, and only then does the message end "at end of input". */
  lemma UnexpectedTokenForms(unexpected: SyntaxKind, expected: Option<SyntaxKind>)
    ensures StartsWith(UnexpectedToken(unexpected, expected), "unexpected ") <==> expected.None? || unexpected != EndOfFileToken
    ensures expected.Some? && unexpected == EndOfFileToken ==> EndsWith(UnexpectedToken(unexpected, expected), " at end of input")
  {
    var r := UnexpectedToken(unexpected, expected);
    if expected.Some? && unexpected == EndOfFileToken {
      assert r[0] == 'e';
      assert "unexpected "[0] == 'u';
      var tail := " at end of input";
      assert r[|r| - |tail|..] == tail;
    } else {
      assert r[..|"unexpected "|] == "unexpected ";
    }
  }

  /** `CannotConvert`: prefixed with the argument's position when it is a positive one. */
  function CannotConvert(from: string, to: string, argument: int): (r: string)
    ensures EndsWith(r, "cannot convert from type '" + from + "' to '" + to + "'")
    ensures StartsWith(r, "argument ") <==> argument > 0
  {
    var message := "cannot convert from type '" + from + "' to '" + to + "'";
    assert message[0] == 'c';
    if argument > 0 then
      var r := "argument " + IntToString(argument) + ": " + message;
      assert r[..|"argument "|] == "argument ";
      assert r[|r| - |message|..] == message;
      r
    else
      assert message[..|message|] == message;
      message
  }

  /** `ConstantAssignment`: the generic message without a name; otherwise it names the constant and says what kind it is. */
  function ConstantAssignment(name: Option<string>, isConstantReference: bool): (r: string)
    ensures name.None? ==> r == "cannot assign to a constant"
    ensures name.Some? ==> StartsWith(r, Quote(name.value))
    ensures name.Some? ==> EndsWith(r, "as it is a " + ConstantWord(isConstantReference))
  {
    match name
    case None => "cannot assign to a constant"
    case Some(n) =>
      var constantPhrase := if isConstantReference then "with a reference " else "";
      var head := Quote(n);
      var tail := "as it is a " + ConstantWord(isConstantReference);
      var middle := " cannot be assigned to " + constantPhrase;
      ConcatEnds(head, middle, tail);
      head + middle + tail
  }

  function ConstantWord(isConstantReference: bool): string
  {
    if isConstantReference then "constant reference" else "constant"
  }

  /** A three-part text starts with its first part and ends with its last. */
  lemma ConcatEnds(a: string, b: string, c: string)
    ensures StartsWith(a + b + c, a) && EndsWith(a + b + c, c)
  {
    assert (a + b + c)[..|a|] == a;
    assert (a + b + c)[|a + b + c| - |c|..] == c;
  }

  /** The pieces of an `IncorrectArgumentCount` message. */
  datatype CountWording = CountWording(methodWord: string, expectWord: string, number: int, noun: string)

  function CountMessage(name: string, w: CountWording, actual: int): string
  {
    w.methodWord + " '" + name + "' " + w.expectWord + " " + IntToString(w.number) + " " + w.noun + ", got " + IntToString(actual)
  }

  /** A count message starts with the method word and a quote, and ends with the count given. */
  lemma CountMessageEnds(name: string, w: CountWording, actual: int)
    ensures StartsWith(CountMessage(name, w, actual), w.methodWord + " '")
    ensures EndsWith(CountMessage(name, w, actual), ", got " + IntToString(actual))
  {
    var head := w.methodWord + " '";
    var tail := ", got " + IntToString(actual);
    var middle := name + "' " + w.expectWord + " " + IntToString(w.number) + " " + w.noun;
    assert CountMessage(name, w, actual) == head + middle + tail;
    ConcatEnds(head, middle, tail);
  }

  /**
   * The wording as written: "expects" when nothing has a default, else
   * "expects at least" the required count when too few were given and
   * "expects at most" the full count otherwise; the noun is singular when
   * `expected` is 1.
   */
  function CountWordingAsWritten(expected: int, defaultExpected: int, actual: int, isTemplate: bool): (r: CountWording)
    ensures r.number == (if actual < expected - defaultExpected then expected - defaultExpected else expected)
    ensures r.expectWord == "expects" <==> defaultExpected == 0
    ensures r.noun == "argument" || r.noun == "template argument" <==> expected == 1
  {
    var argWord := if expected == 1 then "argument" else "arguments";
    var noun := if isTemplate then "template " + argWord else argWord;
    var expectWord := if defaultExpected == 0 then "expects"
      else if actual < expected - defaultExpected then "expects at least" else "expects at most";
    var number := if actual < expected - defaultExpected then expected - defaultExpected else expected;
    CountWording(if isTemplate then "template" else "method", expectWord, number, noun)
  }

  /** `IncorrectArgumentCount` as written. */
  function IncorrectArgumentCountAsWritten(name: string, expected: int, defaultExpected: int, actual: int, isTemplate: bool): (r: string)
    ensures r == CountMessage(name, CountWordingAsWritten(expected, defaultExpected, actual, isTemplate), actual)
    ensures StartsWith(r, if isTemplate then "template '" else "method '")
  {
    var w := CountWordingAsWritten(expected, defaultExpected, actual, isTemplate);
    var head := w.methodWord + " '";
    var r := CountMessage(name, w, actual);
    assert r[..|head|] == head;
    r
  }

  /**
   * The noun follows `expected`, not the number printed: a method with
   * three parameters, two of them defaulted, called with none, "expects at
   * least 1 arguments".
   */
  lemma PluralMismatch()
    ensures CountWordingAsWritten(3, 2, 0, false) == CountWording("method", "expects at least", 1, "arguments")
  {
  }

  /** The wording with the noun agreeing with the number printed. */
  function CountWordingFor(expected: int, defaultExpected: int, actual: int, isTemplate: bool): (r: CountWording)
    ensures r.number == (if actual < expected - defaultExpected then expected - defaultExpected else expected)
    ensures r.expectWord == "expects" <==> defaultExpected == 0
    ensures r.noun == "argument" || r.noun == "template argument" <==> r.number == 1
    ensures r.methodWord == (if isTemplate then "template" else "method")
  {
    var w := CountWordingAsWritten(expected, defaultExpected, actual, isTemplate);
    var argWord := if w.number == 1 then "argument" else "arguments";
    w.(noun := if isTemplate then "template " + argWord else argWord)
  }

  /** `IncorrectArgumentCount` with the number and noun in agreement. */
  function IncorrectArgumentCount(name: string, expected: int, defaultExpected: int, actual: int, isTemplate: bool): (r: string)
    ensures r == CountMessage(name, CountWordingFor(expected, defaultExpected, actual, isTemplate), actual)
    ensures StartsWith(r, if isTemplate then "template '" else "method '")
    ensures EndsWith(r, ", got " + IntToString(actual))
  {
    var w := CountWordingFor(expected, defaultExpected, actual, isTemplate);
    CountMessageEnds(name, w, actual);
    CountMessage(name, w, actual)
  }

  /** The two wordings differ only where the printed number is not `expected` and exactly one of them is 1. */
  lemma CountWordingsAgree(expected: int, defaultExpected: int, actual: int, isTemplate: bool)
    ensures var w := CountWordingFor(expected, defaultExpected, actual, isTemplate);
      w == CountWordingAsWritten(expected, defaultExpected, actual, isTemplate) <==> ((w.number == 1) == (expected == 1))
  {
  }

  /** The separator before the `i`th of `n` signatures: ", and " before the last of three or more, " and " before the last otherwise, ", " between others. */
  function Separator(i: nat, n: nat): (r: string)
    ensures i == 0 && n > 1 ==> r == ""
  {
    if i == n - 1 && i > 1 then ", and "
    else if i == n - 1 then " and "
    else if i > 0 then ", "
    else ""
  }

  /** The first `k` of the quoted signatures with their separators. */
  function SignatureList(signatures: seq<string>, k: nat): string
    requires k <= |signatures|
  {
    if k == 0 then "" else SignatureList(signatures, k - 1) + Separator(k - 1, |signatures|) + Quote(signatures[k - 1])
  }

  function Quote(s: string): string
  {
    "'" + s + "'"
  }

  function Quoted(signatures: seq<string>): (r: seq<string>)
    ensures |r| == |signatures| && forall i :: 0 <= i < |r| ==> r[i] == Quote(signatures[i])
  {
    seq(|signatures|, i requires 0 <= i < |signatures| => Quote(signatures[i]))
  }

  /** Before the last signature the list is the quoted signatures joined by ", ". */
  lemma {:induction false} SignatureListPrefix(signatures: seq<string>, k: nat)
    requires 0 < k < |signatures|
    ensures SignatureList(signatures, k) == Join(Quoted(signatures)[..k], ", ")
  {
    if k > 1 {
      SignatureListPrefix(signatures, k - 1);
      assert Quoted(signatures)[..k][..k - 1] == Quoted(signatures)[..k - 1];
    } else {
      assert SignatureList(signatures, 0) == "";
    }
  }

  /**
   * The list in the ambiguity message: two signatures read "'a' and 'b'",
   * three or more "'a', 'b', and 'c'" (with a serial comma).
   */
  lemma SignatureListShape(signatures: seq<string>)
    requires |signatures| >= 2
    ensures var n := |signatures|;
      SignatureList(signatures, n) ==
        Join(Quoted(signatures)[..n - 1], ", ") + (if n == 2 then " and " else ", and ") + Quoted(signatures)[n - 1]
  {
    var n := |signatures|;
    SignatureListPrefix(signatures, n - 1);
  }

  /** `AmbiguousMethodOverload`: the loop that builds the message from the candidates' signatures. */
  method AmbiguousMethodOverload(signatures: seq<string>) returns (message: string)
    ensures message == "call is ambiguous between " + SignatureList(signatures, |signatures|)
  {
    message := "call is ambiguous between ";
    var i := 0;
    while i < |signatures|
      invariant 0 <= i <= |signatures|
      invariant message == "call is ambiguous between " + SignatureList(signatures, i)
    {
      if i == |signatures| - 1 && i > 1 {
        message := message + ", and ";
      } else if i == |signatures| - 1 {
        message := message + " and ";
      } else if i > 0 {
        message := message + ", ";
      }
      message := message + Quote(signatures[i]);
      i := i + 1;
    }
  }
}
