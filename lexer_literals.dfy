/**
 * Properties of numeric, string and character literals, proved about the
 * scanning functions of `LexerSpec`, and the two places where the numeric
 * loop as written differs from the corrected one.
 */
module LexerLiterals {
  import opened Wrappers
  import opened Strings
  import opened SyntaxFacts
  import opened LexerSpec

  // ---------------------------------------------------------------------------
  // Numeric literals

  /**
   * A numeric literal is always a `NumericLiteralToken`. An integer literal
   * that does not parse keeps the token, has no value and carries exactly one
   * `InvalidType` diagnostic spanning the literal; any other literal carries none.
   */
  lemma NumberDiagnostics(text: string, start: nat)
    requires start < |text| && IsAsciiDigit(text[start])
    ensures ScanNumber(text, start).kind == NumericLiteralToken
    ensures var r := ScanNumber(text, start);
      r.value.NoValue? ==>
        r.diagnostics == [SyntaxDiagnostic(InvalidType(text[start..r.end], "int"), 0, r.end - start)]
    ensures var r := ScanNumber(text, start);
      !r.value.NoValue? ==> r.diagnostics == []
  {
    var st := NumberStart(text, start);
    var run := ScanDigits(text, if st.isBinary || st.isHex then start + 2 else start, st);
    var lit := text[start..run.end];
    assert ScanNumber(text, start) ==
      TokenScan(NumericLiteralToken, run.end, NumberValue(lit, run.state).0, NumberValue(lit, run.state).1);
  }

  /** Underscores are dropped before the digits are read: `1_000` is one thousand. */
  lemma UnderscoresIgnored()
    ensures ScanNumber("1_000", 0) == TokenScan(NumericLiteralToken, 5, IntValue(1000), [])
  {
    var lit := "1_000";
    assert NumberStart(lit, 0) == NumberState(false, false, false, false, None);
    UnderscoreRun();
    assert lit[0..5] == lit;
    UnderscoreValue();
  }

  lemma UnderscoreRun()
    ensures ScanDigits("1_000", 0, NumberState(false, false, false, false, None)) ==
      NumberRun(5, NumberState(false, false, false, false, Some('0')))
  {
    var lit := "1_000";
    var st := NumberState(false, false, false, false, None);
    var last := st.(previous := Some('0'));
    assert ScanDigits(lit, 5, last) == NumberRun(5, last);
    assert ScanDigits(lit, 4, last) == NumberRun(5, last);
    assert ScanDigits(lit, 3, last) == NumberRun(5, last);
    assert ScanDigits(lit, 2, st.(previous := Some('_'))) == NumberRun(5, last);
    assert ScanDigits(lit, 1, st.(previous := Some('1'))) == NumberRun(5, last);
    assert ScanDigits(lit, 0, st) == NumberRun(5, last);
  }

  lemma UnderscoreValue()
    ensures NumberValue("1_000", NumberState(false, false, false, false, Some('0'))) == (IntValue(1000), [])
  {
    assert RemoveUnderscores("000") == "000";
    assert RemoveUnderscores("_000") == "000";
    assert RemoveUnderscores("1_000") == "1000";
    ThousandDigits();
    assert forall i :: 0 <= i < 4 ==> IsAsciiDigit("1000"[i]);
    assert Int32TryParse("1000") == Some(1000);
  }

  lemma ThousandDigits()
    ensures DigitsValue("1000", 10) == 1000
  {
    assert DigitsValue("1000", 10) == 1000 by {
      var s := "";
      var v := 0;
      DigitsSnoc(s, '1', 10); s := s + ['1']; v := v * 10 + 1; assert DigitsValue(s, 10) == v;
      DigitsSnoc(s, '0', 10); s := s + ['0']; v := v * 10 + 0; assert DigitsValue(s, 10) == v;
      DigitsSnoc(s, '0', 10); s := s + ['0']; v := v * 10 + 0; assert DigitsValue(s, 10) == v;
      DigitsSnoc(s, '0', 10); s := s + ['0']; v := v * 10 + 0; assert DigitsValue(s, 10) == v;
      assert s == "1000";
    }
  }

  /** Appending a digit, for evaluating `DigitsValue` on a concrete digit string. */
  lemma DigitsSnoc(s: string, c: char, base: nat)
    ensures DigitsValue(s + [c], base) == DigitsValue(s, base) * base + DigitValue(c)
  {
    assert (s + [c])[..|s|] == s;
  }

  /** A hexadecimal literal is an unsigned 32-bit pattern: `0xFFFFFFFF` is -1. */
  lemma HexWrapsToNegative()
    ensures ScanNumber("0xFFFFFFFF", 0) == TokenScan(NumericLiteralToken, 10, IntValue(-1), [])
  {
    var lit := "0xFFFFFFFF";
    assert NumberStart(lit, 0) == NumberState(false, false, false, true, None);
    HexRun();
    assert lit[0..10] == lit;
    NoUnderscoresUnchanged(lit);
    assert lit[2..] == "FFFFFFFF";
    HexValue();
  }

  lemma HexValue()
    ensures ConvertToInt32("FFFFFFFF", 16) == Some(-1)
  {
    var s := "FFFFFFFF";
    assert forall i :: 0 <= i < |s| ==> s[i] == 'F';
    assert forall i :: 0 <= i < |s| ==> IsDigitOfBase(s[i], 16);
    HexDigits();
  }

  lemma HexRun()
    ensures ScanDigits("0xFFFFFFFF", 2, NumberState(false, false, false, true, None)) ==
      NumberRun(10, NumberState(false, false, false, true, Some('F')))
  {
    var lit := "0xFFFFFFFF";
    var st := NumberState(false, false, false, true, None);
    var last := st.(previous := Some('F'));
    assert ScanDigits(lit, 10, last) == NumberRun(10, last);
    assert ScanDigits(lit, 9, st.(previous := Some('F'))) == NumberRun(10, last);
    assert ScanDigits(lit, 8, st.(previous := Some('F'))) == NumberRun(10, last);
    assert ScanDigits(lit, 7, st.(previous := Some('F'))) == NumberRun(10, last);
    assert ScanDigits(lit, 6, st.(previous := Some('F'))) == NumberRun(10, last);
    assert ScanDigits(lit, 5, st.(previous := Some('F'))) == NumberRun(10, last);
    assert ScanDigits(lit, 4, st.(previous := Some('F'))) == NumberRun(10, last);
    assert ScanDigits(lit, 3, st.(previous := Some('F'))) == NumberRun(10, last);
    assert ScanDigits(lit, 2, st) == NumberRun(10, last);
  }

  lemma HexDigits()
    ensures DigitsValue("FFFFFFFF", 16) == 0xFFFF_FFFF
  {
    var s := "";
    var v := 0;
    DigitsSnoc(s, 'F', 16); s := s + ['F']; v := v * 16 + 15; assert DigitsValue(s, 16) == v;
    DigitsSnoc(s, 'F', 16); s := s + ['F']; v := v * 16 + 15; assert DigitsValue(s, 16) == v;
    DigitsSnoc(s, 'F', 16); s := s + ['F']; v := v * 16 + 15; assert DigitsValue(s, 16) == v;
    DigitsSnoc(s, 'F', 16); s := s + ['F']; v := v * 16 + 15; assert DigitsValue(s, 16) == v;
    DigitsSnoc(s, 'F', 16); s := s + ['F']; v := v * 16 + 15; assert DigitsValue(s, 16) == v;
    DigitsSnoc(s, 'F', 16); s := s + ['F']; v := v * 16 + 15; assert DigitsValue(s, 16) == v;
    DigitsSnoc(s, 'F', 16); s := s + ['F']; v := v * 16 + 15; assert DigitsValue(s, 16) == v;
    DigitsSnoc(s, 'F', 16); s := s + ['F']; v := v * 16 + 15; assert DigitsValue(s, 16) == v;
    assert s == "FFFFFFFF";
  }

  /** A decimal literal past `int.MaxValue` has no value and is reported as not an int. */
  lemma DecimalOverflowReported()
    ensures ScanNumber("2147483648", 0) ==
      TokenScan(NumericLiteralToken, 10, NoValue, [SyntaxDiagnostic(InvalidType("2147483648", "int"), 0, 10)])
  {
    var lit := "2147483648";
    assert NumberStart(lit, 0) == NumberState(false, false, false, false, None);
    OverflowRun();
    assert lit[0..10] == lit;
    OverflowValue();
  }

  lemma OverflowValue()
    ensures NumberValue("2147483648", NumberState(false, false, false, false, Some('8'))) ==
      (NoValue, [SyntaxDiagnostic(InvalidType("2147483648", "int"), 0, 10)])
  {
    var lit := "2147483648";
    NoUnderscoresUnchanged(lit);
    OverflowDigits();
    assert Int32TryParse(lit) == None;
  }

  lemma OverflowRun()
    ensures ScanDigits("2147483648", 0, NumberState(false, false, false, false, None)) ==
      NumberRun(10, NumberState(false, false, false, false, Some('8')))
  {
    var lit := "2147483648";
    var st := NumberState(false, false, false, false, None);
    var last := st.(previous := Some('8'));
    assert ScanDigits(lit, 10, last) == NumberRun(10, last);
    assert ScanDigits(lit, 9, st.(previous := Some('4'))) == NumberRun(10, last);
    assert ScanDigits(lit, 8, st.(previous := Some('6'))) == NumberRun(10, last);
    assert ScanDigits(lit, 7, st.(previous := Some('3'))) == NumberRun(10, last);
    assert ScanDigits(lit, 6, st.(previous := Some('8'))) == NumberRun(10, last);
    assert ScanDigits(lit, 5, st.(previous := Some('4'))) == NumberRun(10, last);
    assert ScanDigits(lit, 4, st.(previous := Some('7'))) == NumberRun(10, last);
    assert ScanDigits(lit, 3, st.(previous := Some('4'))) == NumberRun(10, last);
    assert ScanDigits(lit, 2, st.(previous := Some('1'))) == NumberRun(10, last);
    assert ScanDigits(lit, 1, st.(previous := Some('2'))) == NumberRun(10, last);
    assert ScanDigits(lit, 0, st) == NumberRun(10, last);
  }

  lemma OverflowDigits()
    ensures DigitsValue("2147483648", 10) == 2147483648
  {
    var s := "";
    var v := 0;
    DigitsSnoc(s, '2', 10); s := s + ['2']; v := v * 10 + 2; assert DigitsValue(s, 10) == v;
    DigitsSnoc(s, '1', 10); s := s + ['1']; v := v * 10 + 1; assert DigitsValue(s, 10) == v;
    DigitsSnoc(s, '4', 10); s := s + ['4']; v := v * 10 + 4; assert DigitsValue(s, 10) == v;
    DigitsSnoc(s, '7', 10); s := s + ['7']; v := v * 10 + 7; assert DigitsValue(s, 10) == v;
    DigitsSnoc(s, '4', 10); s := s + ['4']; v := v * 10 + 4; assert DigitsValue(s, 10) == v;
    DigitsSnoc(s, '8', 10); s := s + ['8']; v := v * 10 + 8; assert DigitsValue(s, 10) == v;
    DigitsSnoc(s, '3', 10); s := s + ['3']; v := v * 10 + 3; assert DigitsValue(s, 10) == v;
    DigitsSnoc(s, '6', 10); s := s + ['6']; v := v * 10 + 6; assert DigitsValue(s, 10) == v;
    DigitsSnoc(s, '4', 10); s := s + ['4']; v := v * 10 + 4; assert DigitsValue(s, 10) == v;
    DigitsSnoc(s, '8', 10); s := s + ['8']; v := v * 10 + 8; assert DigitsValue(s, 10) == v;
    assert s == "2147483648";
  }

  /** Text without underscores is left as it is. */
  lemma {:induction false} NoUnderscoresUnchanged(s: string)
    requires forall i :: 0 <= i < |s| ==> s[i] != '_'
    ensures RemoveUnderscores(s) == s
  {
    if s != [] {
      NoUnderscoresUnchanged(s[1..]);
    }
  }

  /** A state in which the last character read is an exponent letter only after an exponent was seen. */
  predicate ExponentConsistent(st: NumberState)
  {
    st.previous.Some? && ToLowerChar(st.previous.value) == 'e' ==> st.hasExponent
  }

  /** Once a character has been read, the loop as written never throws. */
  lemma {:induction false} ScanDigitsAsWrittenDefined(text: string, pos: nat, st: NumberState)
    requires pos <= |text| && st.previous.Some?
    ensures ScanDigitsAsWritten(text, pos, st).Ok?
    decreases |text| - pos
  {
    var c := Peek(text, pos);
    if c == '.' && !st.isBinary && !st.isHex && !st.hasDecimal && !st.hasExponent {
      ScanDigitsAsWrittenDefined(text, pos + 1, st.(hasDecimal := true, previous := Some(c)));
    } else if StartsExponent(text, pos, st) {
      ScanDigitsAsWrittenDefined(text, pos + 1, st.(hasExponent := true, previous := Some(c)));
    } else if c == '-' || c == '+' {
      if ToLowerChar(st.previous.value) == 'e' {
        ScanDigitsAsWrittenDefined(text, pos + 1, st.(previous := Some(c)));
      }
    } else if c == '_' && IsValidDigit(st, Peek(text, pos + 1)) {
      ScanDigitsAsWrittenDefined(text, pos + 1, st.(previous := Some(c)));
    } else if IsValidDigit(st, c) {
      ScanDigitsAsWrittenDefined(text, pos + 1, st.(previous := Some(c)));
    }
  }

  /**
   * Outside hexadecimal literals the loop as written and the corrected loop
   * read the same characters whenever the former does not throw: an `e` read
   * there always opened an exponent.
   */
  lemma {:induction false} ScanDigitsAgree(text: string, pos: nat, st: NumberState)
    requires pos <= |text| && !st.isHex && ExponentConsistent(st)
    requires ScanDigitsAsWritten(text, pos, st).Ok?
    ensures ScanDigitsAsWritten(text, pos, st) == Ok(ScanDigits(text, pos, st))
    decreases |text| - pos
  {
    var c := Peek(text, pos);
    if c == '.' && !st.isBinary && !st.isHex && !st.hasDecimal && !st.hasExponent {
      ScanDigitsAgree(text, pos + 1, st.(hasDecimal := true, previous := Some(c)));
    } else if StartsExponent(text, pos, st) {
      ScanDigitsAgree(text, pos + 1, st.(hasExponent := true, previous := Some(c)));
    } else if c == '-' || c == '+' {
      if ToLowerChar(st.previous.value) == 'e' {
        ScanDigitsAgree(text, pos + 1, st.(previous := Some(c)));
      }
    } else if c == '_' && st.previous.Some? && IsValidDigit(st, Peek(text, pos + 1)) {
      ScanDigitsAgree(text, pos + 1, st.(previous := Some(c)));
    } else if IsValidDigit(st, c) {
      ScanDigitsAgree(text, pos + 1, st.(previous := Some(c)));
    }
  }

  /** A decimal literal is read the same by both loops, and the loop as written does not throw on it. */
  lemma DecimalNumberAgrees(text: string, start: nat)
    requires start < |text| && IsAsciiDigit(text[start])
    requires !NumberStart(text, start).isBinary && !NumberStart(text, start).isHex
    ensures ScanNumberAsWritten(text, start) == Ok(ScanNumber(text, start))
  {
    var st := NumberStart(text, start);
    assert IsValidDigit(st, text[start]);
    ScanDigitsAsWrittenDefined(text, start + 1, st.(previous := Some(text[start])));
    ScanDigitsAgree(text, start, st);
  }

  /** A binary literal the loop as written reads without throwing is read the same by the corrected loop. */
  lemma BinaryNumberAgrees(text: string, start: nat)
    requires start < |text| && IsAsciiDigit(text[start]) && NumberStart(text, start).isBinary
    requires ScanNumberAsWritten(text, start).Ok?
    ensures ScanNumberAsWritten(text, start) == Ok(ScanNumber(text, start))
  {
    ScanDigitsAgree(text, start + 2, NumberStart(text, start));
  }

  /** As written: a sign right after the `0x` prefix asks for the value of an empty `char?`. */
  lemma HexSignThrows()
    ensures ScanNumberAsWritten("0x-1", 0).Fail?
  {
    assert NumberStart("0x-1", 0) == NumberState(false, false, false, true, None);
  }

  /** Corrected: the prefix alone is the literal, reported as not an int, and the sign starts the next token. */
  lemma HexSignEndsLiteral()
    ensures ScanNumber("0x-1", 0) ==
      TokenScan(NumericLiteralToken, 2, NoValue, [SyntaxDiagnostic(InvalidType("0x", "int"), 0, 2)])
  {
    var st := NumberState(false, false, false, true, None);
    assert NumberStart("0x-1", 0) == st;
    assert ScanDigits("0x-1", 2, st) == NumberRun(2, st);
    assert "0x-1"[0..2] == "0x";
  }

  /** As written: the hexadecimal digit `e` lets a sign into the literal, which then fails to parse. */
  lemma HexDigitESwallowsSign()
    ensures ScanNumberAsWritten("0x1e+1", 0) ==
      Ok(TokenScan(NumericLiteralToken, 6, NoValue, [SyntaxDiagnostic(InvalidType("0x1e+1", "int"), 0, 6)]))
  {
    var lit := "0x1e+1";
    var st := NumberState(false, false, false, true, None);
    assert NumberStart(lit, 0) == st;
    HexSignRun();
    assert lit[0..6] == lit;
    NoUnderscoresUnchanged(lit);
    assert lit[2..] == "1e+1";
    assert !IsDigitOfBase("1e+1"[2], 16);
    assert ConvertToInt32("1e+1", 16) == None;
  }

  lemma HexSignRun()
    ensures ScanDigitsAsWritten("0x1e+1", 2, NumberState(false, false, false, true, None)) ==
      Ok(NumberRun(6, NumberState(false, false, false, true, Some('1'))))
  {
    var lit := "0x1e+1";
    var st := NumberState(false, false, false, true, None);
    var last := st.(previous := Some('1'));
    assert ScanDigitsAsWritten(lit, 6, last) == Ok(NumberRun(6, last));
    assert ScanDigitsAsWritten(lit, 5, st.(previous := Some('+'))) == Ok(NumberRun(6, last));
    assert ScanDigitsAsWritten(lit, 4, st.(previous := Some('e'))) == Ok(NumberRun(6, last));
    assert ScanDigitsAsWritten(lit, 3, st.(previous := Some('1'))) == Ok(NumberRun(6, last));
    assert ScanDigitsAsWritten(lit, 2, st) == Ok(NumberRun(6, last));
  }

  /** Corrected: `0x1e` is thirty and the sign starts the next token. */
  lemma HexDigitEStopsAtSign()
    ensures ScanNumber("0x1e+1", 0) == TokenScan(NumericLiteralToken, 4, IntValue(30), [])
  {
    var lit := "0x1e+1";
    var st := NumberState(false, false, false, true, None);
    assert NumberStart(lit, 0) == st;
    assert ScanDigits(lit, 4, st.(previous := Some('e'))) == NumberRun(4, st.(previous := Some('e')));
    assert ScanDigits(lit, 2, st) == NumberRun(4, st.(previous := Some('e')));
    assert lit[0..4] == "0x1e";
    assert RemoveUnderscores("0x1e") == "0x1e";
    assert "0x1e"[2..] == "1e";
    assert DigitsValue("1e", 16) == 30 by {
      DigitsSnoc("", '1', 16);
      assert "" + ['1'] == "1";
      DigitsSnoc("1", 'e', 16);
      assert "1" + ['e'] == "1e";
    }
  }

  // ---------------------------------------------------------------------------
  // String and character literals

  /** The quote that closes a literal of this sort. */
  function Quote(isChar: bool): char
  {
    if isChar then '\'' else '"'
  }

  /** The literal read so far ends just after its closing quote. */
  predicate ClosedBy(text: string, pos: nat, r: StringScan, isChar: bool)
  {
    pos < r.end <= |text| && text[r.end - 1] == Quote(isChar)
  }

  /** The literal stops at a line break or the end of the text, reported as unterminated. */
  predicate ReportedUnterminated(text: string, r: StringScan)
  {
    EndsLine(Peek(text, r.end)) && |r.diagnostics| > 0 &&
    r.diagnostics[|r.diagnostics| - 1] == SyntaxDiagnostic(UnterminatedString, 0, 1)
  }

  /**
   * A literal body either ends just after its closing quote, or stops at a
   * line break or the end of the text with `UnterminatedString` as its last
   * diagnostic.
   */
  lemma {:induction false} StringBodyEnds(text: string, start: nat, pos: nat, isChar: bool,
                                          chars: string, diags: seq<SyntaxDiagnostic>)
    requires start < pos <= |text|
    ensures ClosedBy(text, pos, StringBody(text, start, pos, isChar, chars, diags), isChar) ||
            ReportedUnterminated(text, StringBody(text, start, pos, isChar, chars, diags))
    decreases |text| - pos
  {
    var c := Peek(text, pos);
    if c == '\0' || c == '\r' || c == '\n' {
    } else if c == '"' && !isChar {
      if Peek(text, pos + 1) == '"' {
        StringBodyEnds(text, start, pos + 2, isChar, chars + ['"'], diags);
      }
    } else if c == '\'' && isChar {
    } else if c == '\\' {
      var e := Peek(text, pos + 1);
      if EscapedChar(e).Some? {
        StringBodyEnds(text, start, pos + 2, isChar, chars + [EscapedChar(e).value], diags);
      } else if e == '\0' {
        StringBodyEnds(text, start, pos + 1, isChar, chars, diags);
      } else {
        StringBodyEnds(text, start, pos + 1, isChar, chars,
          diags + [SyntaxDiagnostic(UnrecognizedEscapeSequence(e), pos - start, 2)]);
      }
    } else {
      StringBodyEnds(text, start, pos + 1, isChar, chars + [c], diags);
    }
  }

  /** Reading a literal body only adds diagnostics after those already recorded. */
  lemma {:induction false} StringBodyKeepsDiagnostics(text: string, start: nat, pos: nat, isChar: bool,
                                                      chars: string, diags: seq<SyntaxDiagnostic>)
    requires start < pos <= |text|
    ensures diags <= StringBody(text, start, pos, isChar, chars, diags).diagnostics
    decreases |text| - pos
  {
    var c := Peek(text, pos);
    if c == '\0' || c == '\r' || c == '\n' {
    } else if c == '"' && !isChar {
      if Peek(text, pos + 1) == '"' {
        StringBodyKeepsDiagnostics(text, start, pos + 2, isChar, chars + ['"'], diags);
      }
    } else if c == '\'' && isChar {
    } else if c == '\\' {
      var e := Peek(text, pos + 1);
      if EscapedChar(e).Some? {
        StringBodyKeepsDiagnostics(text, start, pos + 2, isChar, chars + [EscapedChar(e).value], diags);
      } else if e == '\0' {
        StringBodyKeepsDiagnostics(text, start, pos + 1, isChar, chars, diags);
      } else {
        StringBodyKeepsDiagnostics(text, start, pos + 1, isChar, chars,
          diags + [SyntaxDiagnostic(UnrecognizedEscapeSequence(e), pos - start, 2)]);
      }
    } else {
      StringBodyKeepsDiagnostics(text, start, pos + 1, isChar, chars + [c], diags);
    }
  }

  /** A doubled quote inside a string stands for one quote: `"a""b"` is `a"b`. */
  lemma DoubledQuote()
    ensures ScanStringLiteral("\"a\"\"b\"", 0, false) == TokenScan(StringLiteralToken, 6, StringValue("a\"b"), [])
  {
    var t := "\"a\"\"b\"";
    assert StringBody(t, 0, 5, false, "a\"b", []) == StringScan(6, "a\"b", []);
    assert StringBody(t, 0, 4, false, "a\"", []) == StringScan(6, "a\"b", []);
    assert "a\"" + ['b'] == "a\"b";
    assert StringBody(t, 0, 4, false, "a\"", []) == StringScan(6, "a\"b", []);
    assert "a" + ['"'] == "a\"";
    assert StringBody(t, 0, 2, false, "a", []) == StringScan(6, "a\"b", []);
    assert "" + ['a'] == "a";
    assert StringBody(t, 0, 1, false, "", []) == StringScan(6, "a\"b", []);
  }

  /** A line break ends a string early and is reported at the opening quote. */
  lemma NewlineUnterminates()
    ensures ScanStringLiteral("\"ab\n", 0, false) ==
      TokenScan(StringLiteralToken, 3, StringValue("ab"), [SyntaxDiagnostic(UnterminatedString, 0, 1)])
  {
    var t := "\"ab\n";
    assert StringBody(t, 0, 3, false, "ab", []) == StringScan(3, "ab", [SyntaxDiagnostic(UnterminatedString, 0, 1)]);
    assert "a" + ['b'] == "ab";
    assert StringBody(t, 0, 2, false, "a", []) == StringScan(3, "ab", [SyntaxDiagnostic(UnterminatedString, 0, 1)]);
    assert "" + ['a'] == "a";
    assert StringBody(t, 0, 1, false, "", []) == StringScan(3, "ab", [SyntaxDiagnostic(UnterminatedString, 0, 1)]);
  }

  /** A known escape stands for its character: `"\n"` is a newline. */
  lemma KnownEscape()
    ensures ScanStringLiteral("\"\\n\"", 0, false) == TokenScan(StringLiteralToken, 4, StringValue("\n"), [])
  {
    var t := "\"\\n\"";
    assert StringBody(t, 0, 3, false, "\n", []) == StringScan(4, "\n", []);
    assert EscapedChar('n') == Some('\n');
    assert "" + ['\n'] == "\n";
    assert StringBody(t, 0, 1, false, "", []) == StringScan(4, "\n", []);
  }

  /**
   * An unknown escape is reported over the backslash and the character after
   * it; the backslash is dropped and the character is read as itself.
   */
  lemma UnknownEscape()
    ensures ScanStringLiteral("\"\\q\"", 0, false) ==
      TokenScan(StringLiteralToken, 4, StringValue("q"), [SyntaxDiagnostic(UnrecognizedEscapeSequence('q'), 1, 2)])
  {
    var t := "\"\\q\"";
    var d := [SyntaxDiagnostic(UnrecognizedEscapeSequence('q'), 1, 2)];
    assert StringBody(t, 0, 3, false, "q", d) == StringScan(4, "q", d);
    assert "" + ['q'] == "q";
    assert StringBody(t, 0, 2, false, "", d) == StringScan(4, "q", d);
    assert [] + d == d;
    assert StringBody(t, 0, 1, false, "", []) == StringScan(4, "q", d);
  }

  /** An empty character literal has no value and is reported over both quotes. */
  lemma EmptyCharacterLiteralReported()
    ensures ScanStringLiteral("''", 0, true) ==
      TokenScan(CharacterLiteralToken, 2, NoValue, [SyntaxDiagnostic(EmptyCharacterLiteral, 0, 2)])
  {
  }

  /** A character literal of several characters keeps the first and is reported over the whole literal. */
  lemma LongCharacterLiteralReported()
    ensures ScanStringLiteral("'ab'", 0, true) ==
      TokenScan(CharacterLiteralToken, 4, CharValue('a'), [SyntaxDiagnostic(CharacterLiteralTooLong, 0, 4)])
  {
    var t := "'ab'";
    assert StringBody(t, 0, 3, true, "ab", []) == StringScan(4, "ab", []);
    assert "a" + ['b'] == "ab";
    assert StringBody(t, 0, 2, true, "a", []) == StringScan(4, "ab", []);
    assert "" + ['a'] == "a";
    assert StringBody(t, 0, 1, true, "", []) == StringScan(4, "ab", []);
  }
}
