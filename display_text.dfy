/**
 * Classified display text (Display/DisplayText.cs): a growing list of segments, an
 * indentation level, and a flag saying whether the next write starts a line. Indentation
 * segments are inserted once at the start of every line. `FormatLiteral` renders a constant
 * the way it is written in source.
 */
module DisplayText {
  import opened Wrappers
  import opened Strings
  import opened BoundTypes

  /** How a segment is classified; only line breaks change how the writer behaves. */
  datatype Classification = Keyword | Identifier | Number | StringText | Punctuation | Space | Line | Indent

  datatype Segment = Segment(text: string, classification: Classification)

  /** `CreateIndent()`: one level of indentation. */
  const IndentSegment := Segment("\t", Indent)

  /** `CreateLine()`: a line break. */
  const LineSegment := Segment("\n", Line)

  /** `n` indentation segments; none for a level that is zero or negative. */
  function Indents(n: int): (r: seq<Segment>)
    ensures |r| == if n > 0 then n else 0
    ensures forall i :: 0 <= i < |r| ==> r[i] == IndentSegment
    decreases n
  {
    if n <= 0 then [] else Indents(n - 1) + [IndentSegment]
  }

  /** The raw text of a list of segments, classifications dropped. */
  function Text(segments: seq<Segment>): string
  {
    if segments == [] then "" else Text(segments[..|segments| - 1]) + segments[|segments| - 1].text
  }

  /** The text of two lists written one after the other is the two texts joined. */
  lemma {:induction false} TextAppend(a: seq<Segment>, b: seq<Segment>)
    ensures Text(a + b) == Text(a) + Text(b)
    decreases |b|
  {
    if b == [] {
      assert a + b == a;
    } else {
      var front := b[..|b| - 1];
      assert (a + b)[..|a + b| - 1] == a + front;
      TextAppend(a, front);
    }
  }

  class Display {
    var segments: seq<Segment>
    /** Whether the next write starts a line and so is preceded by the indentation. */
    var writeIndent: bool
    var indent: int

    constructor ()
      ensures segments == [] && writeIndent && indent == 0
    {
      segments := [];
      writeIndent := true;
      indent := 0;
    }

    /** `ToString`: the segments' texts in order. */
    method ToString() returns (r: string)
      ensures r == Text(segments)
    {
      r := "";
      var i := 0;
      while i < |segments|
        invariant 0 <= i <= |segments|
        invariant r == Text(segments[..i])
      {
        assert segments[..i + 1][..i] == segments[..i];
        r := r + segments[i].text;
        i := i + 1;
      }
      assert segments[..i] == segments;
    }

    /** `Flush`: hands back every segment and empties the text; the rest of the state stays. */
    method Flush() returns (r: seq<Segment>)
      modifies this
      ensures r == old(segments) && segments == []
      ensures writeIndent == old(writeIndent) && indent == old(indent)
    {
      r := segments;
      segments := [];
    }

    /**
     * `Write`: at the start of a line the current indentation goes first; a line break
     * makes the next write start a line again.
     */
    method Write(segment: Segment)
      modifies this
      ensures segments == old(segments) + (if old(writeIndent) then Indents(indent) else []) + [segment]
      ensures writeIndent == (segment.classification == Line)
      ensures indent == old(indent)
    {
      if writeIndent {
        writeIndent := false;
        var i := 0;
        while i < indent
          invariant 0 <= i <= (if indent > 0 then indent else 0)
          invariant indent == old(indent) && !writeIndent
          invariant segments == old(segments) + Indents(i)
        {
          segments := segments + [IndentSegment];
          i := i + 1;
        }
        assert Indents(i) == Indents(indent);
      }
      segments := segments + [segment];
      if segment.classification == Line {
        writeIndent := true;
      }
    }
  }

  /**
   * A line written piece by piece gets the indentation once, before its first piece:
   * writing a line break after a run of segments without one gives the indentation, the
   * run and the break, and leaves the writer at the start of a line.
   */
  method WriteLine(display: Display, pieces: seq<Segment>)
    requires display.writeIndent
    requires forall i :: 0 <= i < |pieces| ==> pieces[i].classification != Line
    modifies display
    ensures display.segments == old(display.segments) + Indents(display.indent) + pieces + [LineSegment]
    ensures display.writeIndent && display.indent == old(display.indent)
  {
    var i := 0;
    while i < |pieces|
      invariant 0 <= i <= |pieces|
      invariant display.indent == old(display.indent)
      invariant display.writeIndent == (i == 0)
      invariant display.segments == old(display.segments) + (if i == 0 then [] else Indents(display.indent)) + pieces[..i]
    {
      display.Write(pieces[i]);
      if i == 0 {
        assert display.segments == old(display.segments) + Indents(display.indent) + pieces[..1];
      } else {
        assert pieces[..i + 1] == pieces[..i] + [pieces[i]];
      }
      i := i + 1;
    }
    assert pieces[..i] == pieces;
    display.Write(LineSegment);
    if i == 0 {
      assert display.segments == old(display.segments) + Indents(display.indent) + pieces + [LineSegment];
    }
  }

  /**
   * `DisplayLabelStatement`: a label sits one level further out than the code around it,
   * when there is a level to take away, and the level is restored afterwards.
   */
  method DisplayLabel(display: Display, name: string)
    requires display.writeIndent
    modifies display
    ensures display.indent == old(display.indent) && display.writeIndent
    ensures var level := if old(display.indent) > 0 then old(display.indent) - 1 else old(display.indent);
      display.segments == old(display.segments) + Indents(level)
        + [Segment(name, Punctuation), Segment(":", Punctuation), LineSegment]
  {
    var unindent := display.indent > 0;
    if unindent {
      display.indent := display.indent - 1;
    }
    WriteLine(display, [Segment(name, Punctuation), Segment(":", Punctuation)]);
    if unindent {
      display.indent := display.indent + 1;
    }
  }

  // ---------------------------------------------------------------------------------------
  // Literals

  /** The escape written for one character of a string literal. */
  function EscapeChar(c: char): (r: string)
    ensures |r| >= 1
    ensures |r| == 1 <==> r == [c]
  {
    if c == 7 as char then "\\a"
    else if c == 8 as char then "\\b"
    else if c == 12 as char then "\\f"
    else if c == '\n' then "\\n"
    else if c == '\r' then "\\r"
    else if c == '\t' then "\\t"
    else if c == 11 as char then "\\v"
    else if c == '"' then "\\\""
    else if c == '\\' then "\\\\"
    else [c]
  }

  /** Whether a character must be escaped inside a string literal. */
  predicate NeedsEscape(c: char)
  {
    c == 7 as char || c == 8 as char || c == 12 as char || c == '\n' || c == '\r' || c == '\t'
    || c == 11 as char || c == '"' || c == '\\'
  }

  /** The body of a string literal: every character in its escaped form. */
  function Escaped(s: string): (r: string)
    ensures |r| >= |s|
    ensures forall i :: 0 <= i < |r| ==> r[i] != '\n' && r[i] != '\r'
  {
    if s == [] then "" else Escaped(s[..|s| - 1]) + EscapeChar(s[|s| - 1])
  }

  /** The character an escape letter stands for. */
  function EscapeLetter(c: char): Option<char>
  {
    match c
    case 'a' => Some(7 as char)
    case 'b' => Some(8 as char)
    case 'f' => Some(12 as char)
    case 'n' => Some('\n')
    case 'r' => Some('\r')
    case 't' => Some('\t')
    case 'v' => Some(11 as char)
    case '"' => Some('"')
    case '\\' => Some('\\')
    case _ => None
  }

  /** Reads the body of a string literal back; None for a dangling or unknown escape or a bare quote. */
  function Unescape(s: string): Option<string>
  {
    if s == [] then Some("")
    else if s[0] == '\\' then
      if |s| < 2 || EscapeLetter(s[1]).None? then None
      else match Unescape(s[2..])
        case None => None
        case Some(rest) => Some([EscapeLetter(s[1]).value] + rest)
    else if s[0] == '"' then None
    else match Unescape(s[1..])
      case None => None
      case Some(rest) => Some([s[0]] + rest)
  }

  /** Escaping is defined character by character, front to back. */
  lemma {:induction false} EscapedCons(c: char, s: string)
    ensures Escaped([c] + s) == EscapeChar(c) + Escaped(s)
    decreases |s|
  {
    if s == [] {
      assert [c] + s == [c];
      assert Escaped([c]) == Escaped([]) + EscapeChar(c);
    } else {
      var t := [c] + s;
      assert t[..|t| - 1] == [c] + s[..|s| - 1];
      EscapedCons(c, s[..|s| - 1]);
    }
  }

  /** Reading back one escaped character. */
  lemma UnescapeChar(c: char, rest: string)
    ensures Unescape(EscapeChar(c) + rest) ==
      match Unescape(rest) case None => None case Some(r) => Some([c] + r)
  {
    var e := EscapeChar(c);
    if |e| == 2 {
      assert (e + rest)[0] == '\\' && (e + rest)[1] == e[1];
      assert (e + rest)[2..] == rest;
    } else {
      assert e + rest == [c] + rest;
      assert ([c] + rest)[1..] == rest;
    }
  }

  /** A string literal's body reads back as the string it was made from. */
  lemma {:induction false} UnescapeEscaped(s: string)
    ensures Unescape(Escaped(s)) == Some(s)
    decreases |s|
  {
    if s != [] {
      EscapedCons(s[0], s[1..]);
      assert [s[0]] + s[1..] == s;
      UnescapeChar(s[0], Escaped(s[1..]));
      UnescapeEscaped(s[1..]);
    }
  }

  /** A string constant in quotes, escaped. */
  function Quoted(s: string): string
  {
    "\"" + Escaped(s) + "\""
  }

  /** `FormatStringLiteral`: the escaping loop, one character at a time. */
  method FormatStringLiteral(s: string) returns (r: string)
    ensures r == Quoted(s)
  {
    r := "\"";
    var i := 0;
    while i < |s|
      invariant 0 <= i <= |s|
      invariant r == "\"" + Escaped(s[..i])
    {
      assert s[..i + 1][..i] == s[..i];
      r := r + EscapeChar(s[i]);
      i := i + 1;
    }
    assert s[..i] == s;
    r := r + "\"";
  }

  /**
   * `FormatLiteral`: `null` for no value, a quoted escaped text for a string, and otherwise
   * the value's own text in lower case. A value whose type cannot be assumed throws.
   */
  function FormatLiteral(v: LiteralValue): (r: Result<string>)
    ensures v.NullValue? ==> r == Ok("null")
    ensures v.StringValue? ==>
      (r.Ok? && |r.value| >= 2 && r.value[0] == '"' && r.value[|r.value| - 1] == '"'
       && Unescape(r.value[1..|r.value| - 1]) == Some(v.s))
    ensures v.CharValue? ==> r.Ok? && |r.value| == 1 && !IsUpper(r.value[0])
    ensures v.OtherValue? ==> r.Fail?
  {
    match v
    case NullValue => Ok("null")
    case StringValue(s) =>
      var q := Quoted(s);
      assert q[1..|q| - 1] == Escaped(s);
      UnescapeEscaped(s);
      Ok(q)
    case BoolValue(b) => Ok(if b then "true" else "false")
    case IntValue(i) => Ok(IntToString(i))
    case CharValue(c) => Ok([ToLowerChar(c)])
    case DoubleValue => Fail("FormatLiteral: the text of a floating-point value is not modelled")
    case OtherValue(name) => Fail("Assume: unexpected literal of type '" + name + "'")
  }

  /** The text of an integer has no upper-case letters, so lowering it changes nothing. */
  lemma IntTextIsLowerCase(i: int)
    ensures ToLower(IntToString(i)) == IntToString(i)
  {
    var t := IntToString(i);
    if i < 0 {
      assert t == "-" + NatToString(-i);
      assert forall k :: 1 <= k < |t| ==> t[k] == NatToString(-i)[k - 1];
    }
    assert forall k :: 0 <= k < |t| ==> !IsUpper(t[k]);
    assert ToLower(t) == t;
  }
}
