/**
 * The line editor of the Buckle REPL: a submission is a list of lines with a cursor, edited
 * in place by key handlers; earlier submissions can be recalled from a history; and a
 * meta-command line is split into its arguments.
 *
 * Rendering, colours and the key dispatch are not modelled; the console width, which limits
 * typing, is a constant of the editor.
 */
module ReplEditing {
  import opened Strings

  const TabWidth := 4

  /** Whether the text holds an opening bracket of any kind. */
  predicate ContainsOpening(s: string)
  {
    '{' in s || '(' in s || '[' in s
  }

  /** `string.IsNullOrWhiteSpace`. */
  predicate IsBlank(s: string)
  {
    forall k :: 0 <= k < |s| ==> IsWhiteSpace(s[k])
  }

  /** `string.Insert`: `t` placed before index `i` of `s`. */
  function InsertAt(s: string, i: nat, t: string): (r: string)
    requires i <= |s|
    ensures |r| == |s| + |t|
  {
    s[..i] + t + s[i..]
  }

  // ---------------------------------------------------------------------------------------
  // A document seen as one text

  /** The lines of a document run together, without line breaks. */
  function Flat(lines: seq<string>): (r: string)
  {
    if |lines| == 0 then "" else Flat(lines[..|lines| - 1]) + lines[|lines| - 1]
  }

  lemma {:induction false} FlatConcat(a: seq<string>, b: seq<string>)
    ensures Flat(a + b) == Flat(a) + Flat(b)
    decreases |b|
  {
    if |b| == 0 {
      assert a + b == a;
    } else {
      assert (a + b)[..|a + b| - 1] == a + b[..|b| - 1];
      FlatConcat(a, b[..|b| - 1]);
    }
  }

  lemma FlatSingle(x: string)
    ensures Flat([x]) == x
  {
    assert [x][..0] == [];
  }

  lemma FlatSnoc(lines: seq<string>, x: string)
    ensures Flat(lines + [x]) == Flat(lines) + x
  {
    assert (lines + [x])[..|lines|] == lines;
  }

  /** A document split around line `i`. */
  lemma {:induction false} FlatAround(lines: seq<string>, i: nat)
    requires i < |lines|
    ensures Flat(lines) == Flat(lines[..i]) + lines[i] + Flat(lines[i + 1..])
  {
    var upTo, back := lines[..i + 1], lines[i + 1..];
    assert Flat(lines) == Flat(upTo) + Flat(back) by {
      assert lines == upTo + back;
      FlatConcat(upTo, back);
    }
    assert Flat(upTo) == Flat(lines[..i]) + lines[i] by {
      assert upTo == lines[..i] + [lines[i]];
      FlatSnoc(lines[..i], lines[i]);
    }
  }

  /** Where a cursor at (line, column) sits in the flat text. */
  function Position(lines: seq<string>, line: nat, column: nat): nat
    requires line <= |lines|
  {
    |Flat(lines[..line])| + column
  }

  /** A cursor inside line `i` sits inside the flat text. */
  lemma PositionWithin(lines: seq<string>, i: nat, c: nat)
    requires i < |lines| && c <= |lines[i]|
    ensures Position(lines, i, c) <= |Flat(lines)|
    ensures c < |lines[i]| ==> Position(lines, i, c) < |Flat(lines)|
  {
    FlatAround(lines, i);
  }

  /**
   * Replacing `x` by nothing on line `i` (the line being `a + x + b`) removes exactly `x`
   * from the flat text at the cursor position `|a|`.
   */
  lemma {:induction false} EditKeepsRest(lines: seq<string>, i: nat, a: string, x: string, b: string)
    requires i < |lines| && lines[i] == a + x + b
    ensures var p := Position(lines, i, |a|);
      p + |x| <= |Flat(lines)|
      && Flat(lines[i := a + b]) == Flat(lines)[..p] + Flat(lines)[p + |x|..]
      && Position(lines[i := a + b], i, |a|) == p
  {
    var edited := lines[i := a + b];
    FlatAround(lines, i);
    FlatAround(edited, i);
    assert edited[..i] == lines[..i];
    assert edited[i + 1..] == lines[i + 1..];
  }

  /** Removing the `n` characters before column `c` removes them from the flat text, before the cursor. */
  lemma RemoveSpanKeepsRest(lines: seq<string>, i: nat, c: nat, n: nat)
    requires i < |lines| && n <= c <= |lines[i]|
    ensures var edited := lines[i := lines[i][..c - n] + lines[i][c..]];
      var p := Position(lines, i, c - n);
      p + n <= |Flat(lines)| && Position(edited, i, c - n) == p
      && Position(lines, i, c) == p + n
      && Flat(edited) == Flat(lines)[..p] + Flat(lines)[p + n..]
  {
    var line := lines[i];
    var before, removed, after := line[..c - n], line[c - n..c], line[c..];
    assert line == before + removed + after;
    EditKeepsRest(lines, i, before, removed, after);
    assert Position(lines, i, c) == Position(lines, i, |before|) + n;
  }

  /** Inserting `t` at column `c` of line `i` inserts it into the flat text at the cursor. */
  lemma {:induction false} InsertKeepsRest(lines: seq<string>, i: nat, c: nat, t: string)
    requires i < |lines| && c <= |lines[i]|
    ensures var p := Position(lines, i, c);
      p <= |Flat(lines)|
      && Flat(lines[i := InsertAt(lines[i], c, t)]) == Flat(lines)[..p] + t + Flat(lines)[p..]
  {
    var edited := lines[i := InsertAt(lines[i], c, t)];
    FlatAround(lines, i);
    FlatAround(edited, i);
    assert edited[..i] == lines[..i];
    assert edited[i + 1..] == lines[i + 1..];
    assert lines[i] == lines[i][..c] + lines[i][c..];
  }

  /** Line `i` joined onto the end of line `i - 1`. */
  function MergeWithPrevious(lines: seq<string>, i: nat): (r: seq<string>)
    requires 0 < i < |lines|
    ensures |r| == |lines| - 1
  {
    lines[..i - 1] + [lines[i - 1] + lines[i]] + lines[i + 1..]
  }

  /** Joining two lines changes neither the flat text nor the cursor's place in it. */
  lemma MergeKeepsText(lines: seq<string>, i: nat)
    requires 0 < i < |lines|
    ensures var merged := MergeWithPrevious(lines, i);
      Flat(merged) == Flat(lines)
      && Position(merged, i - 1, |lines[i - 1]|) == Position(lines, i, 0)
  {
    var merged := MergeWithPrevious(lines, i);
    FlatAround(lines, i);
    FlatAround(lines[..i], i - 1);
    assert lines[..i][..i - 1] == lines[..i - 1];
    assert lines[..i][i..] == [];
    assert Flat(lines[..i][i..]) == "";
    FlatAround(merged, i - 1);
    assert merged[..i - 1] == lines[..i - 1];
    assert merged[i..] == lines[i + 1..];
  }

  /** Line `i` broken at column `c`, the second half starting with `indent`. */
  function BreakLine(lines: seq<string>, i: nat, c: nat, indent: string): (r: seq<string>)
    requires i < |lines| && c <= |lines[i]|
    ensures |r| == |lines| + 1
  {
    lines[..i] + [lines[i][..c], indent + lines[i][c..]] + lines[i + 1..]
  }

  /** Breaking a line adds only the indentation to the flat text, at the cursor. */
  lemma BreakInsertsIndent(lines: seq<string>, i: nat, c: nat, indent: string)
    requires i < |lines| && c <= |lines[i]|
    ensures var p := Position(lines, i, c);
      var broken := BreakLine(lines, i, c, indent);
      p <= |Flat(lines)|
      && Flat(broken) == Flat(lines)[..p] + indent + Flat(lines)[p..]
      && Position(broken, i + 1, |indent|) == p + |indent|
  {
    BreakText(lines, i, c, indent);
    BreakCursor(lines, i, c, indent);
  }

  lemma BreakText(lines: seq<string>, i: nat, c: nat, indent: string)
    requires i < |lines| && c <= |lines[i]|
    ensures var p := Position(lines, i, c);
      p <= |Flat(lines)| && Flat(BreakLine(lines, i, c, indent)) == Flat(lines)[..p] + indent + Flat(lines)[p..]
  {
    var a, b := lines[i][..c], lines[i][c..];
    var pre, post := lines[..i], lines[i + 1..];
    var broken := BreakLine(lines, i, c, indent);
    var front, back := Flat(pre), Flat(post);
    assert Flat(broken) == (front + a) + ((indent + b) + back) by {
      assert broken == pre + [a] + ([indent + b] + post);
      FlatConcat(pre + [a], [indent + b] + post);
      FlatSnoc(pre, a);
      FlatConcat([indent + b], post);
      FlatSingle(indent + b);
    }
    assert Flat(lines) == front + lines[i] + back by {
      FlatAround(lines, i);
    }
    SliceMiddle(front, lines[i], back, c);
    Regroup(front + a, indent, b, back);
  }

  lemma BreakCursor(lines: seq<string>, i: nat, c: nat, indent: string)
    requires i < |lines| && c <= |lines[i]|
    ensures Position(BreakLine(lines, i, c, indent), i + 1, |indent|) == Position(lines, i, c) + |indent|
  {
    var broken := BreakLine(lines, i, c, indent);
    assert broken[..i + 1] == lines[..i] + [lines[i][..c]];
    FlatSnoc(lines[..i], lines[i][..c]);
  }

  /** Cutting `x + y + z` inside `y`. */
  lemma SliceMiddle(x: string, y: string, z: string, c: nat)
    requires c <= |y|
    ensures (x + y + z)[..|x| + c] == x + y[..c]
    ensures (x + y + z)[|x| + c..] == y[c..] + z
  {
  }

  lemma Regroup(f: string, indent: string, b: string, back: string)
    ensures f + ((indent + b) + back) == f + indent + (b + back)
  {
  }

  // ---------------------------------------------------------------------------------------
  // History recall

  /** The history index after PageDown: the next entry, wrapping to the first. */
  function NextIndex(index: int, count: nat): (r: int)
    ensures count > 0 && 0 <= index < count ==> 0 <= r < count && r == (index + 1) % count
  {
    if index + 1 > count - 1 then 0 else index + 1
  }

  /** The history index after PageUp: the previous entry, wrapping to the last. */
  function PreviousIndex(index: int, count: nat): (r: int)
    ensures count > 0 && 0 <= index < count ==> 0 <= r < count && r == (index - 1) % count
  {
    if index - 1 < 0 then count - 1 else index - 1
  }

  /** PageDown then PageUp returns to the same history entry. */
  lemma PageRoundTrip(index: int, count: nat)
    requires 0 <= index < count
    ensures PreviousIndex(NextIndex(index, count), count) == index
    ensures NextIndex(PreviousIndex(index, count), count) == index
  {
  }

  // ---------------------------------------------------------------------------------------
  // Meta-command arguments

  datatype SplitState = SplitState(args: seq<string>, current: string, inQuotes: bool)

  /** One pass of the splitter loop at `position`; a doubled quote inside quotes is consumed whole. */
  function SplitStep(line: string, position: nat, st: SplitState): (r: (nat, SplitState))
    requires 1 <= position < |line|
    ensures position < r.0 <= |line|
  {
    var c := line[position];
    var next := if position + 1 >= |line| then '\0' else line[position + 1];
    if IsWhiteSpace(c) then
      if !st.inQuotes then
        (position + 1, st.(args := if IsBlank(st.current) then st.args else st.args + [st.current], current := ""))
      else (position + 1, st.(current := st.current + [c]))
    else if c == '"' then
      if !st.inQuotes then (position + 1, st.(inQuotes := true))
      else if next == '"' then (position + 2, st.(current := st.current + [c]))
      else (position + 1, st.(inQuotes := false))
    else (position + 1, st.(current := st.current + [c]))
  }

  /** The splitter from `position` on; whatever is collected last is always kept. */
  function SplitFrom(line: string, position: nat, st: SplitState): seq<string>
    requires position >= 1
    decreases |line| - position
  {
    if position >= |line| then st.args + [st.current]
    else
      var step := SplitStep(line, position, st);
      SplitFrom(line, step.0, step.1)
  }

  /** The arguments of a meta-command line; the leading '#' is skipped. */
  function CommandArguments(line: string): seq<string>
  {
    SplitFrom(line, 1, SplitState([], "", false))
  }

  /** `EvaluateReplCommand`'s splitting loop. */
  method SplitCommand(line: string) returns (args: seq<string>)
    ensures args == CommandArguments(line)
    ensures |args| >= 1
  {
    var position := 1;
    var current := "";
    var inQuotes := false;
    args := [];
    while position < |line|
      invariant position >= 1
      invariant SplitFrom(line, position, SplitState(args, current, inQuotes)) == CommandArguments(line)
      decreases |line| - position
    {
      ghost var step := SplitStep(line, position, SplitState(args, current, inQuotes));
      var c := line[position];
      var next := if position + 1 >= |line| then '\0' else line[position + 1];
      if IsWhiteSpace(c) {
        if !inQuotes {
          if !IsBlank(current) {
            args := args + [current];
          }
          current := "";
        } else {
          current := current + [c];
        }
      } else if c == '"' {
        if !inQuotes {
          inQuotes := true;
        } else if next == '"' {
          current := current + [c];
          position := position + 1;
        } else {
          inQuotes := false;
        }
      } else {
        current := current + [c];
      }
      position := position + 1;
      assert (position, SplitState(args, current, inQuotes)) == step;
    }
    args := args + [current];
  }

  /** The text with every whitespace character removed. */
  function Squeeze(s: string): (r: string)
    ensures forall k :: 0 <= k < |r| ==> !IsWhiteSpace(r[k])
  {
    if |s| == 0 then ""
    else Squeeze(s[..|s| - 1]) + (if IsWhiteSpace(s[|s| - 1]) then "" else [s[|s| - 1]])
  }

  /** The arguments run together. */
  function Concat(args: seq<string>): string
  {
    if |args| == 0 then "" else Concat(args[..|args| - 1]) + args[|args| - 1]
  }

  predicate NoWhiteSpace(s: string)
  {
    forall k :: 0 <= k < |s| ==> !IsWhiteSpace(s[k])
  }

  /** What the splitter keeps while it reads a line without quotes. */
  predicate QuoteFreeInvariant(line: string, position: nat, st: SplitState)
    requires 1 <= position <= |line|
  {
    !st.inQuotes && NoWhiteSpace(st.current)
    && (forall k :: 0 <= k < |st.args| ==> NoWhiteSpace(st.args[k]) && st.args[k] != "")
    && Concat(st.args) + st.current == Squeeze(line[1..position])
  }

  lemma SqueezeStep(s: string, c: char)
    ensures Squeeze(s + [c]) == Squeeze(s) + (if IsWhiteSpace(c) then "" else [c])
  {
    assert (s + [c])[..|s + [c]| - 1] == s;
  }

  lemma QuoteFreeStep(line: string, position: nat, st: SplitState)
    requires 1 <= position < |line| && '"' !in line
    requires QuoteFreeInvariant(line, position, st)
    ensures SplitStep(line, position, st).0 == position + 1
    ensures QuoteFreeInvariant(line, position + 1, SplitStep(line, position, st).1)
  {
    var c := line[position];
    assert c != '"';
    assert line[1..position + 1] == line[1..position] + [c];
    SqueezeStep(line[1..position], c);
    var r := SplitStep(line, position, st).1;
    if IsWhiteSpace(c) {
      if st.current == "" {
        assert r == st;
      } else {
        assert !IsWhiteSpace(st.current[0]);
        assert r.args == st.args + [st.current];
        assert r.args[..|r.args| - 1] == st.args;
        assert Concat(r.args) == Concat(st.args) + st.current;
      }
    } else {
      assert r == st.(current := st.current + [c]);
    }
  }

  lemma {:induction false} QuoteFreeFrom(line: string, position: nat, st: SplitState)
    requires 1 <= position <= |line| && '"' !in line
    requires QuoteFreeInvariant(line, position, st)
    ensures var r := SplitFrom(line, position, st);
      Concat(r) == Squeeze(line[1..])
      && forall k :: 0 <= k < |r| ==> NoWhiteSpace(r[k])
    decreases |line| - position
  {
    if position == |line| {
      var r := st.args + [st.current];
      assert r[..|r| - 1] == st.args;
      assert Concat(r) == Concat(st.args) + st.current;
      assert line[1..position] == line[1..];
      assert forall k :: 0 <= k < |st.args| ==> r[k] == st.args[k];
    } else {
      QuoteFreeStep(line, position, st);
      QuoteFreeFrom(line, position + 1, SplitStep(line, position, st).1);
    }
  }

  /**
   * Without quotes the line is split at whitespace: no argument holds whitespace, and the
   * arguments run together are the line after '#' with its whitespace removed.
   */
  lemma QuoteFreeSplit(line: string)
    requires '"' !in line
    ensures var r := CommandArguments(line);
      Concat(r) == (if |line| <= 1 then "" else Squeeze(line[1..]))
      && forall k :: 0 <= k < |r| ==> NoWhiteSpace(r[k])
  {
    if |line| >= 1 {
      assert line[1..1] == "";
      QuoteFreeFrom(line, 1, SplitState([], "", false));
    }
  }

  /** Inside quotes a doubled quote stands for one quote character. */
  lemma DoubledQuote(line: string, position: nat, st: SplitState)
    requires 1 <= position && position + 1 < |line|
    requires st.inQuotes && line[position] == '"' && line[position + 1] == '"'
    ensures SplitFrom(line, position, st) == SplitFrom(line, position + 2, st.(current := st.current + ['"']))
  {
  }

  /** Whether a line ends with an opening bracket. */
  predicate OpensBlock(line: string)
  {
    |line| > 0 && ContainsOpening([line[|line| - 1]])
  }

  /**
   * The indentation typed at the start of a new line: the whole tab stops of the line above,
   * one more after an opening bracket; nothing when the rest of the line is already as wide
   * as the console.
   */
  function NewLineIndent(previous: string, remainder: string, windowWidth: int): (r: string)
    ensures |r| % TabWidth == 0
    ensures forall k :: 0 <= k < |r| ==> r[k] == ' '
    ensures |remainder| >= windowWidth - 3 ==> r == ""
    ensures |remainder| < windowWidth - 3 && OpensBlock(previous) ==> |r| >= TabWidth
  {
    var levels := (|previous| - |TrimStart(previous)|) / TabWidth + (if OpensBlock(previous) then 1 else 0);
    if |remainder| >= windowWidth - 3 then "" else Repeat(' ', levels * TabWidth)
  }

  // ---------------------------------------------------------------------------------------
  // The editor

  class Editor {
    var document: seq<string>
    var currentLine: int
    var currentCharacter: int
    var typingTabbing: int
    /** Open brackets waiting for their partner, with the typing indentation at the time. */
    var blockTabbing: seq<(char, int)>
    var history: seq<string>
    var historyIndex: int
    const windowWidth: int

    ghost predicate Valid()
      reads this
    {
      |document| > 0 && 0 <= currentLine < |document| && 0 <= currentCharacter <= |document[currentLine]|
      && (|history| > 0 ==> 0 <= historyIndex < |history|)
    }

    /** An empty submission with the history of earlier ones. */
    constructor (history: seq<string>, windowWidth: int)
      ensures Valid()
      ensures document == [""] && currentLine == 0 && currentCharacter == 0
      ensures this.history == history && historyIndex == 0 && this.windowWidth == windowWidth
      ensures typingTabbing == 0 && blockTabbing == []
    {
      document := [""];
      currentLine := 0;
      currentCharacter := 0;
      typingTabbing := 0;
      blockTabbing := [];
      this.history := history;
      historyIndex := 0;
      this.windowWidth := windowWidth;
    }

    /** The cursor's place in the submission run together. */
    ghost function Cursor(): (r: nat)
      reads this
      requires Valid()
      ensures r <= |Flat(document)|
      ensures currentCharacter < |document[currentLine]| ==> r < |Flat(document)|
    {
      PositionWithin(document, currentLine, currentCharacter);
      Position(document, currentLine, currentCharacter)
    }

    /** Tab: spaces up to the next multiple of `TabWidth`, the cursor after them. */
    method HandleTab()
      requires Valid()
      modifies this
      ensures Valid()
      ensures var spaces := TabWidth - old(currentCharacter) % TabWidth;
        1 <= spaces <= TabWidth
        && document == old(document)[old(currentLine) := InsertAt(old(document[currentLine]), old(currentCharacter), Repeat(' ', spaces))]
        && currentCharacter == old(currentCharacter) + spaces
      ensures currentCharacter % TabWidth == 0
      ensures Flat(document) == old(Flat(document)[..Cursor()] + Repeat(' ', TabWidth - currentCharacter % TabWidth) + Flat(document)[Cursor()..])
      ensures currentLine == old(currentLine) && typingTabbing == old(typingTabbing) + 1
      ensures blockTabbing == old(blockTabbing) && history == old(history) && historyIndex == old(historyIndex)
    {
      var start := currentCharacter;
      var remainingSpaces := TabWidth - start % TabWidth;
      var line := document[currentLine];
      InsertKeepsRest(document, currentLine, start, Repeat(' ', remainingSpaces));
      document := document[currentLine := InsertAt(line, start, Repeat(' ', remainingSpaces))];
      currentCharacter := currentCharacter + remainingSpaces;
      typingTabbing := typingTabbing + 1;
    }

    /** Moving to another line keeps the column where the new line allows it. */
    method SetCurrentLine(value: int)
      requires Valid() && 0 <= value < |document|
      modifies this
      ensures Valid()
      ensures currentLine == value
      ensures currentCharacter == if value == old(currentLine) then old(currentCharacter)
                                  else Min(|document[value]|, old(currentCharacter))
      ensures document == old(document) && typingTabbing == old(typingTabbing) && blockTabbing == old(blockTabbing)
      ensures history == old(history) && historyIndex == old(historyIndex)
    {
      if currentLine != value {
        currentLine := value;
        currentCharacter := Min(|document[currentLine]|, currentCharacter);
      }
    }

    method HandleUpArrow()
      requires Valid()
      modifies this
      ensures Valid()
      ensures currentLine == if old(currentLine) > 0 then old(currentLine) - 1 else old(currentLine)
      ensures currentCharacter <= old(currentCharacter)
      ensures document == old(document) && history == old(history) && historyIndex == old(historyIndex)
    {
      if currentLine > 0 {
        SetCurrentLine(currentLine - 1);
      }
    }

    method HandleDownArrow()
      requires Valid()
      modifies this
      ensures Valid()
      ensures currentLine == if old(currentLine) < |document| - 1 then old(currentLine) + 1 else old(currentLine)
      ensures currentCharacter <= old(currentCharacter)
      ensures document == old(document) && history == old(history) && historyIndex == old(historyIndex)
    {
      if currentLine < |document| - 1 {
        SetCurrentLine(currentLine + 1);
      }
    }

    /**
     * Delete: inside a line the character under the cursor goes; at the end of a line the
     * next line is joined on, unless this is the last line.
     */
    method HandleDelete()
      requires Valid()
      modifies this
      ensures Valid()
      ensures currentLine == old(currentLine) && currentCharacter == old(currentCharacter)
      ensures old(currentCharacter) >= |old(document[currentLine])| && old(currentLine) == |old(document)| - 1 ==>
        document == old(document)
      ensures old(currentCharacter) >= |old(document[currentLine])| && old(currentLine) < |old(document)| - 1 ==>
        document == MergeWithPrevious(old(document), old(currentLine) + 1) && Flat(document) == old(Flat(document))
      ensures old(currentCharacter) < |old(document[currentLine])| ==>
        var line := old(document[currentLine]);
        var start := old(currentCharacter);
        document == old(document)[old(currentLine) := line[..start] + line[start + 1..]]
        && Flat(document) == old(Flat(document)[..Cursor()] + Flat(document)[Cursor() + 1..])
        && blockTabbing == (if ContainsOpening(line[start..start + 1]) then [] else old(blockTabbing))
      ensures old(currentCharacter) >= |old(document[currentLine])| ==> blockTabbing == old(blockTabbing)
      ensures typingTabbing == old(typingTabbing) && history == old(history) && historyIndex == old(historyIndex)
    {
      if currentCharacter >= |document[currentLine]| {
        if currentLine == |document| - 1 {
          return;
        }
        MergeKeepsText(document, currentLine + 1);
        document := MergeWithPrevious(document, currentLine + 1);
        return;
      }
      RemoveAtCursor();
    }

    /** Removes the character under the cursor, which stays where it is. */
    method RemoveAtCursor()
      requires Valid() && currentCharacter < |document[currentLine]|
      modifies this
      ensures Valid()
      ensures var line := old(document[currentLine]);
        var start := old(currentCharacter);
        currentLine == old(currentLine) && currentCharacter == start
        && document == old(document)[currentLine := line[..start] + line[start + 1..]]
        && Flat(document) == old(Flat(document)[..Cursor()] + Flat(document)[Cursor() + 1..])
        && blockTabbing == (if ContainsOpening(line[start..start + 1]) then [] else old(blockTabbing))
      ensures typingTabbing == old(typingTabbing) && history == old(history) && historyIndex == old(historyIndex)
    {
      var line := document[currentLine];
      var start := currentCharacter;
      if ContainsOpening(line[start..start + 1]) {
        blockTabbing := [];
      }
      RemoveSpanKeepsRest(document, currentLine, start + 1, 1);
      document := document[currentLine := line[..start] + line[start + 1..]];
    }

    /**
     * How many characters Backspace removes: one, or a run of whitespace back to the
     * previous tab stop.
     */
    method TabBoundaryBack() returns (offset: int)
      requires Valid()
      ensures 1 <= offset <= TabWidth
      ensures offset == 1 || offset <= currentCharacter
      ensures offset > 1 ==>
        IsBlank(document[currentLine][currentCharacter - offset..currentCharacter])
    {
      var line := document[currentLine];
      var maxOffset := |line| % TabWidth;
      if maxOffset == 0 {
        maxOffset := TabWidth;
      }
      var start := currentCharacter;
      offset := 1;
      while offset < maxOffset
        invariant 1 <= offset <= TabWidth
        decreases maxOffset - offset
      {
        offset := offset + 1;
        if start - offset - 1 < 0 {
          break;
        }
        var previous := line[start - offset - 1];
        if !IsWhiteSpace(previous) {
          break;
        }
      }
      if offset <= start && IsBlank(line[start - offset..start]) {
        return offset;
      }
      return 1;
    }

    /**
     * Backspace: at the start of a line that line is joined onto the previous one (nothing
     * happens on the first line); elsewhere one character, or a whitespace run back to a tab
     * stop, before the cursor goes.
     */
    method HandleBackspace()
      requires Valid()
      modifies this
      ensures Valid()
      ensures old(currentCharacter) == 0 && old(currentLine) == 0 ==>
        document == old(document) && currentLine == 0 && currentCharacter == 0
      ensures old(currentCharacter) == 0 && old(currentLine) > 0 ==>
        document == MergeWithPrevious(old(document), old(currentLine))
        && currentLine == old(currentLine) - 1 && currentCharacter == |old(document[currentLine - 1])|
        && Flat(document) == old(Flat(document)) && Cursor() == old(Cursor())
      ensures old(currentCharacter) > 0 ==>
        var removed := old(currentCharacter) - currentCharacter;
        var line := old(document[currentLine]);
        1 <= removed <= TabWidth && currentLine == old(currentLine)
        && (removed > 1 ==> IsBlank(line[currentCharacter..old(currentCharacter)]))
        && document == old(document)[currentLine := line[..currentCharacter] + line[old(currentCharacter)..]]
        && Cursor() == old(Cursor()) - removed
        && Flat(document) == old(Flat(document))[..Cursor()] + old(Flat(document))[old(Cursor())..]
        && blockTabbing == (if ContainsOpening(line[currentCharacter..old(currentCharacter)]) then [] else old(blockTabbing))
      ensures old(currentCharacter) == 0 ==> blockTabbing == old(blockTabbing)
      ensures typingTabbing == old(typingTabbing) && history == old(history) && historyIndex == old(historyIndex)
    {
      var start := currentCharacter;
      if start == 0 {
        if currentLine == 0 {
          return;
        }
        JoinWithPrevious();
      } else {
        var offset := TabBoundaryBack();
        RemoveBeforeCursor(offset);
      }
    }

    /**
     * Removes the current line and appends its text to the previous one, where the cursor
     * then stands at the join.
     */
    method JoinWithPrevious()
      requires Valid() && currentLine > 0 && currentCharacter == 0
      modifies this
      ensures Valid()
      ensures document == MergeWithPrevious(old(document), old(currentLine))
      ensures currentLine == old(currentLine) - 1 && currentCharacter == |old(document[currentLine - 1])|
      ensures Flat(document) == old(Flat(document)) && Cursor() == old(Cursor())
      ensures blockTabbing == old(blockTabbing) && typingTabbing == old(typingTabbing)
      ensures history == old(history) && historyIndex == old(historyIndex)
    {
      var previousLine := document[currentLine - 1];
      MergeKeepsText(document, currentLine);
      document := MergeWithPrevious(document, currentLine);
      currentLine := currentLine - 1;
      currentCharacter := |previousLine|;
    }

    /** Removes the `offset` characters before the cursor, which moves back over them. */
    method RemoveBeforeCursor(offset: int)
      requires Valid() && 1 <= offset <= currentCharacter
      modifies this
      ensures Valid()
      ensures var line := old(document[currentLine]);
        currentLine == old(currentLine) && currentCharacter == old(currentCharacter) - offset
        && document == old(document)[currentLine := line[..currentCharacter] + line[old(currentCharacter)..]]
        && blockTabbing == (if ContainsOpening(line[currentCharacter..old(currentCharacter)]) then [] else old(blockTabbing))
      ensures Cursor() == old(Cursor()) - offset
      ensures Flat(document) == old(Flat(document))[..Cursor()] + old(Flat(document))[Cursor() + offset..]
      ensures typingTabbing == old(typingTabbing) && history == old(history) && historyIndex == old(historyIndex)
    {
      RemoveSpanKeepsRest(document, currentLine, currentCharacter, offset);
      var line := document[currentLine];
      var start := currentCharacter;
      if ContainsOpening(line[start - offset..start]) {
        blockTabbing := [];
      }
      document := document[currentLine := line[..start - offset] + line[start..]];
      currentCharacter := currentCharacter - offset;
    }

    /**
     * Enter inside a submission: the line is broken at the cursor and the cursor moves to the
     * start of the new line, where the indentation for it is typed.
     */
    method InsertLine()
      requires Valid()
      modifies this
      ensures Valid()
      ensures var line := old(document[currentLine]);
        var c := old(currentCharacter);
        var indent := NewLineIndent(line[..c], line[c..], windowWidth);
        document == BreakLine(old(document), old(currentLine), c, indent)
        && currentLine == old(currentLine) + 1 && currentCharacter == |indent|
        && typingTabbing == old(typingTabbing) + (if OpensBlock(line[..c]) then 1 else 0)
      ensures Flat(document) == old(Flat(document)[..Cursor()]) + document[currentLine][..currentCharacter] + old(Flat(document)[Cursor()..])
      ensures Cursor() == old(Cursor()) + currentCharacter
      ensures blockTabbing == old(blockTabbing) && history == old(history) && historyIndex == old(historyIndex)
    {
      var line := document[currentLine];
      var column := currentCharacter;
      // The remainder moves to a line of its own; the indentation of the line above, one
      // level deeper after an opening bracket, is then typed there.
      var indent := NewLineIndent(line[..column], line[column..], windowWidth);
      if OpensBlock(line[..column]) {
        typingTabbing := typingTabbing + 1;
      }
      BreakInsertsIndent(document, currentLine, column, indent);
      document := BreakLine(document, currentLine, column, indent);
      currentLine := currentLine + 1;
      currentCharacter := |indent|;
      assert document[currentLine] == indent + line[column..];
      assert document[currentLine][..currentCharacter] == indent;
    }

    /** The history entry at the current index replaces the submission; the cursor goes to its end. */
    method UpdateDocumentFromHistory()
      requires Valid()
      modifies this
      ensures Valid()
      ensures |history| == 0 ==> document == old(document) && currentLine == old(currentLine) && currentCharacter == old(currentCharacter)
      ensures |history| > 0 ==>
        document == SplitLines(history[historyIndex]) && Join(document, "\n") == history[historyIndex]
        && currentLine == |document| - 1 && currentCharacter == |document[currentLine]|
      ensures history == old(history) && historyIndex == old(historyIndex)
      ensures typingTabbing == old(typingTabbing) && blockTabbing == old(blockTabbing)
    {
      if |history| == 0 {
        return;
      }
      var historyItem := history[historyIndex];
      var lines := SplitLines(historyItem);
      SplitLinesJoin(historyItem);
      document := lines;
      currentLine := |document| - 1;
      currentCharacter := |document[currentLine]|;
    }

    /** PageDown: the next history entry, wrapping to the first. */
    method HandlePageDown()
      requires Valid()
      modifies this
      ensures Valid()
      ensures historyIndex == NextIndex(old(historyIndex), |history|)
      ensures |history| == 0 ==> document == old(document)
      ensures |history| > 0 ==> Join(document, "\n") == history[historyIndex]
      ensures history == old(history)
    {
      historyIndex := historyIndex + 1;
      if historyIndex > |history| - 1 {
        historyIndex := 0;
      }
      UpdateDocumentFromHistory();
    }

    /** PageUp: the previous history entry, wrapping to the last. */
    method HandlePageUp()
      requires Valid()
      modifies this
      ensures Valid()
      ensures historyIndex == PreviousIndex(old(historyIndex), |history|)
      ensures |history| == 0 ==> document == old(document)
      ensures |history| > 0 ==> Join(document, "\n") == history[historyIndex]
      ensures history == old(history)
    {
      historyIndex := historyIndex - 1;
      if historyIndex < 0 {
        historyIndex := |history| - 1;
      }
      UpdateDocumentFromHistory();
    }

    /** A finished submission joins the history, which is then read from its start again. */
    method AddSubmission(text: string)
      requires Valid()
      modifies this
      ensures Valid()
      ensures history == old(history) + [text] && historyIndex == 0
      ensures document == old(document) && currentLine == old(currentLine) && currentCharacter == old(currentCharacter)
    {
      history := history + [text];
      historyIndex := 0;
    }

    /** Forgets the history; the index is left as it was. */
    method ClearHistory()
      requires Valid()
      modifies this
      ensures Valid()
      ensures history == [] && historyIndex == old(historyIndex)
      ensures document == old(document) && currentLine == old(currentLine) && currentCharacter == old(currentCharacter)
    {
      history := [];
    }
  }

  function Min(a: int, b: int): int
  {
    if a < b then a else b
  }
}
