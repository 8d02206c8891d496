/**
 * The older syntax node model (Buckle/CodeAnalysis/Syntax/Types.cs): tokens
 * are the leaves and every other node lists its children in source order.
 * The model covers spans, the last token under a node, and the tree printer.
 * A node's type is kept as the name its enumeration constant prints as.
 */
module SyntaxTypes {
  import opened Wrappers

  /** `TextSpan`: a start and a length; the end is derived. */
  datatype TextSpan = TextSpan(start: int, length: int)
  {
    function End(): int { start + length }
  }

  /** `TextSpan.FromBounds`. */
  function FromBounds(start: int, end: int): (s: TextSpan)
    ensures s.start == start && s.End() == end
  {
    TextSpan(start, end - start)
  }

  datatype SyntaxTrivia = SyntaxTrivia(kind: string, position: int, text: Option<string>)

  datatype Node =
    | Token(kind: string, position: int, text: Option<string>, value: Option<string>,
            leading: seq<SyntaxTrivia>, trailing: seq<SyntaxTrivia>)
    | Branch(kind: string, children: seq<Node>)

  /** `Token.isMissing`: the token was made up by the parser and has no text. */
  predicate IsMissing(t: Node)
    requires t.Token?
  {
    t.text.None?
  }

  /**
   * `span`: a token covers its text from its position (nothing when it is
   * missing); any other node runs from its first child's start to its last
   * child's end, and a node without children has no span.
   */
  function Span(n: Node): (r: Option<TextSpan>)
    decreases n
  {
    match n
    case Token(_, position, text, _, _, _) =>
      Some(TextSpan(position, if text.Some? then |text.value| else 0))
    case Branch(_, children) =>
      if |children| == 0 then None
      else
        var first := Span(children[0]);
        var last := Span(children[|children| - 1]);
        if first.None? || last.None? then None
        else Some(FromBounds(first.value.start, last.value.End()))
  }

  /** A token's span starts at its position, and it is empty exactly when the token is missing or its text is empty. */
  lemma TokenSpan(t: Node)
    requires t.Token?
    ensures Span(t).Some? && Span(t).value.start == t.position
    ensures Span(t).value.length == 0 <==> IsMissing(t) || t.text == Some("")
  {
  }

  /** Every node below `n`, tokens included, has children (the shape the parser builds). */
  predicate Complete(n: Node)
    decreases n
  {
    match n
    case Token(_, _, _, _, _, _) => true
    case Branch(_, children) => |children| > 0 && forall i :: 0 <= i < |children| ==> Complete(children[i])
  }

  /** The tokens under `n`, left to right: the independent description of the leaves. */
  function Leaves(n: Node): seq<Node>
    decreases n
  {
    match n
    case Token(_, _, _, _, _, _) => [n]
    case Branch(_, children) => LeavesOf(children)
  }

  function LeavesOf(cs: seq<Node>): seq<Node>
    decreases cs
  {
    if cs == [] then [] else LeavesOf(cs[..|cs| - 1]) + Leaves(cs[|cs| - 1])
  }

  /** `GetLastToken`: a token is its own last token; another node's is its last child's (the source fails on a node without children). */
  function LastToken(n: Node): (t: Node)
    requires Complete(n)
    ensures t.Token?
    decreases n
  {
    match n
    case Token(_, _, _, _, _, _) => n
    case Branch(_, children) => LastToken(children[|children| - 1])
  }

  /** The first token under a complete node, the counterpart used for the start of its span. */
  function FirstToken(n: Node): (t: Node)
    requires Complete(n)
    ensures t.Token?
    decreases n
  {
    match n
    case Token(_, _, _, _, _, _) => n
    case Branch(_, children) => FirstToken(children[0])
  }

  /** The leaves of a complete node are never empty: each child contributes at least one. */
  lemma {:induction false} LeavesNonEmpty(n: Node)
    requires Complete(n)
    ensures |Leaves(n)| > 0
    decreases n
  {
    match n
    case Token(_, _, _, _, _, _) =>
    case Branch(_, children) =>
      var cs := children;
      assert LeavesOf(cs) == LeavesOf(cs[..|cs| - 1]) + Leaves(cs[|cs| - 1]);
      LeavesNonEmpty(cs[|cs| - 1]);
  }

  /** `GetLastToken` returns the rightmost leaf. */
  lemma {:induction false} LastTokenIsLastLeaf(n: Node)
    requires Complete(n)
    ensures |Leaves(n)| > 0 && LastToken(n) == Leaves(n)[|Leaves(n)| - 1]
    decreases n
  {
    LeavesNonEmpty(n);
    match n
    case Token(_, _, _, _, _, _) =>
    case Branch(_, children) =>
      var cs := children;
      var last := cs[|cs| - 1];
      LastTokenIsLastLeaf(last);
      assert LeavesOf(cs) == LeavesOf(cs[..|cs| - 1]) + Leaves(last);
  }

  /** The first leaf of a sequence of complete nodes is the first leaf of its first node. */
  lemma {:induction false} FirstLeafOf(cs: seq<Node>)
    requires |cs| > 0 && forall i :: 0 <= i < |cs| ==> Complete(cs[i])
    ensures |LeavesOf(cs)| > 0 && |Leaves(cs[0])| > 0 && LeavesOf(cs)[0] == Leaves(cs[0])[0]
    decreases cs
  {
    LeavesNonEmpty(cs[0]);
    if |cs| > 1 {
      FirstLeafOf(cs[..|cs| - 1]);
      assert cs[..|cs| - 1][0] == cs[0];
    } else {
      assert cs[..0] == [];
    }
  }

  /** The first token of a complete node is its leftmost leaf. */
  lemma {:induction false} FirstTokenIsFirstLeaf(n: Node)
    requires Complete(n)
    ensures |Leaves(n)| > 0 && FirstToken(n) == Leaves(n)[0]
    decreases n
  {
    LeavesNonEmpty(n);
    match n
    case Token(_, _, _, _, _, _) =>
    case Branch(_, children) =>
      FirstTokenIsFirstLeaf(children[0]);
      FirstLeafOf(children);
  }

  /** A complete node has a span, from its first token's start to its last token's end. */
  lemma {:induction false} SpanOfComplete(n: Node)
    requires Complete(n)
    ensures Span(n).Some?
    ensures Span(n).value.start == Span(FirstToken(n)).value.start
    ensures Span(n).value.End() == Span(LastToken(n)).value.End()
    decreases n
  {
    match n
    case Token(_, _, _, _, _, _) =>
    case Branch(_, children) =>
      SpanOfComplete(children[0]);
      SpanOfComplete(children[|children| - 1]);
  }

  // ---------------------------------------------------------------------------
  // PrettyPrint

  /** The marker in front of a line: the last entry of a level closes the branch. */
  function Marker(last: bool): string
  {
    if last then "└─" else "├─"
  }

  /** The text after the marker on a node's own line: its type, and a token's value after a space. */
  function Label(n: Node): string
  {
    if n.Token? && n.value.Some? then n.kind + " " + n.value.value else n.kind
  }

  function LeadingLines(ts: seq<SyntaxTrivia>, indent: string): (r: seq<string>)
    ensures |r| == |ts|
  {
    seq(|ts|, i requires 0 <= i < |ts| => indent + "├─" + "L: " + ts[i].kind)
  }

  /** Trailing trivia lines; the last one closes the branch when the token is the last entry. */
  function TrailingLines(ts: seq<SyntaxTrivia>, indent: string, isLast: bool): (r: seq<string>)
    ensures |r| == |ts|
  {
    seq(|ts|, j requires 0 <= j < |ts| => indent + Marker(isLast && j == |ts| - 1) + "T: " + ts[j].kind)
  }

  /** How many lines a node's own entry takes before its children: its leading trivia come first. */
  function LeadCount(n: Node): nat
  {
    if n.Token? then |n.leading| else 0
  }

  /**
   * The lines `PrettyPrint(writer, node, indent, isLast)` writes: a token's
   * leading trivia, the node's own line, a token's trailing trivia, then the
   * children one level deeper. The node's line closes the branch only when
   * the node is the last entry and no trailing trivia follow it.
   */
  function PrettyLines(n: Node, indent: string, isLast: bool): (r: seq<string>)
    ensures |r| == Size(n)
    decreases n
  {
    match n
    case Token(_, _, _, _, leading, trailing) =>
      LeadingLines(leading, indent) + [indent + Marker(isLast && |trailing| == 0) + Label(n)] + TrailingLines(trailing, indent, isLast)
    case Branch(_, children) =>
      [indent + Marker(isLast) + Label(n)] + ChildLines(children, indent + (if isLast then "  " else "│ "), true)
  }

  /** The lines of the children `cs`; the last of them is the closing entry when `closing` holds. */
  function ChildLines(cs: seq<Node>, indent: string, closing: bool): (r: seq<string>)
    ensures |r| == SizeOf(cs)
    decreases cs
  {
    if cs == [] then [] else ChildLines(cs[..|cs| - 1], indent, false) + PrettyLines(cs[|cs| - 1], indent, closing)
  }

  /** The number of lines printed for a node: one per node and one per trivia. */
  function Size(n: Node): nat
    decreases n
  {
    match n
    case Token(_, _, _, _, leading, trailing) => |leading| + 1 + |trailing|
    case Branch(_, children) => 1 + SizeOf(children)
  }

  function SizeOf(cs: seq<Node>): nat
    decreases cs
  {
    if cs == [] then 0 else SizeOf(cs[..|cs| - 1]) + Size(cs[|cs| - 1])
  }

  /** Every line the printer writes for a node starts with the indent it was given. */
  lemma {:induction false} PrettyLinesShape(n: Node, indent: string, isLast: bool)
    ensures forall k :: 0 <= k < |PrettyLines(n, indent, isLast)| ==> indent <= PrettyLines(n, indent, isLast)[k]
    decreases n, 1
  {
    match n
    case Token(_, _, _, _, leading, trailing) =>
    case Branch(_, children) =>
      var inner := indent + (if isLast then "  " else "│ ");
      ChildLinesShape(children, inner, true);
      var ls := PrettyLines(n, indent, isLast);
      forall k | 0 <= k < |ls|
        ensures indent <= ls[k]
      {
        if k > 0 {
          assert ls[k] == ChildLines(children, inner, true)[k - 1];
          assert indent <= inner;
        }
      }
  }

  lemma {:induction false} ChildLinesShape(cs: seq<Node>, indent: string, closing: bool)
    ensures forall k :: 0 <= k < |ChildLines(cs, indent, closing)| ==> indent <= ChildLines(cs, indent, closing)[k]
    decreases cs, 0
  {
    if cs != [] {
      ChildLinesShape(cs[..|cs| - 1], indent, false);
      PrettyLinesShape(cs[|cs| - 1], indent, closing);
      var a := ChildLines(cs[..|cs| - 1], indent, false);
      var b := PrettyLines(cs[|cs| - 1], indent, closing);
      assert ChildLines(cs, indent, closing) == a + b;
    }
  }

  /**
   * Child `i`'s lines sit after those of the children before it, printed with
   * the closing marker exactly when it is the last child.
   */
  lemma {:induction false} ChildLinesAt(cs: seq<Node>, indent: string, closing: bool, i: nat, k: nat)
    requires i < |cs| && k < Size(cs[i])
    ensures SizeOf(cs[..i]) + k < |ChildLines(cs, indent, closing)|
    ensures ChildLines(cs, indent, closing)[SizeOf(cs[..i]) + k] == PrettyLines(cs[i], indent, closing && i == |cs| - 1)[k]
    decreases cs
  {
    var front := cs[..|cs| - 1];
    assert ChildLines(cs, indent, closing) == ChildLines(front, indent, false) + PrettyLines(cs[|cs| - 1], indent, closing);
    if i == |cs| - 1 {
      assert cs[..i] == front;
    } else {
      assert front[..i] == cs[..i];
      assert front[i] == cs[i];
      ChildLinesAt(front, indent, false, i, k);
    }
  }

  /**
   * Under a branch, the own line of child `i` is indented one level deeper,
   * by "  " below a closing entry and by "│ " otherwise, and carries "└─"
   * exactly when the child is the last one and has no trailing trivia.
   */
  lemma ChildMarker(n: Node, indent: string, isLast: bool, i: nat)
    requires n.Branch? && i < |n.children|
    ensures var child := n.children[i];
      var line := 1 + SizeOf(n.children[..i]) + LeadCount(child);
      line < |PrettyLines(n, indent, isLast)| &&
      PrettyLines(n, indent, isLast)[line] ==
        indent + (if isLast then "  " else "│ ") +
        Marker(i == |n.children| - 1 && !(child.Token? && |child.trailing| > 0)) + Label(child)
  {
    var inner := indent + (if isLast then "  " else "│ ");
    var child := n.children[i];
    ChildLinesAt(n.children, inner, true, i, LeadCount(child));
  }

  /**
   * The text writer: the lines completed so far and the text written since
   * the last line break. Its text is each line followed by a line break, then
   * the pending text.
   */
  class Writer {
    var lines: seq<string>
    var pending: string

    constructor ()
      ensures lines == [] && pending == ""
    {
      lines := [];
      pending := "";
    }

    method Write(s: string)
      modifies this
      ensures lines == old(lines) && pending == old(pending) + s
    {
      pending := pending + s;
    }

    method WriteLine(s: string)
      modifies this
      ensures lines == old(lines) + [old(pending) + s] && pending == ""
    {
      lines := lines + [pending + s];
      pending := "";
    }
  }

  /** The loop of `PrettyPrint` over a token's leading trivia. */
  method WriteLeading(writer: Writer, leading: seq<SyntaxTrivia>, indent: string)
    requires writer.pending == ""
    modifies writer
    ensures writer.lines == old(writer.lines) + LeadingLines(leading, indent) && writer.pending == ""
  {
    ghost var start := writer.lines;
    var i := 0;
    while i < |leading|
      invariant 0 <= i <= |leading| && writer.pending == ""
      invariant writer.lines == start + LeadingLines(leading[..i], indent)
    {
      writer.Write(indent);
      assert writer.pending == indent;
      writer.Write("├─");
      assert writer.pending == indent + "├─";
      writer.WriteLine("L: " + leading[i].kind);
      assert writer.lines == start + LeadingLines(leading[..i], indent) + [indent + "├─" + ("L: " + leading[i].kind)];
      assert indent + "├─" + ("L: " + leading[i].kind) == indent + "├─" + "L: " + leading[i].kind;
      assert LeadingLines(leading[..i + 1], indent) == LeadingLines(leading[..i], indent) + [indent + "├─" + "L: " + leading[i].kind];
      i := i + 1;
    }
    assert leading[..i] == leading;
  }

  /** The loop of `PrettyPrint` over a token's trailing trivia; the last one closes the branch of a last entry. */
  method WriteTrailing(writer: Writer, trailing: seq<SyntaxTrivia>, indent: string, isLast: bool)
    requires writer.pending == ""
    modifies writer
    ensures writer.lines == old(writer.lines) + TrailingLines(trailing, indent, isLast) && writer.pending == ""
  {
    ghost var start := writer.lines;
    var j := 0;
    while j < |trailing|
      invariant 0 <= j <= |trailing| && writer.pending == ""
      invariant writer.lines == start + TrailingLines(trailing, indent, isLast)[..j]
    {
      var isLastTrailingTrivia := j == |trailing| - 1;
      var triviaMarker := if isLast && isLastTrailingTrivia then "└─" else "├─";
      writer.Write(indent);
      assert writer.pending == indent;
      writer.Write(triviaMarker);
      assert writer.pending == indent + triviaMarker;
      writer.WriteLine("T: " + trailing[j].kind);
      assert writer.lines == start + TrailingLines(trailing, indent, isLast)[..j] + [indent + triviaMarker + ("T: " + trailing[j].kind)];
      assert indent + triviaMarker + ("T: " + trailing[j].kind) == TrailingLines(trailing, indent, isLast)[j];
      SliceStep(TrailingLines(trailing, indent, isLast), j);
      j := j + 1;
    }
    assert TrailingLines(trailing, indent, isLast)[..j] == TrailingLines(trailing, indent, isLast);
  }

  lemma SliceStep(ls: seq<string>, j: nat)
    requires j < |ls|
    ensures ls[..j + 1] == ls[..j] + [ls[j]]
  {
  }

  /** The pieces `PrettyPrint` writes for a node's own line spell its label after the prefix. */
  lemma OwnLine(prefix: string, n: Node)
    ensures n.Token? && n.value.Some? ==> prefix + n.kind + (" " + n.value.value) + "" == prefix + Label(n)
    ensures !(n.Token? && n.value.Some?) ==> prefix + n.kind + "" == prefix + Label(n)
  {
    if n.Token? && n.value.Some? {
      assert prefix + n.kind + (" " + n.value.value) == prefix + (n.kind + " " + n.value.value);
    }
  }

  /** Child lines grow by one child at a time; the newest child closes the level when it is the last one. */
  lemma ChildLinesStep(cs: seq<Node>, indent: string, i: nat)
    requires i < |cs|
    ensures ChildLines(cs[..i + 1], indent, i + 1 == |cs|) == ChildLines(cs[..i], indent, false) + PrettyLines(cs[i], indent, i == |cs| - 1)
  {
    assert cs[..i + 1][..i] == cs[..i];
  }

  /** The loop of `PrettyPrint` over a node's children; only the last child is printed as a closing entry. */
  method WriteChildren(writer: Writer, children: seq<Node>, inner: string)
    requires writer.pending == ""
    modifies writer
    ensures writer.lines == old(writer.lines) + ChildLines(children, inner, true) && writer.pending == ""
    decreases children, 0
  {
    ghost var head := writer.lines;
    var i := 0;
    while i < |children|
      invariant 0 <= i <= |children| && writer.pending == ""
      invariant writer.lines == head + ChildLines(children[..i], inner, i == |children|)
    {
      ghost var done := ChildLines(children[..i], inner, false);
      PrettyPrint(writer, children[i], inner, i == |children| - 1);
      ChildLinesStep(children, inner, i);
      assert head + done + PrettyLines(children[i], inner, i == |children| - 1) == head + (done + PrettyLines(children[i], inner, i == |children| - 1));
      i := i + 1;
    }
    assert children[..i] == children;
  }

  /** `PrettyPrint`: writes the node's lines, then recurses into its children one level deeper. */
  method PrettyPrint(writer: Writer, node: Node, indent: string, isLast: bool)
    requires writer.pending == ""
    modifies writer
    ensures writer.lines == old(writer.lines) + PrettyLines(node, indent, isLast) && writer.pending == ""
    decreases node, 1
  {
    ghost var start := writer.lines;
    if node.Token? {
      WriteLeading(writer, node.leading, indent);
    }
    var hasTrailing := node.Token? && |node.trailing| > 0;
    var marker := if !hasTrailing && isLast then "└─" else "├─";
    ghost var beforeOwn := writer.lines;
    writer.Write(indent + marker);
    assert writer.pending == indent + marker;
    writer.Write(node.kind);
    assert writer.pending == indent + marker + node.kind;
    if node.Token? && node.value.Some? {
      writer.Write(" " + node.value.value);
      assert writer.pending == indent + marker + node.kind + (" " + node.value.value);
    }
    writer.WriteLine("");
    OwnLine(indent + marker, node);
    assert writer.lines == beforeOwn + [indent + marker + Label(node)];
    ghost var own := indent + marker + Label(node);
    assert writer.lines == start + (if node.Token? then LeadingLines(node.leading, indent) else []) + [own];
    if node.Token? {
      WriteTrailing(writer, node.trailing, indent, isLast);
      assert writer.lines == start + LeadingLines(node.leading, indent) + [own] + TrailingLines(node.trailing, indent, isLast);
    } else {
      var children := node.children;
      var inner := indent + (if isLast then "  " else "│ ");
      WriteChildren(writer, children, inner);
    }
  }
}
