# A verified model of the Buckle compiler core

Buckle is the compiler of the Belte language. This project models, in Dafny, the sequential
front and middle of Buckle and a few of its standalone routines, and proves properties of them:

- **Lexer and syntax facts** (`Lexer`, `LexerSpec`, `LexerLiterals`, `LexerProperties`,
  `SyntaxFacts`): maximal-munch scanning of characters into tokens with leading and trailing
  trivia; numeric and string literals with their non-fatal diagnostics; the keyword,
  precedence and token-text tables the parser reads.
- **Parsers** (`SyntaxParser`, `TokenStream`, `LanguageParser`, `LanguageStatements`,
  `TokenArrayParser`): the token buffer that doubles when full, `Match` with its recovery by
  a fabricated missing token or a skipped token, precedence climbing, and the loops that
  stop when the parser makes no progress; the older token-array parser of the first compiler.
- **Syntax nodes** (`SyntaxTypes`): spans, the last token of a node and the tree printer.
- **Binding utilities** (`BoundTypes`, `BinderChecks`, `OverloadResolution`): type copies,
  child and base types, type equality; modifier, parameter and argument validation; overload
  scoring, argument rearrangement and tie-breaking.
- **Bound tree passes** (`BoundTree`, `BoundTreeRewriter`, `BoundTreeExpander`, `Lowerer`):
  the identity-preserving rewriter, the expander, and the lowering of structured control flow
  into one flat block of labels and conditional jumps.
- **Evaluator** (`EvaluatorValues`, `Evaluator`, `EvaluatorProperties`): the label-indexed
  goto interpreter over 32-bit integers and booleans, with short-circuiting, null propagation
  and a stack of local frames.
- **Emitter helpers** (`ILEmitter`, `CSharpEmitter`): constant folding of string
  concatenations, branch fixups, conversion lookup, C# type names and output tidying.
- **Display and diagnostics** (`DisplayText`, `BoundNodePrinter`, `ErrorMessages`): the
  indenting display buffer, literal formatting, the bound-tree printer and message texts.
- **Tools** (`CommandLine`, `ReplEditing`, `Compilation`, `SourceWriter`, `Vector`): command-line
  option decoding and exit codes, the REPL's line-buffer edits and command splitter, the
  submission chain of a compilation, the syntax generator's source writer, and the growable
  C++ vector of `temp.cpp`.

Code that changes state step by step is modelled as classes with `modifies` clauses and
methods with loops, each proved against a function of its inputs or old state; pure code is
modelled as datatypes, functions and lemmas. `Wrappers` (Option/Result) and `Strings` are
shared helpers.

I/O, the clock and the file system never appear directly. The file system of the command
line is a parameter (`CommandLine.FileSystem`), the lexer the parser reads is a function
from stream index to token, and the binder's output for a submission is a constructor
argument of `Compilation.Submission`.

## Model

| member | source | states |
|---|---|---|
| Lexer.Lexer.PeekAt | src/Buckle/Compiler/CodeAnalysis/Parser/Lexer.cs:124-131 | the character that many places ahead, or `'\0'` past the end of the text |
| Lexer.Lexer.AddDiagnostic | src/Buckle/Compiler/CodeAnalysis/Parser/Lexer.cs:186-188 | appends one diagnostic, positioned relative to the start of what is being read |
| Lexer.Lexer.AdvanceIfMatches | src/Buckle/Compiler/CodeAnalysis/Parser/Lexer.cs:518-525 | steps over the current character exactly when it is the one given |
| Lexer.Lexer.ReadWhitespace | src/Buckle/Compiler/CodeAnalysis/Parser/Lexer.cs:762-782 | stops where the run of spaces and tabs ends |
| Lexer.Lexer.ReadLineBreak | src/Buckle/Compiler/CodeAnalysis/Parser/Lexer.cs:784-791 | steps over a line feed, a carriage return, or a carriage return followed by a line feed |
| Lexer.Lexer.ReadSingleLineComment | src/Buckle/Compiler/CodeAnalysis/Parser/Lexer.cs:527-545 | stops at the next line break, NUL or the end of the text |
| Lexer.Lexer.ReadMultiLineComment | src/Buckle/Compiler/CodeAnalysis/Parser/Lexer.cs:547-572 | stops just after the first closing star-slash, or at the end with an unterminated-comment diagnostic |
| Lexer.Lexer.ReadTriviaPiece | src/Buckle/Compiler/CodeAnalysis/Parser/Lexer.cs:202-260 | reads the trivia piece the LexerSpec scan gives at the position, and stops the loop before a token, at the end, or after a trailing line break |
| Lexer.Lexer.ReadComment | src/Buckle/Compiler/CodeAnalysis/Parser/Lexer.cs:215-223 | after a slash: a single-line or multi-line comment, or no trivia at all |
| Lexer.Lexer.ReadTrivia | src/Buckle/Compiler/CodeAnalysis/Parser/Lexer.cs:202-260 | the cache receives exactly the trivia list the LexerSpec scan reads from the position, and the position moves to its end |
| Lexer.Lexer.AddTrivia | src/Buckle/Compiler/CodeAnalysis/Parser/Lexer.cs:202-260 | appends one trivia to the chosen cache and leaves the other alone |
| Lexer.Lexer.ReadPunctuation | src/Buckle/Compiler/CodeAnalysis/Parser/Lexer.cs:333-484 | reads the punctuation token the LexerSpec scan gives: the longest match, with `>>` and `>>>` backed off to `>` |
| Lexer.Lexer.ReadGreaterThan | src/Buckle/Compiler/CodeAnalysis/Parser/Lexer.cs:467-484 | `>=`, `>>=` and `>>>=` are whole tokens; anything else after a `>` leaves a single `>` |
| Lexer.Lexer.ReadStringLiteral | src/Buckle/Compiler/CodeAnalysis/Parser/Lexer.cs:574-675 | reads the string or character literal the LexerSpec scan gives: its end, value and diagnostics |
| Lexer.Lexer.SetCharacterValue | src/Buckle/Compiler/CodeAnalysis/Parser/Lexer.cs:660-671 | an empty character literal has no value and is reported over both quotes; a longer one keeps its first character and is reported over the whole literal |
| Lexer.Lexer.ReadStringBody | src/Buckle/Compiler/CodeAnalysis/Parser/Lexer.cs:578-657 | the body read up to the closing quote, or up to the end of the line with an unterminated-string diagnostic |
| Lexer.Lexer.ReadNumericLiteral | src/Buckle/Compiler/CodeAnalysis/Parser/Lexer.cs:677-760 | reads the numeric literal as the corrected digit scan ends it (departing from the sign test at Lexer.cs:715, see Findings): its end, its value and its diagnostic |
| Lexer.Lexer.ReadNumberPrefix | src/Buckle/Compiler/CodeAnalysis/Parser/Lexer.cs:696-704 | a `0b` or `0x` prefix is skipped and recorded |
| Lexer.Lexer.ReadDigits | src/Buckle/Compiler/CodeAnalysis/Parser/Lexer.cs:706-725 | the digit loop stops where the corrected digit scan stops (departing from the sign test at Lexer.cs:715, see Findings), with the same flags |
| Lexer.Lexer.ReadIdentifierOrKeyword | src/Buckle/Compiler/CodeAnalysis/Parser/Lexer.cs:823-830 | reads up to the end of the identifier, whose kind is the keyword it spells or an identifier |
| Lexer.Lexer.ReadToken | src/Buckle/Compiler/CodeAnalysis/Parser/Lexer.cs:324-516 | reads the token the LexerSpec scan gives at the position |
| Lexer.Lexer.GetDiagnostics | src/Buckle/Compiler/CodeAnalysis/Parser/Lexer.cs:170-184 | hands out the recorded diagnostics moved past the leading trivia, and clears them |
| Lexer.Lexer.LexNextInternal | src/Buckle/Compiler/CodeAnalysis/Parser/Lexer.cs:133-151 | the token, with its leading and trailing trivia and diagnostics, is the one the LexerSpec functions lex, and the position moves to its end |
| Lexer.Lexer.ReadLeadingTrivia | src/Buckle/Compiler/CodeAnalysis/Parser/Lexer.cs:134-135 | the leading cache holds exactly the leading trivia read from the position |
| Lexer.Lexer.ReadTrailingTrivia | src/Buckle/Compiler/CodeAnalysis/Parser/Lexer.cs:145-146 | the trailing cache holds exactly the trailing trivia read from the position |
| Lexer.Lexer.ReadTokenAndDiagnostics | src/Buckle/Compiler/CodeAnalysis/Parser/Lexer.cs:137-148 | the token's text is its kind's fixed text, or else the characters it spans |
| Lexer.Lexer.LexNext | src/Buckle/Compiler/CodeAnalysis/Parser/Lexer.cs:71-106 | the token handed out is the one the LexerSpec functions lex: never a bad token, with every bad token before it folded into its leading trivia as skipped-token trivia |
| Lexer.NumberScanned | src/Buckle/Compiler/CodeAnalysis/Parser/Lexer.cs:727-759 | a digit run read by the class yields the literal value and diagnostic the LexerSpec functions give |
| Lexer.TriviaLoopStep | src/Buckle/Compiler/CodeAnalysis/Parser/Lexer.cs:206-259 | one pass of the trivia loop keeps what the whole loop reads |
| LexerSpec.WhitespaceEnd | src/Buckle/Compiler/CodeAnalysis/Parser/Lexer.cs:762-782 | the end of a whitespace run lies within the text |
| LexerSpec.LineEnd | src/Buckle/Compiler/CodeAnalysis/Parser/Lexer.cs:527-545 | the end of a comment line lies within the text |
| LexerSpec.BlockCommentEnd | src/Buckle/Compiler/CodeAnalysis/Parser/Lexer.cs:547-572 | the end of a multi-line comment lies within the text |
| LexerSpec.WhitespaceEndSpans | src/Buckle/Compiler/CodeAnalysis/Parser/Lexer.cs:762-782 | a whitespace run is all spaces and tabs and stops at the first other character |
| LexerSpec.LineEndSpans | src/Buckle/Compiler/CodeAnalysis/Parser/Lexer.cs:527-545 | a comment line holds no line break and stops at the first one or the end |
| LexerSpec.BlockCommentEndSpans | src/Buckle/Compiler/CodeAnalysis/Parser/Lexer.cs:547-572 | a multi-line comment ends just after its first closing star-slash; an unterminated one runs to the end of the text or a NUL |
| LexerSpec.TriviaPiece | src/Buckle/Compiler/CodeAnalysis/Parser/Lexer.cs:202-260 | a trivia piece is never empty and lies within the text |
| LexerSpec.ScanTrivia | src/Buckle/Compiler/CodeAnalysis/Parser/Lexer.cs:202-260 | the trivia list ends within the text |
| LexerSpec.ScanOperator | src/Buckle/Compiler/CodeAnalysis/Parser/Lexer.cs:333-484 | a punctuation token takes at least one character and lies within the text |
| LexerSpec.IdentifierEnd | src/Buckle/Compiler/CodeAnalysis/Parser/Lexer.cs:823-830 | an identifier is all letters, digits and underscores, and stops at the first other character |
| LexerSpec.StringBody | src/Buckle/Compiler/CodeAnalysis/Parser/Lexer.cs:578-657 | the body ends within the text and keeps the diagnostics recorded before it |
| LexerSpec.ScanStringLiteral | src/Buckle/Compiler/CodeAnalysis/Parser/Lexer.cs:574-675 | a literal takes at least its opening quote and lies within the text |
| LexerSpec.ScanDigits | src/Buckle/Compiler/CodeAnalysis/Parser/Lexer.cs:706-725 | the corrected digit loop (a sign only after the exponent `e`, unlike Lexer.cs:715) ends within the text and keeps the literal's base |
| LexerSpec.ScanDigitsAsWritten | src/Buckle/Compiler/CodeAnalysis/Parser/Lexer.cs:706-725 | the loop as written throws exactly when a sign is met before any character was read |
| LexerSpec.ConvertToInt32 | src/Buckle/Compiler/CodeAnalysis/Parser/Lexer.cs:739-740 | a binary or hexadecimal literal is read as an unsigned 32-bit pattern and reinterpreted as a signed int; more than 32 bits overflows |
| LexerSpec.Int32TryParse | src/Buckle/Compiler/CodeAnalysis/Parser/Lexer.cs:744 | a decimal literal parses exactly when its value is below 2^31 |
| LexerSpec.RemoveUnderscores | src/Buckle/Compiler/CodeAnalysis/Parser/Lexer.cs:730 | the result holds no underscore and is no longer than the text |
| LexerSpec.ScanNumber | src/Buckle/Compiler/CodeAnalysis/Parser/Lexer.cs:677-760 | a numeric literal, scanned with the corrected sign rule, takes at least one character and lies within the text |
| LexerSpec.ScanToken | src/Buckle/Compiler/CodeAnalysis/Parser/Lexer.cs:324-516 | a token ends within the text |
| LexerSpec.LexFrom | src/Buckle/Compiler/CodeAnalysis/Parser/Lexer.cs:71-106 | the token handed out is never a bad token and ends within the text |
| LexerSpec.LexNext | src/Buckle/Compiler/CodeAnalysis/Parser/Lexer.cs:71-106 | the next token is never a bad token and ends within the text |
| LexerSpec.ScanTokenBounds | src/Buckle/Compiler/CodeAnalysis/Parser/Lexer.cs:324-516 | a token lies within the text and only the end-of-file token is empty |
| LexerSpec.LexInternalBounds | src/Buckle/Compiler/CodeAnalysis/Parser/Lexer.cs:133-151 | the lexed token ends past the position, except at the end of the text |
| LexerLiterals.NumberDiagnostics | src/Buckle/Compiler/CodeAnalysis/Parser/Lexer.cs:733-759 | a numeric literal is always a numeric token; an integer literal that does not parse has no value and exactly one diagnostic over its text |
| LexerLiterals.UnderscoresIgnored | src/Buckle/Compiler/CodeAnalysis/Parser/Lexer.cs:730 | `1_000` is one thousand |
| LexerLiterals.HexWrapsToNegative | src/Buckle/Compiler/CodeAnalysis/Parser/Lexer.cs:737-741 | `0xFFFFFFFF` is -1 |
| LexerLiterals.DecimalOverflowReported | src/Buckle/Compiler/CodeAnalysis/Parser/Lexer.cs:744-748 | `2147483648` has no value and is reported as not an int |
| LexerLiterals.NoUnderscoresUnchanged | src/Buckle/Compiler/CodeAnalysis/Parser/Lexer.cs:730 | text without underscores is left as it is |
| LexerLiterals.ScanDigitsAsWrittenDefined | src/Buckle/Compiler/CodeAnalysis/Parser/Lexer.cs:706-725 | once a character has been read, the loop as written never throws |
| LexerLiterals.ScanDigitsAgree | src/Buckle/Compiler/CodeAnalysis/Parser/Lexer.cs:706-725 | outside hexadecimal literals the loop as written and the corrected loop read the same characters whenever the former does not throw |
| LexerLiterals.DecimalNumberAgrees | src/Buckle/Compiler/CodeAnalysis/Parser/Lexer.cs:677-760 | a decimal literal is read the same by both loops, and the loop as written does not throw on it |
| LexerLiterals.BinaryNumberAgrees | src/Buckle/Compiler/CodeAnalysis/Parser/Lexer.cs:677-760 | a binary literal read without throwing is read the same by both loops |
| LexerLiterals.HexSignThrows | src/Buckle/Compiler/CodeAnalysis/Parser/Lexer.cs:715 | as written, `0x-1` reads the value of an empty `previous` and throws |
| LexerLiterals.HexSignEndsLiteral | src/Buckle/Compiler/CodeAnalysis/Parser/Lexer.cs:715 | corrected, `0x` alone is the literal, reported as not an int, and the sign starts the next token |
| LexerLiterals.HexDigitESwallowsSign | src/Buckle/Compiler/CodeAnalysis/Parser/Lexer.cs:715 | as written, in `0x1e+1` the hexadecimal digit `e` lets the sign into the literal, which then fails to parse |
| LexerLiterals.HexDigitEStopsAtSign | src/Buckle/Compiler/CodeAnalysis/Parser/Lexer.cs:715 | corrected, `0x1e` is thirty and the sign starts the next token |
| LexerLiterals.StringBodyEnds | src/Buckle/Compiler/CodeAnalysis/Parser/Lexer.cs:578-657 | a literal body ends just after its closing quote, or stops at a line break or the end with an unterminated-string diagnostic last |
| LexerLiterals.StringBodyKeepsDiagnostics | src/Buckle/Compiler/CodeAnalysis/Parser/Lexer.cs:578-657 | reading a body only adds diagnostics after those already recorded |
| LexerLiterals.DoubledQuote | src/Buckle/Compiler/CodeAnalysis/Parser/Lexer.cs:588-596 | `"a""b"` is `a"b` |
| LexerLiterals.NewlineUnterminates | src/Buckle/Compiler/CodeAnalysis/Parser/Lexer.cs:582-587 | a line break ends a string early and is reported at the opening quote |
| LexerLiterals.KnownEscape | src/Buckle/Compiler/CodeAnalysis/Parser/Lexer.cs:601-644 | `"\n"` is a newline |
| LexerLiterals.UnknownEscape | src/Buckle/Compiler/CodeAnalysis/Parser/Lexer.cs:645-650 | an unknown escape is reported over the backslash and the next character, which is read as itself |
| LexerLiterals.EmptyCharacterLiteralReported | src/Buckle/Compiler/CodeAnalysis/Parser/Lexer.cs:662-664 | `''` has no value and is reported over both quotes |
| LexerLiterals.LongCharacterLiteralReported | src/Buckle/Compiler/CodeAnalysis/Parser/Lexer.cs:665-667 | `'ab'` keeps `a` and is reported over the whole literal |
| LexerProperties.TriviaListTextAppend | src/Buckle/Compiler/CodeAnalysis/Parser/Lexer.cs:202-260 | the text of two trivia lists one after the other is the concatenation of their texts |
| LexerProperties.ScanTriviaText | src/Buckle/Compiler/CodeAnalysis/Parser/Lexer.cs:202-260 | the trivia read from a position spell out exactly the text they cover |
| LexerProperties.OperatorText | src/Buckle/Compiler/CodeAnalysis/Parser/Lexer.cs:333-484 | a punctuation token's fixed text is exactly the text it was read from |
| LexerProperties.ScanTokenText | src/Buckle/Compiler/CodeAnalysis/Parser/Lexer.cs:147 | the text a lexed token shows is the text it was read from |
| LexerProperties.TextlessToken | src/Buckle/Compiler/CodeAnalysis/Parser/Lexer.cs:147 | a token read where no operator, letter or underscore starts (a literal, the end of file, a bad character) has no fixed text |
| LexerProperties.LexInternalText | src/Buckle/Compiler/CodeAnalysis/Parser/Lexer.cs:133-151 | one token with its trivia covers exactly the text it was read from |
| LexerProperties.SkippedTriviaText | src/Buckle/Compiler/CodeAnalysis/Parser/Lexer.cs:87-96 | skipped-token trivia spell out the bad tokens' full text, each bad token's own trivia around the text of the token itself |
| LexerProperties.SkipText | src/Buckle/Compiler/CodeAnalysis/Parser/Lexer.cs:87-96 | one more bad token extends the skipped text by its full text |
| LexerProperties.AbsorbText | src/Buckle/Compiler/CodeAnalysis/Parser/Lexer.cs:97-99 | putting skipped tokens in front of a token's leading trivia extends its full text to the left |
| LexerProperties.LexFromText | src/Buckle/Compiler/CodeAnalysis/Parser/Lexer.cs:71-106 | the token handed out, with the bad tokens it absorbed, covers exactly the text it was read from |
| LexerProperties.LexNextText | src/Buckle/Compiler/CodeAnalysis/Parser/Lexer.cs:71-106 | lexing is lossless: the next token's full text is exactly the text from the position to where lexing stopped |
| LexerProperties.LexNextHasText | src/Buckle/Compiler/CodeAnalysis/Parser/Lexer.cs:71-106 | every token handed out has its text |
| LexerProperties.ScanTriviaPieces | src/Buckle/Compiler/CodeAnalysis/Parser/Lexer.cs:202-260 | every trivia read is a non-empty piece of one of the trivia kinds |
| LexerProperties.TrailingTriviaEndsAtLineBreak | src/Buckle/Compiler/CodeAnalysis/Parser/Lexer.cs:224-230 | trailing trivia holds at most one line break, and only as its last piece |
| LexerProperties.TriviaIsMaximal | src/Buckle/Compiler/CodeAnalysis/Parser/Lexer.cs:202-260 | trivia reading stops only where no trivia starts, or right after a trailing line break |
| LexerProperties.CrLfIsOneTrivia | src/Buckle/Compiler/CodeAnalysis/Parser/Lexer.cs:784-791 | a carriage return followed by a line feed is one end-of-line trivia |
| LexerProperties.UnterminatedCommentReported | src/Buckle/Compiler/CodeAnalysis/Parser/Lexer.cs:547-572 | an unclosed multi-line comment runs to the end and is reported once |
| LexerProperties.BadTokenIsBadCharacter | src/Buckle/Compiler/CodeAnalysis/Parser/Lexer.cs:503-515 | a bad token is read exactly where a character starts no token |
| LexerProperties.BadCharacterToken | src/Buckle/Compiler/CodeAnalysis/Parser/Lexer.cs:503-515 | a character that starts no token is skipped alone and reported as unexpected |
| LexerProperties.EndOfFileDoesNotAdvance | src/Buckle/Compiler/CodeAnalysis/Parser/Lexer.cs:330-332 | at the end of the text or a NUL the token is the empty end-of-file token |
| LexerProperties.LexNextAtEnd | src/Buckle/Compiler/CodeAnalysis/Parser/Lexer.cs:71-106 | lexing at the end of the text gives the end-of-file token, again and again |
| LexerProperties.GreaterThanBacksOff | src/Buckle/Compiler/CodeAnalysis/Parser/Lexer.cs:467-484 | `>>` and `>>>` not followed by `=` are read as a single `>` |
| LexerProperties.OperatorEqualsMunch | src/Buckle/Compiler/CodeAnalysis/Parser/Lexer.cs:377-466 | an operator character followed by `=` is read as one two-character token |
| LexerProperties.DoubledEqualsMunch | src/Buckle/Compiler/CodeAnalysis/Parser/Lexer.cs:387-484 | `**=`, `<<=`, `>>=` and `??=` are each one token |
| LexerProperties.TripleShiftEqualsMunch | src/Buckle/Compiler/CodeAnalysis/Parser/Lexer.cs:467-484 | `>>>=` is one token |
| LexerProperties.ScanTokenAtOperator | src/Buckle/Compiler/CodeAnalysis/Parser/Lexer.cs:333-484 | at an operator character the token is the operator read there |
| LexerProperties.ScanTokenAtQuote | src/Buckle/Compiler/CodeAnalysis/Parser/Lexer.cs:485-490 | at a quote the token is a string or character literal |
| LexerProperties.ScanTokenAtDigit | src/Buckle/Compiler/CodeAnalysis/Parser/Lexer.cs:491-502 | at a digit the token is a numeric literal |
| LexerProperties.ScanTokenAtLetter | src/Buckle/Compiler/CodeAnalysis/Parser/Lexer.cs:503-515 | at a letter or underscore the token runs to the end of the identifier and is the keyword it spells, or an identifier |
| SyntaxFacts.TernaryOperatorPair | src/Buckle/Compiler/CodeAnalysis/Syntax/SyntaxFacts.cs:123-130 | `?` pairs with `:`; every other kind throws |
| SyntaxFacts.CompoundAssignmentBase | src/Buckle/Compiler/CodeAnalysis/Syntax/SyntaxFacts.cs:353-384 | exactly the compound-assignment tokens have a base operator, which is a binary operator and no compound token; any other kind throws |
| SyntaxFacts.CompoundAssignmentText | src/Buckle/Compiler/CodeAnalysis/Syntax/SyntaxFacts.cs:353-384 | a compound token is spelled as its base operator followed by `=` |
| SyntaxFacts.EndsWithSuffix | src/Buckle/Compiler/CodeAnalysis/Syntax/SyntaxFacts.cs:415-440 | a kind's name ends with a category word exactly when that word is its category |
| SyntaxFacts.KeywordsByName | src/Buckle/Compiler/CodeAnalysis/Syntax/SyntaxFacts.cs:415-422 | `IsKeyword` holds exactly for the keyword kinds |
| SyntaxFacts.TriviaByName | src/Buckle/Compiler/CodeAnalysis/Syntax/SyntaxFacts.cs:433-440 | `IsTrivia` holds exactly for the trivia kinds |
| SyntaxFacts.TokensByName | src/Buckle/Compiler/CodeAnalysis/Syntax/SyntaxFacts.cs:424-431 | `IsToken` holds exactly for the keyword and token kinds, never for trivia or nodes |
| SyntaxFacts.KeywordTextRecognised | src/Buckle/Compiler/CodeAnalysis/Syntax/SyntaxFacts.cs:137-186 | the text of every keyword kind is recognised as that kind again |
| SyntaxFacts.KeywordKindRoundTrip | src/Buckle/Compiler/CodeAnalysis/Syntax/SyntaxFacts.cs:183-184 | text that is not a keyword's text is an identifier; a recognised keyword spells the text back |
| SyntaxFacts.FixedTextIsToken | src/Buckle/Compiler/CodeAnalysis/Syntax/SyntaxFacts.cs:193-342 | every kind with a fixed text is a token, and no trivia kind has one |
| SyntaxFacts.PrecedenceClasses | src/Buckle/Compiler/CodeAnalysis/Syntax/SyntaxFacts.cs:17-121 | binary precedences are at most 14; unary precedence is above every binary one, primary above every unary one, and every binary operator above the ternary one |
| TokenStream.LexedEnd | src/Buckle/Compiler/CodeAnalysis/Parser/Lexer.cs:71-106 | the lexer never stands past the end of the text |
| TokenStream.TokenAt | src/Buckle/Compiler/CodeAnalysis/Parser/Lexer.cs:71-106 | no token of the stream is a bad token and every one has its text |
| TokenStream.TokenAtText | src/Buckle/Compiler/CodeAnalysis/Parser/Lexer.cs:71-106 | each token with its trivia covers the text from where the previous one stopped to where it stops |
| TokenStream.StreamStep | src/Buckle/Compiler/CodeAnalysis/Parser/Lexer.cs:71-106 | one more token extends the text spelled so far by exactly that token's full text |
| TokenStream.StreamText | src/Buckle/Compiler/CodeAnalysis/Parser/Lexer.cs:71-106 | the stream is lossless: the first n tokens with their trivia spell out the text up to where the lexer stands |
| SyntaxParser.Missing | src/Buckle/Compiler/CodeAnalysis/Parser/SyntaxParser.cs:370-413 | a fabricated token of the kind asked for, without text |
| SyntaxParser.WithDiagnostics | src/Buckle/Compiler/CodeAnalysis/Parser/SyntaxParser.cs:166-178 | the new diagnostics follow the existing ones; kind, text and trivia are kept |
| SyntaxParser.PlacedOver | src/Buckle/Compiler/CodeAnalysis/Parser/SyntaxParser.cs:153-164 | each pending error is placed over the node's text, in order |
| SyntaxParser.AddLeadingSkippedSyntax | src/Buckle/Compiler/CodeAnalysis/Parser/SyntaxParser.cs:199-203 | the skipped token becomes leading trivia of the target |
| SyntaxParser.PreLexSize | src/Buckle/Compiler/CodeAnalysis/Parser/SyntaxParser.cs:76-88 | the buffer is between 32 and 4096 slots, half the text length in between |
| SyntaxParser.Reported | src/Buckle/Compiler/CodeAnalysis/Parser/SyntaxParser.cs:149-151 | a diagnostic is added, over the given token's text, exactly when reporting is on |
| SyntaxParser.SyntaxParser.PreLex | src/Buckle/Compiler/CodeAnalysis/Parser/SyntaxParser.cs:76-88 | fills a buffer of `min(4096, max(32, length / 2))` slots with the lexer's tokens, stopping after the end-of-file token |
| SyntaxParser.SyntaxParser.AddLexedToken | src/Buckle/Compiler/CodeAnalysis/Parser/SyntaxParser.cs:330-339 | a full buffer doubles, keeping its tokens; the token goes at the count, which grows by one |
| SyntaxParser.SyntaxParser.AddNewToken | src/Buckle/Compiler/CodeAnalysis/Parser/SyntaxParser.cs:341-354 | the lexer's next token is appended to the buffer |
| SyntaxParser.SyntaxParser.FetchCurrentToken | src/Buckle/Compiler/CodeAnalysis/Parser/SyntaxParser.cs:320-328 | the token at the current offset, lexed first when it is not buffered yet |
| SyntaxParser.SyntaxParser.CurrentToken | src/Buckle/Compiler/CodeAnalysis/Parser/SyntaxParser.cs:54-59 | the cached token, fetched on first use; the answer is the token at the offset |
| SyntaxParser.SyntaxParser.Peek | src/Buckle/Compiler/CodeAnalysis/Parser/SyntaxParser.cs:463-476 | lexes until the index is buffered and answers the token that many places ahead; a negative index reads the first token |
| SyntaxParser.SyntaxParser.MoveToNextToken | src/Buckle/Compiler/CodeAnalysis/Parser/SyntaxParser.cs:453-461 | remembers the current token's trailing trivia, drops the cached token and moves the offset on by one |
| SyntaxParser.SyntaxParser.WithFutureDiagnostics | src/Buckle/Compiler/CodeAnalysis/Parser/SyntaxParser.cs:153-164 | the pending errors are attached to the node, over its text, and cleared |
| SyntaxParser.SyntaxParser.AddDiagnosticToNextToken | src/Buckle/Compiler/CodeAnalysis/Parser/SyntaxParser.cs:284-286 | the error joins the pending ones |
| SyntaxParser.SyntaxParser.EatToken | src/Buckle/Compiler/CodeAnalysis/Parser/SyntaxParser.cs:303-311 | answers the current token, with the pending errors unless they are stalled, and moves on by one |
| SyntaxParser.SyntaxParser.GetResetPoint | src/Buckle/Compiler/CodeAnalysis/Parser/SyntaxParser.cs:94-96 | the point records the offset and the previous token's trailing trivia |
| SyntaxParser.SyntaxParser.Reset | src/Buckle/Compiler/CodeAnalysis/Parser/SyntaxParser.cs:98-116 | the offset and trailing trivia come back from the point and the cached current token is dropped |
| SyntaxParser.SyntaxParser.IsMakingProgress | src/Buckle/Compiler/CodeAnalysis/Parser/SyntaxParser.cs:478-485 | true exactly when the offset moved past the recorded position, which then records it |
| SyntaxParser.SyntaxParser.Match | src/Buckle/Compiler/CodeAnalysis/Parser/SyntaxParser.cs:370-414 | the token returned, the tokens consumed and the pending errors are those `MatchResult` gives for the current and next tokens |
| SyntaxParser.SyntaxParser.MissingBeforeToken | src/Buckle/Compiler/CodeAnalysis/Parser/SyntaxParser.cs:374-385 | a missing token taking the pending errors, nothing consumed |
| SyntaxParser.SyntaxParser.SkipToMatch | src/Buckle/Compiler/CodeAnalysis/Parser/SyntaxParser.cs:387-413 | the next token decides between skipping one token and skipping then matching |
| SyntaxParser.SyntaxParser.SkipOneToken | src/Buckle/Compiler/CodeAnalysis/Parser/SyntaxParser.cs:387-400 | the current token is eaten into the leading trivia of a missing token |
| SyntaxParser.SyntaxParser.SkipThenMatchToken | src/Buckle/Compiler/CodeAnalysis/Parser/SyntaxParser.cs:402-413 | the current token is skipped into the next token's leading trivia and both are consumed |
| SyntaxParser.MatchResult | src/Buckle/Compiler/CodeAnalysis/Parser/SyntaxParser.cs:370-414 | the token returned is of the wanted kind or the next token's kind, and at most two tokens are consumed |
| SyntaxParser.MissingBefore | src/Buckle/Compiler/CodeAnalysis/Parser/SyntaxParser.cs:374-385 | a missing token of the wanted kind, nothing consumed |
| SyntaxParser.SkipOne | src/Buckle/Compiler/CodeAnalysis/Parser/SyntaxParser.cs:387-400 | a missing token of the wanted kind with the current token as skipped trivia, one consumed |
| SyntaxParser.SkipThenMatch | src/Buckle/Compiler/CodeAnalysis/Parser/SyntaxParser.cs:402-413 | the next token with the current one as skipped trivia, two consumed |
| SyntaxParser.MatchExpected | src/Buckle/Compiler/CodeAnalysis/Parser/SyntaxParser.cs:371-372 | a current token of the wanted kind is consumed, exactly one, and returned apart from the pending errors |
| SyntaxParser.MatchNextWanted | src/Buckle/Compiler/CodeAnalysis/Parser/SyntaxParser.cs:374-385 | when the current token is the one wanted next, a missing token is returned and nothing is consumed |
| SyntaxParser.MatchSkipsOne | src/Buckle/Compiler/CodeAnalysis/Parser/SyntaxParser.cs:387-400 | when neither the current token nor the next has the wanted kind, the current one is skipped into a missing token's leading trivia |
| SyntaxParser.MatchSkipsThenConsumes | src/Buckle/Compiler/CodeAnalysis/Parser/SyntaxParser.cs:402-413 | when the next token has the wanted kind, the current one is skipped and the next one consumed |
| SyntaxParser.MatchMissingIff | src/Buckle/Compiler/CodeAnalysis/Parser/SyntaxParser.cs:370-414 | the returned token is missing exactly when nothing of the wanted kind was consumed |
| SyntaxParser.SkippedKeepsText | src/Buckle/Compiler/CodeAnalysis/Parser/SyntaxParser.cs:199-203 | a skipped token, as trivia, spells out its full text |
| SyntaxParser.AddLeadingSkippedKeepsText | src/Buckle/Compiler/CodeAnalysis/Parser/SyntaxParser.cs:199-203 | a token with another skipped before it spells the skipped token's full text, then its own |
| SyntaxParser.MatchKeepsText | src/Buckle/Compiler/CodeAnalysis/Parser/SyntaxParser.cs:370-414 | `Match` loses no text: what it returns spells out exactly the tokens it consumed |
| LanguageParser.Cur | src/Buckle/Compiler/CodeAnalysis/Parser/SyntaxParser.cs:54-59 | the current token is the buffered token at the position |
| LanguageParser.Eat | src/Buckle/Compiler/CodeAnalysis/Parser/SyntaxParser.cs:303-311 | the current token, with the pending diagnostics placed on it, and the position moves on by one |
| LanguageParser.Match | src/Buckle/Compiler/CodeAnalysis/Parser/LanguageParser.cs:58-63 | a token of the wanted kind, with a close parenthesis as the token wanted next while the flag is set |
| LanguageParser.ResetTo | src/Buckle/Compiler/CodeAnalysis/Parser/LanguageParser.cs:47-56 | back at the position taken earlier, the cached token's diagnostics dropped, flag and pending diagnostics kept |
| LanguageParser.NextBinary | src/Buckle/Compiler/CodeAnalysis/Parser/LanguageParser.cs:1021-1058 | the operator's precedence is 0 or between 3 and 14; two (three) adjacent `>` without trivia between them count as one `>>` (`>>>`) operator |
| LanguageParser.EatOperator | src/Buckle/Compiler/CodeAnalysis/Parser/LanguageParser.cs:1021-1058 | eats as many tokens as the operator spans, giving one token of that operator's precedence |
| LanguageParser.ParseExpression | src/Buckle/Compiler/CodeAnalysis/Parser/LanguageParser.cs:979-993 | never moves back, and the expression respects the operators' precedences |
| LanguageParser.ParseNonAssignment | src/Buckle/Compiler/CodeAnalysis/Parser/LanguageParser.cs:965-977 | the expression is no assignment and respects the precedences; the expect-parenthesis flag is cleared after |
| LanguageParser.ParseAssignment | src/Buckle/Compiler/CodeAnalysis/Parser/LanguageParser.cs:936-963 | the expression respects the precedences, assignments nesting to the right |
| LanguageParser.ParseOperator | src/Buckle/Compiler/CodeAnalysis/Parser/LanguageParser.cs:999-1077 | the expression binds at least as tightly as the parent precedence and respects the precedences; no binary or conditional operator that binds more tightly than the parent is left unparsed |
| LanguageParser.ParseOperand | src/Buckle/Compiler/CodeAnalysis/Parser/LanguageParser.cs:1003-1015 | a prefix operator applies to an operand binding at least at the unary level, and the result binds at least as tightly as the parent |
| LanguageParser.BinaryLoop | src/Buckle/Compiler/CodeAnalysis/Parser/LanguageParser.cs:1017-1061 | the loop stops at an operator binding no more tightly than the parent, so that operators of equal precedence nest to the left |
| LanguageParser.BinaryStep | src/Buckle/Compiler/CodeAnalysis/Parser/LanguageParser.cs:1017-1061 | one operator with the left operand so far as its left side and a right operand binding more tightly |
| LanguageParser.TernaryLoop | src/Buckle/Compiler/CodeAnalysis/Parser/LanguageParser.cs:1063-1074 | the conditional operator nests to the right and stops at a terminator |
| LanguageParser.TernaryStep | src/Buckle/Compiler/CodeAnalysis/Parser/LanguageParser.cs:1063-1074 | `?`, the center, the paired `:` and the right operand, with the condition binding more tightly than the conditional operator |
| LanguageParser.ParsePrimary | src/Buckle/Compiler/CodeAnalysis/Parser/LanguageParser.cs:1111-1139 | a primary expression with its primary operators, respecting the precedences |
| LanguageParser.ParsePrimaryInternal | src/Buckle/Compiler/CodeAnalysis/Parser/LanguageParser.cs:1079-1109 | a primary expression of the highest precedence |
| LanguageParser.ParseParenthesized | src/Buckle/Compiler/CodeAnalysis/Parser/LanguageParser.cs:1190-1199 | `(`, an expression with `)` on the bracket stack, `)` |
| LanguageParser.ParseLastCaseName | src/Buckle/Compiler/CodeAnalysis/Parser/LanguageParser.cs:1430-1437 | a token that starts no name leaves the position alone and gives a missing identifier |
| LanguageParser.ParseSimpleName | src/Buckle/Compiler/CodeAnalysis/Parser/LanguageParser.cs:1439-1458 | a name followed by a template argument list only when the list holds no diagnostic; otherwise the parser resets to just after the identifier |
| LanguageParser.ParseTemplateArgumentList | src/Buckle/Compiler/CodeAnalysis/Parser/LanguageParser.cs:1277-1293 | `<`, the arguments with `>` as terminator, `>` |
| LanguageParser.ParseArgumentList | src/Buckle/Compiler/CodeAnalysis/Parser/LanguageParser.cs:1295-1301 | `(`, the arguments, `)` |
| LanguageParser.ParseArguments | src/Buckle/Compiler/CodeAnalysis/Parser/LanguageParser.cs:1303-1332 | nothing before the closing bracket, else the argument loop |
| LanguageParser.ArgumentsLoop | src/Buckle/Compiler/CodeAnalysis/Parser/LanguageParser.cs:1303-1332 | another argument only after a comma; the loop stops at the closing bracket or a terminator |
| LanguageParser.ParseArgument | src/Buckle/Compiler/CodeAnalysis/Parser/LanguageParser.cs:1334-1352 | an optional `name:`, then an empty expression before a comma or `)`, else a non-assignment expression |
| LanguageParser.PrimaryLoop | src/Buckle/Compiler/CodeAnalysis/Parser/LanguageParser.cs:1111-1139 | the primary-operator loop, with a token eaten when an operator consumed nothing |
| LanguageParser.PrimaryOperator | src/Buckle/Compiler/CodeAnalysis/Parser/LanguageParser.cs:1111-1139 | a call, an index, a member access or a postfix operator, by the current token |
| LanguageParser.ParseIndex | src/Buckle/Compiler/CodeAnalysis/Parser/LanguageParser.cs:1244-1252 | `[`, an index expression with `]` on the bracket stack, `]` |
| LanguageParser.ParseMemberAccess | src/Buckle/Compiler/CodeAnalysis/Parser/LanguageParser.cs:1237-1242 | the access operator then a simple name |
| LanguageStatements.PastToken | src/Buckle/Compiler/CodeAnalysis/Parser/LanguageParser.cs:916-934 | moving past a token that is not the end of file leaves fewer tokens to read |
| LanguageStatements.WalkNestedIfs | src/Buckle/Compiler/CodeAnalysis/Parser/LanguageParser.cs:839-886 | the walk answers whether the branch is a nested if statement and counts the ambiguous else clauses along the then branches |
| LanguageStatements.MarkThen | src/Buckle/Compiler/CodeAnalysis/Parser/LanguageParser.cs:839-886 | only an if statement receives the walk's diagnostics, and nothing else about it changes |
| LanguageStatements.MarkElse | src/Buckle/Compiler/CodeAnalysis/Parser/LanguageParser.cs:839-886 | the else clause is marked ambiguous exactly when the then branch is a nested if statement |
| LanguageStatements.ParseStatement | src/Buckle/Compiler/CodeAnalysis/Parser/LanguageParser.cs:665-707 | every statement consumes at least one token and respects the operators' precedences |
| LanguageStatements.StatementKind | src/Buckle/Compiler/CodeAnalysis/Parser/LanguageParser.cs:665-707 | the current token alone decides which statement is parsed |
| LanguageStatements.ParseBlock | src/Buckle/Compiler/CodeAnalysis/Parser/LanguageParser.cs:916-934 | a block ends with a close brace and respects the precedences |
| LanguageStatements.BlockLoop | src/Buckle/Compiler/CodeAnalysis/Parser/LanguageParser.cs:916-934 | the loop stops at the end of file or a close brace, one statement per turn, each turn moving on |
| LanguageStatements.ParseIf | src/Buckle/Compiler/CodeAnalysis/Parser/LanguageParser.cs:839-886 | the condition, the then branch and the optional else clause, each nested non-block if along the then branches reported as ambiguous when an else follows |
| LanguageStatements.FinishIf | src/Buckle/Compiler/CodeAnalysis/Parser/LanguageParser.cs:858-886 | the else clause and the ambiguous-else marks |
| LanguageStatements.ParseElse | src/Buckle/Compiler/CodeAnalysis/Parser/LanguageParser.cs:888-896 | an else clause exactly when the current token is `else` |
| LanguageStatements.ParseWhile | src/Buckle/Compiler/CodeAnalysis/Parser/LanguageParser.cs:807-815 | `while ( condition ) body` |
| LanguageStatements.ParseDoWhile | src/Buckle/Compiler/CodeAnalysis/Parser/LanguageParser.cs:793-805 | `do body while ( condition ) ;` |
| LanguageStatements.ParseFor | src/Buckle/Compiler/CodeAnalysis/Parser/LanguageParser.cs:817-837 | `for (`, an initializer, the condition, `;`, the step, `)` and the body |
| LanguageStatements.ParseTry | src/Buckle/Compiler/CodeAnalysis/Parser/LanguageParser.cs:729-745 | `try`, a block and optional catch and finally clauses, reported when both are absent |
| LanguageStatements.ParseClause | src/Buckle/Compiler/CodeAnalysis/Parser/LanguageParser.cs:747-765 | a clause exactly when the current token is its keyword |
| LanguageStatements.ParseReturn | src/Buckle/Compiler/CodeAnalysis/Parser/LanguageParser.cs:767-777 | `return`, an expression unless a `;` follows, `;` |
| LanguageStatements.ParseBreak | src/Buckle/Compiler/CodeAnalysis/Parser/LanguageParser.cs:786-791 | `break ;` |
| LanguageStatements.ParseContinue | src/Buckle/Compiler/CodeAnalysis/Parser/LanguageParser.cs:779-784 | `continue ;` |
| LanguageStatements.ParseExpressionStatement | src/Buckle/Compiler/CodeAnalysis/Parser/LanguageParser.cs:898-914 | an expression and a `;`; the statement consumes at least one token and respects the precedences |
| LanguageStatements.Deduplicated | src/Buckle/Compiler/CodeAnalysis/Parser/LanguageParser.cs:898-914 | when the expression already reported on the current token and the `;` was fabricated, the `;` loses its last diagnostic, which repeats that report; any other `;` keeps its diagnostics |
| LanguageStatements.ParseMembers | src/Buckle/Compiler/CodeAnalysis/Parser/LanguageParser.cs:265-282 | members up to the end of file (or a `}` below the global level), each turn making progress |
| LanguageStatements.MembersLoop | src/Buckle/Compiler/CodeAnalysis/Parser/LanguageParser.cs:265-282 | the member loop stops at the end of file or a closing brace and keeps the members already parsed |
| TokenArrayParser.Attached | src/Buckle/Buckle/CodeAnalysis/Parser/Parser.cs:41-63 | the token keeps its kind, text and trailing trivia; its leading trivia become the bad tokens' trivia and skipped-token trivia, in order, followed by its own |
| TokenArrayParser.DrainedShape | src/Buckle/Buckle/CodeAnalysis/Parser/Parser.cs:33-68 | once an end-of-file token lies ahead in the lexer's output, the drained array is non-empty, holds no bad token, and has its only end-of-file token last |
| TokenArrayParser.DrainedKinds | src/Buckle/Buckle/CodeAnalysis/Parser/Parser.cs:33-68 | the kinds of the drained array are the kinds of the lexer's output with the bad tokens dropped, up to and including the end-of-file token |
| TokenArrayParser.Parser.constructor | src/Buckle/Buckle/CodeAnalysis/Parser/Parser.cs:23-70 | the token array is the drained lexer output; the position starts at 0 with no parenthesis expected, and the queue holds the diagnostics moved from the lexer |
| TokenArrayParser.Parser.Peek | src/Buckle/Buckle/CodeAnalysis/Parser/Parser.cs:126-136 | never a bad token; the end-of-file token exactly at or past the last index; past the end the last token, before the start the first |
| TokenArrayParser.Parser.Location | src/Buckle/Buckle/CodeAnalysis/Parser/Parser.cs:77 | an in-range index whose token is the current token |
| TokenArrayParser.Parser.Next | src/Buckle/Buckle/CodeAnalysis/Parser/Parser.cs:119-124 | returns the current token and moves the position on by one; short of end of file the tokens remaining strictly decrease |
| TokenArrayParser.MatchStepOf | src/Buckle/Buckle/CodeAnalysis/Parser/Parser.cs:90-117 | the result always has the expected kind; a diagnostic is pushed exactly when the current token has another kind; nothing is consumed exactly when the current token is the one wanted next; the token after a skipped one is returned when two are consumed |
| TokenArrayParser.PushedOnto | src/Buckle/Buckle/CodeAnalysis/Parser/Parser.cs:98-111 | the queue only grows, by one exactly when a diagnostic is reported |
| TokenArrayParser.Parser.Match | src/Buckle/Buckle/CodeAnalysis/Parser/Parser.cs:90-117 | the returned token, the new position and the new queue are those of MatchStepOf, with a close parenthesis wanted next while one is expected |
| TokenArrayParser.Parser.ParseExpression | src/Buckle/Buckle/CodeAnalysis/Parser/Parser.cs:663-672 | an empty expression before `;`, otherwise an assignment expression; the tree is well nested and the position and queue only grow |
| TokenArrayParser.Parser.ParseAssignment | src/Buckle/Buckle/CodeAnalysis/Parser/Parser.cs:624-651 | a well-nested tree whose assignment nodes are built only from assignment operators, associating to the right |
| TokenArrayParser.Parser.ParseOperand | src/Buckle/Buckle/CodeAnalysis/Parser/Parser.cs:676-690 | a prefix or unary node exactly when the current token is a unary operator binding at least as tightly as the parent; prefix nodes only for `++`/`--`, unary nodes never for them |
| TokenArrayParser.BinaryNode | src/Buckle/Buckle/CodeAnalysis/Parser/Parser.cs:698-700 | a binary node over a left operand binding at least as tightly and a right operand binding more tightly than its operator is well nested, at the operator's precedence |
| TokenArrayParser.TernaryNode | src/Buckle/Buckle/CodeAnalysis/Parser/Parser.cs:709-713 | a conditional node whose condition binds more tightly than `?:` is well nested, at the conditional precedence |
| TokenArrayParser.Parser.BinaryLoop | src/Buckle/Buckle/CodeAnalysis/Parser/Parser.cs:692-701 | the tree stays well nested, every new binary node binds more tightly than the parent, and the loop stops at a token that is no binary operator binding more tightly than the parent |
| TokenArrayParser.Parser.TernaryLoop | src/Buckle/Buckle/CodeAnalysis/Parser/Parser.cs:703-714 | a conditional node is built over the operand only when `?` binds at least as tightly as the parent; the loop stops at a token that starts no binary or conditional operator the parent would take |
| TokenArrayParser.Parser.ParseOperator | src/Buckle/Buckle/CodeAnalysis/Parser/Parser.cs:674-717 | precedence climbing: a well-nested tree binding at least as tightly as the parent, after which no binary operator binding more tightly and no conditional operator binding as tightly remains |
| TokenArrayParser.Parser.ParsePrimary | src/Buckle/Buckle/CodeAnalysis/Parser/Parser.cs:719-745 | a primary-level tree; when the current token starts no primary expression a missing name is fabricated with a diagnostic; literals only from literal tokens |
| TokenArrayParser.Parser.ParseExpressionStatement | src/Buckle/Buckle/CodeAnalysis/Parser/Parser.cs:590-602 | an expression and a `;`; when the expression already pushed diagnostics, the `;` adds none, so a failed `;` does not repeat the report; otherwise it adds at most one |
| SyntaxTypes.TokenSpan | src/Buckle/Buckle/CodeAnalysis/Syntax/Types.cs:348-350 | a token's span starts at its position and is empty exactly when the token is missing or its text is empty |
| SyntaxTypes.LastToken | src/Buckle/Buckle/CodeAnalysis/Syntax/Types.cs:247-252 | always a token |
| SyntaxTypes.LastTokenIsLastLeaf | src/Buckle/Buckle/CodeAnalysis/Syntax/Types.cs:247-252 | `GetLastToken` of a node with children all the way down is its rightmost leaf |
| SyntaxTypes.FirstToken | src/Buckle/Buckle/CodeAnalysis/Syntax/Types.cs:196-197 | always a token |
| SyntaxTypes.LeavesNonEmpty | src/Buckle/Buckle/CodeAnalysis/Syntax/Types.cs:192-201 | a node whose every non-token has children has at least one leaf token |
| SyntaxTypes.FirstLeafOf | src/Buckle/Buckle/CodeAnalysis/Syntax/Types.cs:196-197 | the first leaf of a list of such nodes is the first leaf of its first node |
| SyntaxTypes.FirstTokenIsFirstLeaf | src/Buckle/Buckle/CodeAnalysis/Syntax/Types.cs:196-197 | the first token of such a node is its leftmost leaf |
| SyntaxTypes.SpanOfComplete | src/Buckle/Buckle/CodeAnalysis/Syntax/Types.cs:192-201 | such a node has a span, running from its first token's start to its last token's end |
| SyntaxTypes.PrettyLines | src/Buckle/Buckle/CodeAnalysis/Syntax/Types.cs:254-304 | the printer writes one line per leading trivia, one for the node, one per trailing trivia and those of its children: as many as the tree's size with trivia counted |
| SyntaxTypes.PrettyLinesShape | src/Buckle/Buckle/CodeAnalysis/Syntax/Types.cs:254-304 | every line written for a node starts with the indent it was given |
| SyntaxTypes.ChildLinesAt | src/Buckle/Buckle/CodeAnalysis/Syntax/Types.cs:300-303 | child `i`'s lines follow those of the children before it, printed as a closing entry exactly when it is the last child |
| SyntaxTypes.ChildMarker | src/Buckle/Buckle/CodeAnalysis/Syntax/Types.cs:268-270 | a child's own line is indented one level deeper, by two spaces under a closing entry and by a bar otherwise, and carries the closing marker exactly when it is the last child with no trailing trivia |
| SyntaxTypes.TrailingLines | src/Buckle/Buckle/CodeAnalysis/Syntax/Types.cs:284-293 | one line per trailing trivia |
| SyntaxTypes.WriteLeading | src/Buckle/Buckle/CodeAnalysis/Syntax/Types.cs:261-267 | the lines written are the leading trivia lines, and nothing is left pending |
| SyntaxTypes.WriteTrailing | src/Buckle/Buckle/CodeAnalysis/Syntax/Types.cs:284-293 | the lines written are the trailing trivia lines, and nothing is left pending |
| SyntaxTypes.WriteChildren | src/Buckle/Buckle/CodeAnalysis/Syntax/Types.cs:298-303 | the lines written are those of the children, one level deeper, the last as a closing entry |
| SyntaxTypes.PrettyPrint | src/Buckle/Buckle/CodeAnalysis/Syntax/Types.cs:254-304 | the lines written are exactly the node's pretty-printed lines |
| BoundTypes.CopyWith | src/Buckle/Compiler/CodeAnalysis/Binding/BoundTree/BoundType.cs:217-250 | a copy exists exactly when a type was given |
| BoundTypes.CopyWithNothing | src/Buckle/Compiler/CodeAnalysis/Binding/BoundTree/BoundType.cs:217-250 | copying with no overrides gives back an equal type |
| BoundTypes.CopyWithDimensions | src/Buckle/Compiler/CodeAnalysis/Binding/BoundTree/BoundType.cs:217-250 | overriding only the dimensions changes only the dimensions |
| BoundTypes.CopyWithNullable | src/Buckle/Compiler/CodeAnalysis/Binding/BoundTree/BoundType.cs:217-250 | overriding only nullability changes only nullability |
| BoundTypes.ChildType | src/Buckle/Compiler/CodeAnalysis/Binding/BoundTree/BoundType.cs:347-354 | an array type's element type has one dimension less and is otherwise the same; `any` is its own element type; any other type has none |
| BoundTypes.BaseType | src/Buckle/Compiler/CodeAnalysis/Binding/BoundTree/BoundType.cs:360-365 | the base type has no dimensions and is otherwise the same type; a type without dimensions is its own base |
| BoundTypes.ChildKeepsBase | src/Buckle/Compiler/CodeAnalysis/Binding/BoundTree/BoundType.cs:347-365 | an element type has the same base type as its array, and the base of a base is itself |
| BoundTypes.Assume | src/Buckle/Compiler/CodeAnalysis/Binding/BoundTree/BoundType.cs:257-272 | every literal value but an unknown one has a type: a non-constant, non-array literal type whose symbol follows the value's kind (bool, char, decimal, int, string, or the null symbol for null, which is then nullable) |
| BoundTypes.Compound | src/Buckle/Compiler/CodeAnalysis/Binding/BoundTree/BoundType.cs:277-299 | a non-template type is returned as it is; a template type with receiver template arguments is replaced by the argument at its ordinal, combining the two types' flags (nullable and implicit only when both are, constant and reference when either is) and adding their dimensions, and fails when the ordinal is out of range |
| BoundTypes.TemplateLoop | src/Buckle/Compiler/CodeAnalysis/Binding/BoundTree/BoundType.cs:306-341 | the template-argument loop of `Equals` answers true exactly when this type's arguments agree pairwise with the other's, and fails exactly when it would read past the other's end |
| BoundTypes.EqualsAsWritten | src/Buckle/Compiler/CodeAnalysis/Binding/BoundTree/BoundType.cs:306-341 | `Equals` as written answers true exactly when the symbols (if not loose), nullability, literal and constant flags, dimensions, arity and the compared template arguments agree, ignoring `isExplicitReference` |
| BoundTypes.EqualsIgnoresExplicitReference | src/Buckle/Compiler/CodeAnalysis/Binding/BoundTree/BoundType.cs:306-341 | two types that differ only in `isExplicitReference` compare equal as written |
| BoundTypes.EqualsNotSymmetric | src/Buckle/Compiler/CodeAnalysis/Binding/BoundTree/BoundType.cs:306-341 | as written, on types whose arity (0) differs from their argument count, the bare `List` equals `List<string>`, but the reverse comparison indexes past the end |
| BoundTypes.Equals | src/Buckle/Compiler/CodeAnalysis/Binding/BoundTree/BoundType.cs:306-341 | the intended comparison: equal flags, dimensions, arity, template arguments and sizes, and equal symbols unless loose with one of them unknown |
| BoundTypes.EqualsSymmetric | src/Buckle/Compiler/CodeAnalysis/Binding/BoundTree/BoundType.cs:306-341 | the intended comparison is symmetric, and without `loose` it is exactly equality |
| BoundTypes.EqualsAgree | src/Buckle/Compiler/CodeAnalysis/Binding/BoundTree/BoundType.cs:306-341 | when both sides have as many template arguments, the written comparison agrees with the intended one up to `isExplicitReference` |
| BinderChecks.AccessibilityConflict | src/Buckle/Compiler/CodeAnalysis/Binding/Binder_old.cs:867-890 | adding `public`, `private` or `protected` is a conflict exactly when another of the three is already set, and the reported pair names both keywords |
| BinderChecks.MethodModifierStep | src/Buckle/Compiler/CodeAnalysis/Binding/Binder_old.cs:1065-1194 | each keyword keeps the flags valid (no two accessibilities; outside a class only `lowlevel`) and reports at most one diagnostic: an invalid or a repeated keyword |
| BinderChecks.MethodModifiers | src/Buckle/Compiler/CodeAnalysis/Binding/Binder_old.cs:1065-1194 | the folded flags are valid and there are at most as many diagnostics as keywords |
| BinderChecks.ClassOnlyModifiersRejected | src/Buckle/Compiler/CodeAnalysis/Binding/Binder_old.cs:1065-1194 | outside a class every keyword but `lowlevel` is reported as an invalid modifier and `lowlevel` is the only flag that can be set |
| BinderChecks.MethodModifiersSnoc | src/Buckle/Compiler/CodeAnalysis/Binding/Binder_old.cs:1065-1194 | folding one more keyword applies one more step and appends that step's diagnostics |
| BinderChecks.RepeatedModifierReported | src/Buckle/Compiler/CodeAnalysis/Binding/Binder_old.cs:855-865 | a keyword whose flag is already set is reported as applied twice and leaves the flags unchanged |
| BinderChecks.AccessibilityOf | src/Buckle/Compiler/CodeAnalysis/Binding/Binder_old.cs:1486-1496 | accessibility is not applicable exactly outside a class; inside one it is public if `public` is set, else protected if `protected` is set, else private |
| BinderChecks.BoundParameterType | src/Buckle/Compiler/CodeAnalysis/Binding/Binder_old.cs:696-746 | a template parameter is bound as a constant expression, any other keeps its declared constantness |
| BinderChecks.ParameterStep | src/Buckle/Compiler/CodeAnalysis/Binding/Binder_old.cs:696-746 | one iteration only adds diagnostics, and either drops the parameter or appends it numbered after the ones kept |
| BinderChecks.ParameterStepNumbered | src/Buckle/Compiler/CodeAnalysis/Binding/Binder_old.cs:696-746 | each iteration keeps the kept parameters with distinct names and ordinals 1, 2, ... |
| BinderChecks.ParametersUpTo | src/Buckle/Compiler/CodeAnalysis/Binding/Binder_old.cs:696-746 | after n iterations the kept parameters are distinct, numbered, and at most n |
| BinderChecks.ParameterDiagnosticsGrow | src/Buckle/Compiler/CodeAnalysis/Binding/Binder_old.cs:696-746 | diagnostics only accumulate as the loop goes on |
| BinderChecks.DefaultBeforeNoDefaultReported | src/Buckle/Compiler/CodeAnalysis/Binding/Binder_old.cs:696-746 | a parameter without a default after one with a constant default is reported as `DefaultBeforeNoDefault` |
| BinderChecks.DuplicateParameterDropped | src/Buckle/Compiler/CodeAnalysis/Binding/Binder_old.cs:696-746 | a parameter whose name was already kept is dropped and reported as already declared |
| BinderChecks.ArgumentBinding | src/Buckle/Compiler/CodeAnalysis/Binding/Binder_old.cs:4249-4250 | an empty argument is bound as the null literal and any other is kept |
| BinderChecks.ArgumentStep | src/Buckle/Compiler/CodeAnalysis/Binding/Binder_old.cs:4232-4263 | one iteration appends exactly the argument's name and binding |
| BinderChecks.ArgumentsUpTo | src/Buckle/Compiler/CodeAnalysis/Binding/Binder_old.cs:4232-4263 | after n iterations the bound list is the first n names and bindings |
| BinderChecks.ArgumentsResult | src/Buckle/Compiler/CodeAnalysis/Binding/Binder_old.cs:4232-4263 | the pass succeeds exactly when no argument is named before an unnamed one, repeats a name, or (for templates) is not constant |
| BinderChecks.AccessChain | src/Buckle/Compiler/CodeAnalysis/Binding/Binder_old.cs:4499-4516 | the chain of a member access starts with the access's own type |
| BinderChecks.ChainConstantalityAlongChain | src/Buckle/Compiler/CodeAnalysis/Binding/Binder_old.cs:4499-4516 | the expression is constant exactly when some type along its member-access chain is, and likewise for constant references |
| BinderChecks.ChainConstantAlongChain | src/Buckle/Compiler/CodeAnalysis/Binding/Binder_old.cs:4499-4516 | the chain is constant exactly when some type along its member-access chain is |
| BinderChecks.ChainConstantReferenceAlongChain | src/Buckle/Compiler/CodeAnalysis/Binding/Binder_old.cs:4499-4516 | the chain is a constant reference exactly when some type along its member-access chain is |
| BinderChecks.ComputableReadsAllowed | src/Buckle/Compiler/CodeAnalysis/Binding/Binder_old.cs:4703-4737 | a compile-time computable expression only reads allowed variables, and allowing more variables keeps it computable |
| BinderChecks.Binder.CheckModifierAlreadyApplied | src/Buckle/Compiler/CodeAnalysis/Binding/Binder_old.cs:855-865 | answers true, and reports, exactly when the flag is already set |
| BinderChecks.Binder.BindMethodDeclarationModifiers | src/Buckle/Compiler/CodeAnalysis/Binding/Binder_old.cs:1065-1194 | the flags and diagnostics are those of folding the keywords left to right |
| BinderChecks.Binder.BindParameters | src/Buckle/Compiler/CodeAnalysis/Binding/Binder_old.cs:696-746 | the parameters and diagnostics are those of the whole loop |
| BinderChecks.Binder.PartiallyBindArguments | src/Buckle/Compiler/CodeAnalysis/Binding/Binder_old.cs:4224-4266 | answers true exactly when no argument is rejected, and binds every argument in order |
| BinderChecks.Binder.BindEachArgument | src/Buckle/Compiler/CodeAnalysis/Binding/Binder_old.cs:4224-4266 | the loop over the arguments ends in the state the argument steps build, one step per argument in order |
| BinderChecks.Binder.ConstructInnerName | src/Buckle/Compiler/CodeAnalysis/Binding/Binder_old.cs:651-663 | the name is `<`, the enclosing names from outermost to innermost joined by `::`, then `>g__` and the innermost name |
| BinderChecks.Binder.CheckConstantality | src/Buckle/Compiler/CodeAnalysis/Binding/Binder_old.cs:4499-4516 | the answer is the constantness of the member-access chain |
| OverloadResolution.DefaultCount | src/Buckle/Compiler/CodeAnalysis/Binding/OverloadResolution/OverloadResolution.cs:89 | at most one per parameter |
| OverloadResolution.CapturedCount | src/Buckle/Compiler/CodeAnalysis/Binding/OverloadResolution/OverloadResolution.cs:96-101 | at most one per parameter |
| OverloadResolution.ArityAccepted | src/Buckle/Compiler/CodeAnalysis/Binding/OverloadResolution/OverloadResolution.cs:93-118 | a candidate that passes the arity check has no more arguments than parameters, and at least as many as its parameters without defaults unless it is a local function whose captured parameters make up the difference |
| OverloadResolution.FirstIndexOf | src/Buckle/Compiler/CodeAnalysis/Binding/OverloadResolution/OverloadResolution.cs:535-545 | the index found holds the name and no earlier parameter does; none means no parameter has the name |
| OverloadResolution.RearrangeStepOk | src/Buckle/Compiler/CodeAnalysis/Binding/OverloadResolution/OverloadResolution.cs:524-565 | from a state that can go on, a step fails exactly on an argument that names an unknown or already claimed parameter |
| OverloadResolution.RearrangeStepKeeps | src/Buckle/Compiler/CodeAnalysis/Binding/OverloadResolution/OverloadResolution.cs:524-565 | a step that goes on keeps the rearrangement invariant |
| OverloadResolution.RearrangeResult | src/Buckle/Compiler/CodeAnalysis/Binding/OverloadResolution/OverloadResolution.cs:511-568 | the rearrangement succeeds exactly when no argument names an unknown or already claimed parameter; it then reports nothing, maps each positional argument to its position and each named one to its parameter, and marks exactly the claimed names |
| OverloadResolution.RearrangeFailureSticks | src/Buckle/Compiler/CodeAnalysis/Binding/OverloadResolution/OverloadResolution.cs:511-568 | a failure is never undone, the loop breaks only after one, and at most two diagnostics are reported |
| OverloadResolution.RearrangeOneDiagnosticWhileRunning | src/Buckle/Compiler/CodeAnalysis/Binding/OverloadResolution/OverloadResolution.cs:511-568 | before the loop breaks, a failure has been reported exactly once |
| OverloadResolution.RearrangeStopped | src/Buckle/Compiler/CodeAnalysis/Binding/OverloadResolution/OverloadResolution.cs:511-568 | after the loop has broken out, later arguments change nothing |
| OverloadResolution.CalculateArgumentRearrangements | src/Buckle/Compiler/CodeAnalysis/Binding/OverloadResolution/OverloadResolution.cs:511-568 | the loop computes the rearrangement specified by the argument-by-argument steps |
| OverloadResolution.UncapturedNames | src/Buckle/Compiler/CodeAnalysis/Binding/OverloadResolution/OverloadResolution.cs:131-140 | every uncaptured parameter name before n is collected |
| OverloadResolution.DefaultsFill | src/Buckle/Compiler/CodeAnalysis/Binding/OverloadResolution/OverloadResolution.cs:131-140 | filling in defaults keeps every existing entry, marks every uncaptured name seen, and maps each unclaimed uncaptured parameter to the next slot |
| OverloadResolution.AppendDefaults | src/Buckle/Compiler/CodeAnalysis/Binding/OverloadResolution/OverloadResolution.cs:131-140 | the loop computes the default-filling specification |
| OverloadResolution.ArgumentOrderAsWritten | src/Buckle/Compiler/CodeAnalysis/Binding/OverloadResolution/OverloadResolution.cs:581 | as written, the binding order is defined only when every position has an entry |
| OverloadResolution.MissingRequiredArgumentThrows | src/Buckle/Compiler/CodeAnalysis/Binding/OverloadResolution/OverloadResolution.cs:581 | for `f(a, b = 1)` called as `f(b: 2)`, the checks pass but position 0 has no entry, so the lookup throws |
| OverloadResolution.ArgumentOrder | src/Buckle/Compiler/CodeAnalysis/Binding/OverloadResolution/OverloadResolution.cs:581 | succeeds exactly when every position has an entry, and otherwise names the first parameter without an argument |
| OverloadResolution.FirstMissing | src/Buckle/Compiler/CodeAnalysis/Binding/OverloadResolution/OverloadResolution.cs:581 | the first position without an entry, or none when every position has one |
| OverloadResolution.CastScore | src/Buckle/Compiler/CodeAnalysis/Binding/OverloadResolution/OverloadResolution.cs:613-618 | an argument adds 3 for adding `any`, 2 for a non-identity cast and 1 for adding nullability, and adds 0 exactly for an identity cast that adds neither |
| OverloadResolution.ArgumentsScore | src/Buckle/Compiler/CodeAnalysis/Binding/OverloadResolution/OverloadResolution.cs:570-624 | a list scores at most six per argument |
| OverloadResolution.ExactMatchScoresZero | src/Buckle/Compiler/CodeAnalysis/Binding/OverloadResolution/OverloadResolution.cs:570-624 | a list scores 0 exactly when every argument converts by identity adding neither `any` nor nullability |
| OverloadResolution.RearrangeArguments | src/Buckle/Compiler/CodeAnalysis/Binding/OverloadResolution/OverloadResolution.cs:570-624 | casts the arguments in parameter order and adds their score, or reports the first parameter without an argument |
| OverloadResolution.MinScore | src/Buckle/Compiler/CodeAnalysis/Binding/OverloadResolution/OverloadResolution.cs:626-650 | the lowest score among the clean candidates seen, `int.MaxValue` if none |
| OverloadResolution.Scoring | src/Buckle/Compiler/CodeAnalysis/Binding/OverloadResolution/OverloadResolution.cs:626-650 | the clean candidates seen with a given score, in order |
| OverloadResolution.ScoringBelowMinEmpty | src/Buckle/Compiler/CodeAnalysis/Binding/OverloadResolution/OverloadResolution.cs:626-650 | no clean candidate scores below the running minimum |
| OverloadResolution.Selection.UpdateScore | src/Buckle/Compiler/CodeAnalysis/Binding/OverloadResolution/OverloadResolution.cs:626-650 | a candidate with diagnostics changes nothing; a lower score replaces the candidates, an equal one joins them |
| OverloadResolution.Selection.SelectLowest | src/Buckle/Compiler/CodeAnalysis/Binding/OverloadResolution/OverloadResolution.cs:79-196 | after the loop the minimum is the lowest clean score and the possible overloads are exactly the clean candidates with that score, in order |
| OverloadResolution.AccessibleOnly | src/Buckle/Compiler/CodeAnalysis/Binding/OverloadResolution/OverloadResolution.cs:240-254 | keeps exactly the accessible candidates |
| OverloadResolution.MinKey | src/Buckle/Compiler/CodeAnalysis/Binding/OverloadResolution/OverloadResolution.cs:258-269 | the lowest key, `int.MaxValue` if there is none |
| OverloadResolution.WithKey | src/Buckle/Compiler/CodeAnalysis/Binding/OverloadResolution/OverloadResolution.cs:258-269 | keeps candidates, never adds one |
| OverloadResolution.WithKeyExact | src/Buckle/Compiler/CodeAnalysis/Binding/OverloadResolution/OverloadResolution.cs:258-269 | a candidate is kept exactly when it has the key |
| OverloadResolution.WithKeyBelowMin | src/Buckle/Compiler/CodeAnalysis/Binding/OverloadResolution/OverloadResolution.cs:258-269 | a key below every key keeps nothing |
| OverloadResolution.KeepMinimal | src/Buckle/Compiler/CodeAnalysis/Binding/OverloadResolution/OverloadResolution.cs:256-288 | the loop keeps exactly the candidates with the lowest key |
| OverloadResolution.Decide | src/Buckle/Compiler/CodeAnalysis/Binding/OverloadResolution/OverloadResolution.cs:183-293 | a lone candidate with errors fails; no overload among several fails with a no-overload error; several left after tie-breaks are ambiguous; otherwise the one left is chosen (or the lone candidate) |
| OverloadResolution.SingleOrDefault | src/Buckle/Compiler/CodeAnalysis/Binding/OverloadResolution/OverloadResolution.cs:289 | a candidate exactly when there is one |
| OverloadResolution.TieBreakPrefersFewerParameters | src/Buckle/Compiler/CodeAnalysis/Binding/OverloadResolution/OverloadResolution.cs:256-269 | a tie broken by parameter count picks a candidate with the fewest parameters |
| OverloadResolution.TieBreakPrefersNearestBase | src/Buckle/Compiler/CodeAnalysis/Binding/OverloadResolution/OverloadResolution.cs:272-287 | a tie broken by depth picks a candidate from the nearest base type |
| OverloadResolution.TieBreakKeepsOne | src/Buckle/Compiler/CodeAnalysis/Binding/OverloadResolution/OverloadResolution.cs:256-288 | a tie-break never empties a non-empty list |
| OverloadResolution.CleanUpDiagnostics | src/Buckle/Compiler/CodeAnalysis/Binding/OverloadResolution/OverloadResolution.cs:652-661 | with several overloads the candidates' diagnostics are discarded and the earlier ones restored; with one they are kept after the earlier ones |
| BoundTreeRewriter.RewriteExpression | src/Buckle/Compiler/CodeAnalysis/Binding/BoundTreeRewriter.cs:178-226 | an expression that comes back marked unchanged is the very node given; a literal or constant becomes a fresh literal of its value |
| BoundTreeRewriter.RewriteList | src/Buckle/Compiler/CodeAnalysis/Binding/BoundTreeRewriter.cs:411-431 | the rewritten list has the same length, and is the very list when marked unchanged |
| BoundTreeRewriter.ListElements | src/Buckle/Compiler/CodeAnalysis/Binding/BoundTreeRewriter.cs:411-431 | the list rewrite is the element-wise rewrite, and keeps the list exactly when it keeps every element |
| BoundTreeRewriter.RewriteArguments | src/Buckle/Compiler/CodeAnalysis/Binding/BoundTreeRewriter.cs:411-431 | the result is null exactly when no argument changed; otherwise it has one rewritten argument per argument |
| BoundTreeRewriter.RewriteStatement | src/Buckle/Compiler/CodeAnalysis/Binding/BoundTreeRewriter.cs:17-36 | a statement that comes back marked unchanged is the very node given |
| BoundTreeRewriter.RewriteStatements | src/Buckle/Compiler/CodeAnalysis/Binding/BoundTreeRewriter.cs:155-176 | the rewritten statements have the same length, and are the very list when marked unchanged |
| BoundTreeRewriter.StatementsElements | src/Buckle/Compiler/CodeAnalysis/Binding/BoundTreeRewriter.cs:155-176 | the block rewrite is the element-wise rewrite, and keeps the block exactly when it keeps every statement |
| BoundTreeRewriter.RewriteBlockStatement | src/Buckle/Compiler/CodeAnalysis/Binding/BoundTreeRewriter.cs:155-176 | the loop that copies the unchanged prefix from the first change on gives the block rewrite, of the same length |
| BoundTreeRewriter.SameIffNoConstant | src/Buckle/Compiler/CodeAnalysis/Binding/BoundTreeRewriter.cs:56-60 | an expression comes back as the identical node exactly when it holds no constant |
| BoundTreeRewriter.ListSameIffNoConstant | src/Buckle/Compiler/CodeAnalysis/Binding/BoundTreeRewriter.cs:411-431 | a list comes back identical exactly when none of its expressions holds a constant |
| BoundTreeRewriter.StmtSameIffNoConstant | src/Buckle/Compiler/CodeAnalysis/Binding/BoundTreeRewriter.cs:69-72 | a statement comes back as the identical node exactly when it holds no constant |
| BoundTreeRewriter.StmtsSameIffNoConstant | src/Buckle/Compiler/CodeAnalysis/Binding/BoundTreeRewriter.cs:155-176 | a block comes back identical exactly when none of its statements holds a constant |
| BoundTreeRewriter.RewriteIdempotent | src/Buckle/Compiler/CodeAnalysis/Binding/BoundTreeRewriter.cs:232-239 | rewriting a rewritten expression changes nothing more |
| BoundTreeRewriter.OperatorIdempotent | src/Buckle/Compiler/CodeAnalysis/Binding/BoundTreeRewriter.cs:374-381 | rewriting a rewritten operator expression changes nothing more |
| BoundTreeRewriter.ListIdempotent | src/Buckle/Compiler/CodeAnalysis/Binding/BoundTreeRewriter.cs:411-431 | rewriting a rewritten list changes nothing more |
| BoundTreeExpander.Simplify | src/Buckle/Compiler/CodeAnalysis/Binding/BoundTreeExpander.cs:12-17 | a singleton list simplifies to its sole statement, any other list to a block of it |
| BoundTreeExpander.ExpandExpression | src/Buckle/Compiler/CodeAnalysis/Binding/BoundTreeExpander.cs:178-235 | an expression that hoists nothing and has no hoisting children stands for itself, and the replacement keeps the expression's kind |
| BoundTreeExpander.ExpandArguments | src/Buckle/Compiler/CodeAnalysis/Binding/BoundTreeExpander.cs:347-366 | one replacement per argument |
| BoundTreeExpander.ExpandCallExpression | src/Buckle/Compiler/CodeAnalysis/Binding/BoundTreeExpander.cs:347-366 | the argument loop hoists the arguments' statements in order and rebuilds the call from their replacements |
| BoundTreeExpander.ExpandStatement | src/Buckle/Compiler/CodeAnalysis/Binding/BoundTreeExpander.cs:19-40 | the expansion is never empty and ends with a statement of the kind expanded |
| BoundTreeExpander.ExpandStatements | src/Buckle/Compiler/CodeAnalysis/Binding/BoundTreeExpander.cs:46-53 | a block's expansion has at least one statement per statement |
| BoundTreeExpander.ExpandBlockStatement | src/Buckle/Compiler/CodeAnalysis/Binding/BoundTreeExpander.cs:46-53 | the child loop gives the block expansion: one block holding the children's expansions in order |
| BoundTreeExpander.BaseExpandExpression | src/Buckle/Compiler/CodeAnalysis/Binding/BoundTreeExpander.cs:296-306 | with nothing to hoist, every expression is its own replacement and hoists no statement |
| BoundTreeExpander.BaseExpandArguments | src/Buckle/Compiler/CodeAnalysis/Binding/BoundTreeExpander.cs:347-366 | with nothing to hoist, the arguments are unchanged |
| BoundTreeExpander.BaseExpandStatement | src/Buckle/Compiler/CodeAnalysis/Binding/BoundTreeExpander.cs:263-275 | with nothing to hoist, every statement expands to itself alone |
| BoundTreeExpander.BaseExpandStatements | src/Buckle/Compiler/CodeAnalysis/Binding/BoundTreeExpander.cs:46-53 | with nothing to hoist, a block's statements are unchanged |
| BoundTreeExpander.ExpandStatementsAppend | src/Buckle/Compiler/CodeAnalysis/Binding/BoundTreeExpander.cs:46-53 | block expansion distributes over concatenation: children are expanded independently and in order |
| Lowerer.LabelGenerator.GenerateLabel | src/Buckle/Compiler/CodeAnalysis/Lowering/Lowerer.cs:687-691 | the counter goes up by one first and the label returned is named after the new count, so the first is `Label1` |
| Lowerer.LabelNameInjective | src/Buckle/Compiler/CodeAnalysis/Lowering/Lowerer.cs:687-691 | two generated labels with the same name were generated at the same count, so labels from one counter never clash |
| Lowerer.LowerExpression | src/Buckle/Compiler/CodeAnalysis/Lowering/Lowerer.cs:472-496 | outside transpiler mode no compound assignment, prefix or postfix increment survives; in both modes no constant, no unary `+` and no `??` node survives at the top |
| Lowerer.LowerRemovesCoalescing | src/Buckle/Compiler/CodeAnalysis/Lowering/Lowerer.cs:269-277 | in both modes `l ?? r` is rewritten into `HasValue(l) ? Value(l) : r`, so no `??` is left anywhere the rewriter visits |
| Lowerer.LowerBinaryIdempotent | src/Buckle/Compiler/CodeAnalysis/Lowering/Lowerer.cs:269-277 | the null conditional that `??` becomes is lowered already: lowering it again changes nothing |
| Lowerer.LowerArguments | src/Buckle/Compiler/CodeAnalysis/Lowering/Lowerer.cs:388-470 | one lowered argument per argument |
| Lowerer.LowerExpressionIdempotent | src/Buckle/Compiler/CodeAnalysis/Lowering/Lowerer.cs:327-358 | lowering a lowered expression changes nothing, in both modes |
| Lowerer.LowerArgumentsIdempotent | src/Buckle/Compiler/CodeAnalysis/Lowering/Lowerer.cs:388-470 | lowering lowered arguments changes nothing |
| Lowerer.IncrementIdempotent | src/Buckle/Compiler/CodeAnalysis/Lowering/Lowerer.cs:555-624 | an increment or decrement lowered twice is what it was lowered to once |
| Lowerer.LowerStep | src/Buckle/Compiler/CodeAnalysis/Lowering/Lowerer.cs:555-576 | lowering `x += 1` (or `x -= 1`) lowers `x` and keeps the step |
| Lowerer.Lower | src/Buckle/Compiler/CodeAnalysis/Lowering/Lowerer.cs:38-216 | the label counter never goes back; in transpiler mode it does not move and every statement keeps its kind |
| Lowerer.LowerStatements | src/Buckle/Compiler/CodeAnalysis/Lowering/Lowerer.cs:38-216 | one lowered statement per statement, the counter threaded left to right and never going back |
| Lowerer.LowerCountsLabels | src/Buckle/Compiler/CodeAnalysis/Lowering/Lowerer.cs:38-216 | outside transpiler mode the counter advances by exactly one label per `if` without else and per `for`, and two per `if` with else |
| Lowerer.LowerStatementsCountsLabels | src/Buckle/Compiler/CodeAnalysis/Lowering/Lowerer.cs:38-216 | the same count for a list of statements |
| Lowerer.LowerRemovesControlFlow | src/Buckle/Compiler/CodeAnalysis/Lowering/Lowerer.cs:38-216 | outside transpiler mode no `if`, `while`, `do while` or `for` is left anywhere in the lowered statement |
| Lowerer.LowerStatementsRemoveControlFlow | src/Buckle/Compiler/CodeAnalysis/Lowering/Lowerer.cs:38-216 | the same for every statement of a block |
| Lowerer.LeavesAllAppend | src/Buckle/Compiler/CodeAnalysis/Lowering/Lowerer.cs:658-673 | flattening two lists one after the other is flattening their concatenation |
| Lowerer.LeavesHaveNoBlocks | src/Buckle/Compiler/CodeAnalysis/Lowering/Lowerer.cs:658-673 | no block is left after flattening |
| Lowerer.UnstructuredLeavesAreFlat | src/Buckle/Compiler/CodeAnalysis/Lowering/Lowerer.cs:658-673 | flattening a lowered statement leaves only labels, gotos, conditional gotos, returns, declarations and expression statements |
| Lowerer.SimplifyKeepsLeaves | src/Buckle/Compiler/CodeAnalysis/Lowering/Lowerer.cs:30-36 | the expander's wrapping of a statement list flattens to the same statements as the list |
| Lowerer.Flatten | src/Buckle/Compiler/CodeAnalysis/Lowering/Lowerer.cs:658-685 | the result is one block of the flattened statements, with a trailing `return` added exactly when the method returns void and the body is empty or its last statement can fall through; a void method's body then always ends in a return or goto |
| Lowerer.CollectLeaves | src/Buckle/Compiler/CodeAnalysis/Lowering/Lowerer.cs:661-673 | the stack loop collects exactly the flattened statements, in order |
| Lowerer.PushStatements | src/Buckle/Compiler/CodeAnalysis/Lowering/Lowerer.cs:668-669 | pushing a block's statements in reverse leaves the first of them on top of the stack |
| Lowerer.LowerBody | src/Buckle/Compiler/CodeAnalysis/Lowering/Lowerer.cs:30-36 | a lowered method body is a single block with no nested block; outside transpiler mode every statement in it is flat; a void body never falls off its end |
| Evaluator.Lookup | src/Buckle/Compiler/CodeAnalysis/Evaluating/Evaluator.cs:152-169 | a local is found iff some frame holds it, and the value comes from the topmost frame that does |
| Evaluator.Store | src/Buckle/Compiler/CodeAnalysis/Evaluating/Evaluator.cs:300-320 | an assignment succeeds iff the local exists; afterwards a read of it gives the new value, every other local reads as before, and the stack depth is unchanged |
| Evaluator.Declare | src/Buckle/Compiler/CodeAnalysis/Evaluating/Evaluator.cs:246-279 | declaring a local needs a frame; afterwards the local reads as its initial value and the stack depth is unchanged |
| Evaluator.LabelMap | src/Buckle/Compiler/CodeAnalysis/Evaluating/Evaluator.cs:409-414 | building the label table fails only with the exception of a duplicate dictionary key |
| Evaluator.LabelMapFails | src/Buckle/Compiler/CodeAnalysis/Evaluating/Evaluator.cs:409-414 | the label table fails exactly when some label occurs twice in the block |
| Evaluator.LabelMapHasLabels | src/Buckle/Compiler/CodeAnalysis/Evaluating/Evaluator.cs:409-414 | every label of the block maps to the index of the statement after it |
| Evaluator.LabelMapEntries | src/Buckle/Compiler/CodeAnalysis/Evaluating/Evaluator.cs:409-414 | every entry of the table is the index after a label of that name |
| Evaluator.BuildLabelMap | src/Buckle/Compiler/CodeAnalysis/Evaluating/Evaluator.cs:409-414 | the loop builds the same table, or the same failure, as the label-table function |
| Evaluator.Catch | src/Buckle/Compiler/CodeAnalysis/Evaluating/Evaluator.cs:486-510 | inside a try the exception propagates; otherwise it is recorded, the result is null and no value is reported |
| Evaluator.EvalExpr | src/Buckle/Compiler/CodeAnalysis/Evaluating/Evaluator.cs:541-585 | evaluating an expression that completes leaves the locals stack as deep as it was |
| Evaluator.ShortCircuit | src/Buckle/Compiler/CodeAnalysis/Evaluating/Evaluator.cs:1054-1078 | the short-circuit operators leave the locals stack as deep as it was |
| Evaluator.EvalArgs | src/Buckle/Compiler/CodeAnalysis/Evaluating/Evaluator.cs:905-913 | when the arguments bind, there are no more arguments than parameters and each argument's parameter is in the new frame |
| Evaluator.Next | src/Buckle/Compiler/CodeAnalysis/Evaluating/Evaluator.cs:416-483 | one loop iteration keeps the stack depth, and a block that ends normally yields its last value |
| Evaluator.Run | src/Buckle/Compiler/CodeAnalysis/Evaluating/Evaluator.cs:416-483 | the statement loop keeps the stack depth and ends with the last value it computed |
| Evaluator.ExecBlock | src/Buckle/Compiler/CodeAnalysis/Evaluating/Evaluator.cs:403-511 | an outermost block never lets an exception escape, and a block keeps the stack depth |
| Evaluator.Evaluator.constructor | src/Buckle/Compiler/CodeAnalysis/Evaluating/Evaluator.cs:40-64 | a new evaluator has one empty locals frame, no last value and no exceptions |
| Evaluator.Evaluator.EvaluateStatement | src/Buckle/Compiler/CodeAnalysis/Evaluating/Evaluator.cs:403-511 | running a block on the evaluator's fields gives the block semantics, and the fields hold the resulting state |
| Evaluator.Evaluator.RunStatements | src/Buckle/Compiler/CodeAnalysis/Evaluating/Evaluator.cs:416-483 | the program-counter loop computes the statement-loop semantics and leaves its state in the fields |
| Evaluator.Evaluator.Step | src/Buckle/Compiler/CodeAnalysis/Evaluating/Evaluator.cs:419-482 | one iteration on the fields computes the transition of the semantics |
| Evaluator.Evaluator.EvaluateExpressionStatement | src/Buckle/Compiler/CodeAnalysis/Evaluating/Evaluator.cs:513-515 | an expression statement's value becomes the last value, as the transition says |
| Evaluator.Evaluator.DeclareLocal | src/Buckle/Compiler/CodeAnalysis/Evaluating/Evaluator.cs:533-539 | a local declaration stores the initializer's value in the top frame, as the transition says |
| Evaluator.Evaluator.JumpIf | src/Buckle/Compiler/CodeAnalysis/Evaluating/Evaluator.cs:442-452 | a conditional goto on the fields follows the transition: a jump iff the condition equals jumpIfTrue |
| Evaluator.Evaluator.EvaluateReturn | src/Buckle/Compiler/CodeAnalysis/Evaluating/Evaluator.cs:470-479 | a return on the fields ends the block as the transition says |
| Evaluator.Evaluator.InvokeMethod | src/Buckle/Compiler/CodeAnalysis/Evaluating/Evaluator.cs:877-950 | a call computes the call semantics, and the locals stack is as deep afterwards as before |
| EvaluatorValues.Wrap | src/Buckle/Compiler/CodeAnalysis/Evaluating/Evaluator.cs:1134-1215 | the wrapped result is an `int` congruent to the exact one modulo 2^32 |
| EvaluatorValues.TruncDivRem | src/Buckle/Compiler/CodeAnalysis/Evaluating/Evaluator.cs:1134-1215 | quotient times divisor plus remainder is the dividend; the remainder is smaller than the divisor and has the dividend's sign |
| EvaluatorValues.DivisionTruncates | src/Buckle/Compiler.Tests/CodeAnalysis/Evaluating/EvaluatorTests.cs:67 | 9 / 2 is 4, -9 / 2 is -4 and -9 % 2 is -1 |
| EvaluatorValues.Bitwise | src/Buckle/Compiler/CodeAnalysis/Evaluating/Evaluator.cs:1134-1215 | bitwise operators on two `int`s give an `int` |
| EvaluatorValues.BinaryValue | src/Buckle/Compiler/CodeAnalysis/Evaluating/Evaluator.cs:1134-1215 | every integer result of a binary operator is an `int` |
| EvaluatorValues.UnaryValue | src/Buckle/Compiler/CodeAnalysis/Evaluating/Evaluator.cs:1001-1028 | every integer result of a unary operator is an `int` |
| EvaluatorValues.TruncDivInRange | src/Buckle/Compiler/CodeAnalysis/Evaluating/Evaluator.cs:1134-1215 | the truncated quotient of two `int`s is an `int`, except for the smallest `int` divided by -1 |
| EvaluatorValues.DivisionValue | src/Buckle/Compiler/CodeAnalysis/Evaluating/Evaluator.cs:1134-1215 | integer division raises on a zero divisor and on the overflow case, and otherwise gives the truncated quotient |
| EvaluatorValues.NegationWraps | src/Buckle/Compiler/CodeAnalysis/Evaluating/Evaluator.cs:1001-1028 | negating the smallest `int` gives itself |
| EvaluatorProperties.GotoLandsAfterLabel | src/Buckle/Compiler/CodeAnalysis/Evaluating/Evaluator.cs:438-441 | a goto continues at the statement after its label, with the state unchanged |
| EvaluatorProperties.GotoMissingLabelThrows | src/Buckle/Compiler/CodeAnalysis/Evaluating/Evaluator.cs:438-441 | a goto to a label the block lacks throws KeyNotFoundException |
| EvaluatorProperties.ConditionalGotoJumpsIff | src/Buckle/Compiler/CodeAnalysis/Evaluating/Evaluator.cs:442-452 | a conditional goto jumps after its label iff the condition equals jumpIfTrue, else goes on with the next statement |
| EvaluatorProperties.ReturnStops | src/Buckle/Compiler/CodeAnalysis/Evaluating/Evaluator.cs:470-479 | statements after a return never run, the block's value is the returned one, and hasValue holds iff the expression is non-empty |
| EvaluatorProperties.AndShortCircuits | src/Buckle/Compiler/CodeAnalysis/Evaluating/Evaluator.cs:1054-1066 | `&&` with a null or false left operand is false whatever the right operand is |
| EvaluatorProperties.OrShortCircuits | src/Buckle/Compiler/CodeAnalysis/Evaluating/Evaluator.cs:1067-1078 | a conditional or with a true left operand is true whatever the right operand is |
| EvaluatorProperties.RightOperandDecides | src/Buckle/Compiler/CodeAnalysis/Evaluating/Evaluator.cs:1054-1078 | once the left operand does not decide, the right operand decides, with null read as false |
| EvaluatorProperties.BinaryShortCircuits | src/Buckle/Compiler/CodeAnalysis/Evaluating/Evaluator.cs:1054-1078 | the conditional and and conditional or operators hand the left operand's value, and the state it left, to the short-circuit rule |
| EvaluatorProperties.NullPropagates | src/Buckle/Compiler/CodeAnalysis/Evaluating/Evaluator.cs:1125-1126 | any other binary operator with a null operand gives null |
| EvaluatorProperties.UnaryNullPropagates | src/Buckle/Compiler/CodeAnalysis/Evaluating/Evaluator.cs:1001-1028 | a unary operator on null gives null |
| EvaluatorProperties.IntegerDivisionTruncates | src/Buckle/Compiler.Tests/CodeAnalysis/Evaluating/EvaluatorTests.cs:67 | `9 / 2` evaluates to 4, `-9 / 2` to -4, and `1 / 0` throws DivideByZeroException |
| EvaluatorProperties.TernaryChoosesBranch | src/Buckle/Compiler/CodeAnalysis/Evaluating/Evaluator.cs:1035-1041 | the conditional operator evaluates only the branch its condition picks |
| EvaluatorProperties.TernaryOnBool | src/Buckle/Compiler/CodeAnalysis/Evaluating/Evaluator.cs:1035-1041 | a boolean condition picks the first branch when true and the second when false, evaluated in the state the condition left |
| EvaluatorProperties.WrapStepBack | src/Buckle/Compiler/CodeAnalysis/Lowering/Lowerer.cs:611-622 | stepping an `int` up and back down by one gives it back, wrap-around included |
| EvaluatorProperties.LoweredIncrement | src/Buckle/Compiler/CodeAnalysis/Lowering/Lowerer.cs:611-622 | the lowered `x += 1` stores and yields the wrapped successor of `x` |
| EvaluatorProperties.LoweredPostfixIncrement | src/Buckle/Compiler/CodeAnalysis/Lowering/Lowerer.cs:611-622 | the lowered `x++` used as a value yields the old value and stores the wrapped successor |
| EvaluatorProperties.AssignmentStores | src/Buckle/Compiler/CodeAnalysis/Evaluating/Evaluator.cs:992-999 | an assignment stores the value where a later read finds it and leaves other locals alone |
| EvaluatorProperties.DivisionProgram | src/Buckle/Compiler.Tests/CodeAnalysis/Evaluating/EvaluatorTests.cs:67 | a block declaring `x = 9` and returning `x / 2` evaluates to 4, with a value and no exception |
| BoundNodePrinter.Quote | src/Buckle/Buckle/IO/BoundNodePrinter.cs:491-493 | a printed string literal starts and ends with a double quote |
| BoundNodePrinter.QuoteRoundTrip | src/Buckle/Buckle/IO/BoundNodePrinter.cs:491-493 | reading a printed string literal back, undoubling its quotes, gives the original string |
| BoundNodePrinter.EscapeLength | src/Buckle/Buckle/IO/BoundNodePrinter.cs:491-493 | the printed literal is longer by exactly one character per double quote of the string |
| BoundNodePrinter.LiteralText | src/Buckle/Buckle/IO/BoundNodePrinter.cs:479-499 | a literal prints unless its type is none of null, bool, int, string or decimal; a string literal prints quoted and reads back |
| BoundNodePrinter.WriteLiteralExpression | src/Buckle/Buckle/IO/BoundNodePrinter.cs:479-499 | writes the literal's text, and fails exactly for a literal of an unexpected type |
| BoundNodePrinter.ExprTextDefined | src/Buckle/Buckle/IO/BoundNodePrinter.cs:46-133 | printing an expression throws exactly when it holds a literal of an unexpected type |
| BoundNodePrinter.NestedParenthesisedIff | src/Buckle/Buckle/IO/BoundNodePrinter.cs:394-405 | an operand is written in parentheses exactly when the parent's precedence is at least its own |
| BoundNodePrinter.EqualPrecedenceParenthesised | src/Buckle/Buckle/IO/BoundNodePrinter.cs:469-477 | an operand of equal precedence is parenthesised on either side, so left and right nesting print apart |
| BoundNodePrinter.PrimaryNeverParenthesised | src/Buckle/Buckle/IO/BoundNodePrinter.cs:376-392 | literals and variables are never parenthesised |
| BoundNodePrinter.WriteExpression | src/Buckle/Buckle/IO/BoundNodePrinter.cs:46-133 | the writer ends up holding the expression's text; the empty expression writes nothing at all |
| BoundNodePrinter.WriteAssignmentExpression | src/Buckle/Buckle/IO/BoundNodePrinter.cs:457-463 | writes the left side, " = ", the right side |
| BoundNodePrinter.WriteUnaryExpression | src/Buckle/Buckle/IO/BoundNodePrinter.cs:501-506 | writes the operator, then the operand nested under unary precedence |
| BoundNodePrinter.WriteBinaryExpression | src/Buckle/Buckle/IO/BoundNodePrinter.cs:469-477 | writes both operands nested under the operator's precedence around the spaced operator |
| BoundNodePrinter.WriteTernaryExpression | src/Buckle/Buckle/IO/BoundNodePrinter.cs:342-354 | writes the three operands nested under the ternary precedence between the spaced operators |
| BoundNodePrinter.WriteNestedExpression | src/Buckle/Buckle/IO/BoundNodePrinter.cs:376-392 | writes the operand, parenthesised as an assignment's right side or the operand itself requires |
| BoundNodePrinter.WriteWithPrecedence | src/Buckle/Buckle/IO/BoundNodePrinter.cs:394-405 | writes the expression in parentheses iff the parent precedence is at least the current one |
| BoundNodePrinter.Brackets | src/Buckle/Buckle/IO/BoundNodePrinter.cs:31-39 | two characters per array dimension |
| BoundNodePrinter.BracketsAlternate | src/Buckle/Buckle/IO/BoundNodePrinter.cs:31-39 | the brackets alternate "[" and "]", one pair per dimension |
| BoundNodePrinter.WriteType | src/Buckle/Buckle/IO/BoundNodePrinter.cs:31-39 | writes the base type's name followed by one "[]" per dimension |
| BoundNodePrinter.StmtsOutStops | src/Buckle/Buckle/IO/BoundNodePrinter.cs:315-328 | once one statement of a block throws, printing the block throws |
| BoundNodePrinter.StmtKeepsIndent | src/Buckle/Buckle/IO/BoundNodePrinter.cs:46-133 | printing any statement leaves the indent as it was, only appends text, and ends the line unless the statement is an empty expression statement |
| BoundNodePrinter.BlockKeepsIndent | src/Buckle/Buckle/IO/BoundNodePrinter.cs:315-328 | a block raises the indent for its statements and restores it |
| BoundNodePrinter.IfKeepsIndent | src/Buckle/Buckle/IO/BoundNodePrinter.cs:270-292 | an if statement restores the indent and ends its line |
| BoundNodePrinter.WhileKeepsIndent | src/Buckle/Buckle/IO/BoundNodePrinter.cs:256-268 | a while statement restores the indent and ends its line |
| BoundNodePrinter.DoWhileKeepsIndent | src/Buckle/Buckle/IO/BoundNodePrinter.cs:190-204 | a do-while statement restores the indent and ends its line |
| BoundNodePrinter.LabelKeepsIndent | src/Buckle/Buckle/IO/BoundNodePrinter.cs:218-229 | printing a label never fails and leaves the indent unchanged |
| BoundNodePrinter.NestedKeepsIndent | src/Buckle/Buckle/IO/BoundNodePrinter.cs:178-188 | a nested statement restores the indent |
| BoundNodePrinter.NestedIndentsOneLevel | src/Buckle/Buckle/IO/BoundNodePrinter.cs:178-188 | a nested statement other than a block is written exactly as it would be one level deeper |
| BoundNodePrinter.NestedBlockNotIndented | src/Buckle/Buckle/IO/BoundNodePrinter.cs:178-188 | a nested block is written at the current level |
| BoundNodePrinter.LabelOneLevelOut | src/Buckle/Buckle/IO/BoundNodePrinter.cs:218-229 | a label at the start of an indented line is written one tab stop out, and the indent is kept |
| BoundNodePrinter.LabelAtOutermostLevel | src/Buckle/Buckle/IO/BoundNodePrinter.cs:218-229 | a label at indent 0 is written at indent 0 |
| BoundNodePrinter.WriteStatement | src/Buckle/Buckle/IO/BoundNodePrinter.cs:46-133 | the writer's new state is the statement's printed form, and printing fails exactly when that form is undefined |
| BoundNodePrinter.WriteNestedStatement | src/Buckle/Buckle/IO/BoundNodePrinter.cs:178-188 | indents a non-block statement one level for its duration |
| BoundNodePrinter.WriteBlockStatement | src/Buckle/Buckle/IO/BoundNodePrinter.cs:315-328 | writes "{", the statements one level deeper in order, then "}" and a line break |
| BoundNodePrinter.WriteExpressionStatement | src/Buckle/Buckle/IO/BoundNodePrinter.cs:307-313 | writes nothing for an empty expression, otherwise the expression and a line break |
| BoundNodePrinter.WriteVariableDeclarationStatement | src/Buckle/Buckle/IO/BoundNodePrinter.cs:295-305 | writes the type, the name, " = " and the initializer on one line |
| BoundNodePrinter.WriteIfStatement | src/Buckle/Buckle/IO/BoundNodePrinter.cs:270-292 | writes the condition line, the nested then-part, and the else-part when there is one |
| BoundNodePrinter.WriteWhileStatement | src/Buckle/Buckle/IO/BoundNodePrinter.cs:256-268 | writes the condition line, the nested body and the closing brace |
| BoundNodePrinter.WriteDoWhileStatement | src/Buckle/Buckle/IO/BoundNodePrinter.cs:190-204 | writes "do {", the nested body, then the closing condition line |
| BoundNodePrinter.WriteLabelStatement | src/Buckle/Buckle/IO/BoundNodePrinter.cs:218-229 | writes the label one level out and restores the indent |
| BoundNodePrinter.WriteConditionalGotoStatement | src/Buckle/Buckle/IO/BoundNodePrinter.cs:206-216 | writes "goto", the label, "if" or "unless", and the condition |
| BoundNodePrinter.WriteReturnStatement | src/Buckle/Buckle/IO/BoundNodePrinter.cs:167-175 | writes "return", then the expression after a space when there is one |
| ILEmitter.Flatten | src/Buckle/Compiler/CodeAnalysis/Emitting/ILEmitter.cs:1252-1271 | a string addition of two strings is split into its operands, left to right, none of them itself such an addition and all strings; any other operand that is not a string fails, and a non-addition string is its own single operand |
| ILEmitter.FlattenKeepsValue | src/Buckle/Compiler/CodeAnalysis/Emitting/ILEmitter.cs:1252-1271 | the flattened operands joined together have the value of the original addition |
| ILEmitter.FoldConstants | src/Buckle/Compiler/CodeAnalysis/Emitting/ILEmitter.cs:1274-1298 | the loop yields what the fold specification yields, with the last run of constants flushed at the end |
| ILEmitter.EmitKeeps | src/Buckle/Compiler/CodeAnalysis/Emitting/ILEmitter.cs:1295-1296 | flushing a run adds its text as one constant and no non-constant node |
| ILEmitter.FoldKeepsValue | src/Buckle/Compiler/CodeAnalysis/Emitting/ILEmitter.cs:1274-1298 | the output so far plus the gathered text has the value of the input |
| ILEmitter.FoldKeepsNonConstants | src/Buckle/Compiler/CodeAnalysis/Emitting/ILEmitter.cs:1287-1292 | the output so far keeps the input's non-constant nodes, in order |
| ILEmitter.FoldWellFolded | src/Buckle/Compiler/CodeAnalysis/Emitting/ILEmitter.cs:1274-1298 | the output so far has no empty constant and no two neighbouring constants, and unless empty ends in a non-constant node |
| ILEmitter.FoldConstantsCorrect | src/Buckle/Compiler/CodeAnalysis/Emitting/ILEmitter.cs:1274-1298 | folding keeps the value of the concatenation and its non-constant nodes in order, and leaves no empty constant and no two neighbouring constants |
| ILEmitter.LoadedStore | src/Buckle/Compiler/CodeAnalysis/Emitting/ILEmitter.cs:1236-1241 | storing one array element loads exactly that node |
| ILEmitter.EmitLoads | src/Buckle/Compiler/CodeAnalysis/Emitting/ILEmitter.cs:1213-1234 | one load per node, in order |
| ILEmitter.EmitArrayConcat | src/Buckle/Compiler/CodeAnalysis/Emitting/ILEmitter.cs:1235-1244 | the array's length and creation, then for each index a duplicate, the index, the node and a store, then one call; every node is loaded once, in order |
| ILEmitter.EmitConcat | src/Buckle/Compiler/CodeAnalysis/Emitting/ILEmitter.cs:1209-1247 | the empty string for no node, the node itself for one, the fixed-arity concatenation for two to four, the array concatenation beyond; in every case the nodes are loaded exactly once, in order |
| ILEmitter.Patched | src/Buckle/Compiler/CodeAnalysis/Emitting/ILEmitter.cs:522-528 | patching leaves the body's length unchanged |
| ILEmitter.FixBranches | src/Buckle/Compiler/CodeAnalysis/Emitting/ILEmitter.cs:522-528 | the instruction array after the loop is the body with the fixups applied in recorded order |
| ILEmitter.PatchedBranches | src/Buckle/Compiler/CodeAnalysis/Emitting/ILEmitter.cs:522-528 | when each branch was recorded once, every recorded branch points at its label's instruction, every opcode is as emitted, and every unrecorded instruction is untouched |
| ILEmitter.GetConvertTo | src/Buckle/Compiler/CodeAnalysis/Emitting/ILEmitter.cs:432-449 | fails exactly for a non-implicit cast from a nullable type or a target outside any/bool/int/string/decimal; no method exactly for a cast to any; otherwise the method that produces the target type |
| CSharpEmitter.ReplaceAngles | src/Buckle/Compiler/CodeAnalysis/Emitting/CSharpEmitter.cs:144-145 | same length; each `<`, `>` and `:` becomes an underscore, every other character is kept |
| CSharpEmitter.SafeName | src/Buckle/Compiler/CodeAnalysis/Emitting/CSharpEmitter.cs:142-146 | the result has no `<`, `>` or `:`; a valid identifier is returned unchanged; any other name gains a leading `@` |
| CSharpEmitter.SafeNameIsBare | src/Buckle/Compiler/CodeAnalysis/Emitting/CSharpEmitter.cs:142-146 | an escaped name never contains `<` and never starts with `ref ` |
| CSharpEmitter.GetEquivalentType | src/Buckle/Compiler/CodeAnalysis/Emitting/CSharpEmitter.cs:104-140 | the loop wrapping one `List<>` per dimension builds the type text the pure function gives |
| CSharpEmitter.TypeNameIsBare | src/Buckle/Compiler/CodeAnalysis/Emitting/CSharpEmitter.cs:105-119 | the element type name never contains `<` and never starts with `ref ` |
| CSharpEmitter.UnlistLists | src/Buckle/Compiler/CodeAnalysis/Emitting/CSharpEmitter.cs:133-134 | the `List<>` wrappers can be read back: the number of dimensions and the inner text are recovered |
| CSharpEmitter.ElementReadsBack | src/Buckle/Compiler/CodeAnalysis/Emitting/CSharpEmitter.cs:127-131 | the element text is no list and no `ref` type, and its `Nullable<>` wrapper reads back to whether the type is nullable bool, double or int, and its name |
| CSharpEmitter.ParseEquivalentType | src/Buckle/Compiler/CodeAnalysis/Emitting/CSharpEmitter.cs:104-140 | the C# spelling of a non-void type determines it: it reads back as `ref` exactly for an explicit reference (or any reference, when asked), one `List<>` per dimension, `Nullable<>` exactly for nullable bool, double and int, and the element name |
| CSharpEmitter.CastText | src/Buckle/Compiler/CodeAnalysis/Emitting/CSharpEmitter.cs:639-660 | a nullable target is cast first; exactly one parenthesis is closed per conversion call opened, at most two; a target outside bool/decimal/string/int writes the operand alone |
| CSharpEmitter.ReturnText | src/Buckle/Compiler/CodeAnalysis/Emitting/CSharpEmitter.cs:315-333 | always `return ... ;`: bare without an expression, `return 0;` for a null constant, else the expression, defaulted with ` ?? 0` exactly when it is nullable inside `Main` |
| CSharpEmitter.Terminated | src/Buckle/Compiler/CodeAnalysis/Emitting/CSharpEmitter.cs:95-98 | a non-empty list of lines gives text ending in a line break |
| CSharpEmitter.Tidy | src/Buckle/Compiler/CodeAnalysis/Emitting/CSharpEmitter.cs:93-101 | the emitted text ends in exactly one line break, preceded by a visible character unless that break is all there is |
| CSharpEmitter.TidyOutput | src/Buckle/Compiler/CodeAnalysis/Emitting/CSharpEmitter.cs:93-101 | the line-by-line loop produces the tidied text |
| CSharpEmitter.TerminatedTrimmed | src/Buckle/Compiler/CodeAnalysis/Emitting/CSharpEmitter.cs:95-98 | after right-trimming and terminating every line, no line ends in whitespace |
| CSharpEmitter.TidyTrimsLines | src/Buckle/Compiler/CodeAnalysis/Emitting/CSharpEmitter.cs:93-101 | no line of the emitted text ends in whitespace |
| CSharpEmitter.TidyKeepsVisible | src/Buckle/Compiler/CodeAnalysis/Emitting/CSharpEmitter.cs:93-101 | the clean-up only drops or adds whitespace: the visible characters are those of the input, in order |
| DisplayText.Indents | src/Buckle/Compiler/CodeAnalysis/Display/DisplayText.cs:65-66 | one indentation segment per level, none for a level that is zero or negative |
| DisplayText.TextAppend | src/Buckle/Compiler/CodeAnalysis/Display/DisplayText.cs:37-44 | the text of two segment lists written one after the other is their texts joined |
| DisplayText.Display.constructor | src/Buckle/Compiler/CodeAnalysis/Display/DisplayText.cs:20-25 | no segments, indentation 0, and the next write starts a line |
| DisplayText.Display.ToString | src/Buckle/Compiler/CodeAnalysis/Display/DisplayText.cs:37-44 | the segments' texts in order |
| DisplayText.Display.Flush | src/Buckle/Compiler/CodeAnalysis/Display/DisplayText.cs:50-55 | hands back every segment and empties the text; the indentation and line-start flag stay |
| DisplayText.Display.Write | src/Buckle/Compiler/CodeAnalysis/Display/DisplayText.cs:61-73 | the current indentation goes before the segment exactly when a line is starting; the next write starts a line exactly when this segment is a line break |
| DisplayText.WriteLine | src/Buckle/Compiler/CodeAnalysis/Display/DisplayText.cs:61-73 | a line written piece by piece gets the indentation once, before its first piece, followed by the pieces and the line break, and leaves the writer at the start of a line |
| DisplayText.DisplayLabel | src/Buckle/Compiler/CodeAnalysis/Display/DisplayText.cs:426-437 | a label is written one level further out than the code around it when there is a level to take away, and the level is restored afterwards |
| DisplayText.EscapeChar | src/Buckle/Compiler/CodeAnalysis/Display/DisplayText.cs:236-274 | never empty; a character takes one place exactly when it is written as itself |
| DisplayText.Escaped | src/Buckle/Compiler/CodeAnalysis/Display/DisplayText.cs:236-274 | at least as long as the string, and free of raw line breaks |
| DisplayText.UnescapeEscaped | src/Buckle/Compiler/CodeAnalysis/Display/DisplayText.cs:236-274 | the escaped body of a string literal reads back as the string it was made from |
| DisplayText.FormatStringLiteral | src/Buckle/Compiler/CodeAnalysis/Display/DisplayText.cs:236-274 | the escaping loop yields the string quoted and escaped |
| DisplayText.FormatLiteral | src/Buckle/Compiler/CodeAnalysis/Display/DisplayText.cs:225-278 | `null` for no value; for a string, quotes around a body that reads back as the string; a character in lower case; a value of no assumable type fails |
| DisplayText.IntTextIsLowerCase | src/Buckle/Compiler/CodeAnalysis/Display/DisplayText.cs:232-233 | lower-casing the text of an integer leaves it unchanged |
| ErrorMessages.Words | src/Buckle/Compiler/Diagnostics/Error.cs:985-990 | no upper-case letter remains |
| ErrorMessages.WordsLength | src/Buckle/Compiler/Diagnostics/Error.cs:985-990 | splitting into words adds exactly one space per upper-case letter |
| ErrorMessages.SpellOut | src/Buckle/Compiler/Diagnostics/Error.cs:983-992 | a token kind's name is spelled out in lower case |
| ErrorMessages.DiagnosticText | src/Buckle/Compiler/Diagnostics/Error.cs:972-997 | a kind with a fixed text ends with that text quoted, and starts with `token ` exactly when it is a token and that is asked for; other statement and expression kinds are named by category |
| ErrorMessages.UnexpectedToken | src/Buckle/Compiler/Diagnostics/Error.cs:58-69 | three forms, by whether a kind was expected and whether the input had ended |
| ErrorMessages.UnexpectedTokenForms | src/Buckle/Compiler/Diagnostics/Error.cs:58-69 | the message opens with "unexpected" exactly unless a kind was expected at the end of input, and only then ends "at end of input" |
| ErrorMessages.CannotConvert | src/Buckle/Compiler/Diagnostics/Error.cs:204-212 | always ends with the conversion named; prefixed with the argument's position exactly when it is positive |
| ErrorMessages.ConstantAssignment | src/Buckle/Compiler/Diagnostics/Error.cs:226-235 | the generic message without a name; with one, it starts with the quoted name and ends saying whether it is a constant or a constant reference |
| ErrorMessages.CountWordingAsWritten | src/Buckle/Compiler/Diagnostics/Error.cs:284-300 | the printed number is the required count when too few were given, else the full count; plain "expects" exactly when nothing has a default; the noun is singular exactly when `expected` is 1 |
| ErrorMessages.IncorrectArgumentCountAsWritten | src/Buckle/Compiler/Diagnostics/Error.cs:284-300 | the message as written, starting with "method" or "template" |
| ErrorMessages.PluralMismatch | src/Buckle/Compiler/Diagnostics/Error.cs:284-300 | three parameters, two defaulted, none given: "expects at least 1 arguments" |
| ErrorMessages.CountWordingFor | src/Buckle/Compiler/Diagnostics/Error.cs:284-300 | the same number and verb, with the noun singular exactly when the printed number is 1 |
| ErrorMessages.IncorrectArgumentCount | src/Buckle/Compiler/Diagnostics/Error.cs:284-300 | the message with number and noun in agreement starts with "method '" or "template '" and ends with the count of arguments given |
| ErrorMessages.CountMessageEnds | src/Buckle/Compiler/Diagnostics/Error.cs:284-300 | every count message starts with its method word and a quote and ends with the number of arguments given |
| ErrorMessages.CountWordingsAgree | src/Buckle/Compiler/Diagnostics/Error.cs:284-300 | the corrected wording equals the one as written exactly when the printed number is 1 just when `expected` is 1 |
| ErrorMessages.SignatureListPrefix | src/Buckle/Compiler/Diagnostics/Error.cs:546-556 | before the last signature the list is the quoted signatures joined by ", " |
| ErrorMessages.SignatureListShape | src/Buckle/Compiler/Diagnostics/Error.cs:546-556 | two signatures read "'a' and 'b'", three or more "'a', 'b', and 'c'" |
| ErrorMessages.AmbiguousMethodOverload | src/Buckle/Compiler/Diagnostics/Error.cs:543-559 | the loop builds "call is ambiguous between " followed by the signature list |
| CommandLine.Extension | src/Buckle/CommandLine/BuckleCommandLine.cs:696-697 | the text after the last `.` of a file name, holding no `.`, ending the name, and preceded by a `.` unless it is the whole name |
| CommandLine.ExtensionOfDotted | src/Buckle/CommandLine/BuckleCommandLine.cs:696-697 | a name made of a base, a `.` and a dot-free extension has exactly that extension |
| CommandLine.Classify | src/Buckle/CommandLine/BuckleCommandLine.cs:692-720 | every file name gives either a task or an informational diagnostic, never both |
| CommandLine.ClassifySnoc | src/Buckle/CommandLine/BuckleCommandLine.cs:692-720 | one more file name adds its task, or its unknown-file-type diagnostic, after those of the names before it |
| CommandLine.ClassifyByExtension | src/Buckle/CommandLine/BuckleCommandLine.cs:699-717 | a file named base.ext becomes a task at the stage its extension names, or an unknown-file-type diagnostic, by `ext` alone |
| CommandLine.Resolve | src/Buckle/CommandLine/BuckleCommandLine.cs:678-723 | a path that is neither a directory nor a file gives only a no-such-file diagnostic; a file gives exactly one task or one diagnostic, a task exactly when its extension is known |
| CommandLine.ResolveInputFileOrDir | src/Buckle/CommandLine/BuckleCommandLine.cs:678-723 | the loop over the file names yields exactly the build tasks and diagnostics of the resolution function |
| CommandLine.ParseSeverity | src/Buckle/CommandLine/BuckleCommandLine.cs:614-619 | a severity is found only when the text matches its name, ignoring case |
| CommandLine.ParseSeverityName | src/Buckle/CommandLine/BuckleCommandLine.cs:614-619 | every severity name, in any mix of cases, parses back to its severity |
| CommandLine.Initial | src/Buckle/CommandLine/BuckleCommandLine.cs:470-498 | the defaults before the first argument: auto-run, a finished build, output `a.exe`, output on, and no tasks or diagnostics |
| CommandLine.SimpleOption | src/Buckle/CommandLine/BuckleCommandLine.cs:500-553 | an option without a value leaves tasks, diagnostics and output file alone, and adds at most one unrecognized-option diagnostic |
| CommandLine.OutputOption | src/Buckle/CommandLine/BuckleCommandLine.cs:564-575 | the loop index always moves forward and stays within the arguments |
| CommandLine.ExplainOption | src/Buckle/CommandLine/BuckleCommandLine.cs:576-595 | the loop index always moves forward and stays within the arguments |
| CommandLine.ReadOutputOption | src/Buckle/CommandLine/BuckleCommandLine.cs:564-575 | the loop's handling of `-o` moves the index and sets the output file exactly as the option function does, past a separate value when there is one |
| CommandLine.ReadExplainOption | src/Buckle/CommandLine/BuckleCommandLine.cs:576-595 | the loop's handling of `--explain` moves the index and records the code exactly as the option function does, a second request only setting a flag |
| CommandLine.Step | src/Buckle/CommandLine/BuckleCommandLine.cs:556-627 | each pass moves the loop index forward and within the arguments |
| CommandLine.DefaultSeverity | src/Buckle/CommandLine/BuckleCommandLine.cs:639-640 | Error exactly for independent builds, Warning for all others |
| CommandLine.ConflictDiagnostics | src/Buckle/CommandLine/BuckleCommandLine.cs:648-668 | the conflicting-option checks never report the missing input themselves |
| CommandLine.DecodeOptions | src/Buckle/CommandLine/BuckleCommandLine.cs:470-676 | the decoding loop, walking the arguments with an index options may advance, yields the decoding function's result |
| CommandLine.DecodeNothing | src/Buckle/CommandLine/BuckleCommandLine.cs:470-676 | with no arguments the defaults stand and the only diagnostic is the missing input |
| CommandLine.StageOptions | src/Buckle/CommandLine/BuckleCommandLine.cs:502-509 | `-s` asks for compiled and `-c` for assembled output, each marking the stage as given and consuming one argument |
| CommandLine.OutputOptionForms | src/Buckle/CommandLine/BuckleCommandLine.cs:564-575 | `-o` takes the text attached to it, else the next argument, else keeps the output file and reports a missing file name |
| CommandLine.DoubleDashCapturesRest | src/Buckle/CommandLine/BuckleCommandLine.cs:620-624 | `--` hands every later argument to the program and decodes none of them |
| CommandLine.FileArgumentsOnly | src/Buckle/CommandLine/BuckleCommandLine.cs:556-562 | arguments that are all file names leave build mode, stage, output file, references, program arguments and severity at their defaults |
| CommandLine.NoOptionsKeepDefaults | src/Buckle/CommandLine/BuckleCommandLine.cs:556-562 | arguments that are all file names change only the build tasks and diagnostics |
| CommandLine.TranspileOutput | src/Buckle/CommandLine/BuckleCommandLine.cs:642-643 | a C# transpile without `-o` writes `a.cs` |
| CommandLine.SeverityDefault | src/Buckle/CommandLine/BuckleCommandLine.cs:639-640 | without `--severity`, independent builds stop at errors and all others at warnings |
| CommandLine.DialogSkipsChecks | src/Buckle/CommandLine/BuckleCommandLine.cs:630-634 | a requested dialog leaves tasks, references, arguments and severity unset, skips the checks, and reports only the loop's and the unknown options' diagnostics |
| CommandLine.MissingInputReported | src/Buckle/CommandLine/BuckleCommandLine.cs:630-671 | the diagnostics are those of the loop, then the unknown options, then the checks, which report the missing input exactly when there is no task outside a REPL |
| CommandLine.FinishAsWritten | src/Buckle/CommandLine/BuckleCommandLine.cs:658-662 | the checks as written agree with the corrected ones, except that they throw exactly for a script build with no task |
| CommandLine.ScriptWithoutInputThrows | src/Buckle/CommandLine/BuckleCommandLine.cs:658-662 | `--script` alone throws as written, where the corrected checks report only the missing input |
| CommandLine.Worst | src/Buckle/CommandLine/BuckleCommandLine.cs:381 | a member of the list at least as severe as every other |
| CommandLine.ExitCode | src/Buckle/CommandLine/BuckleCommandLine.cs:375-394 | 2 exactly when a fatal diagnostic was reported, 1 exactly when an error but no fatal one was, 0 otherwise |
| CommandLine.Levels | src/Buckle/CommandLine/BuckleCommandLine.cs:381 | the severity of each diagnostic, in order |
| CommandLine.FatalMessageExits | src/Buckle/CommandLine/BuckleCommandLine.cs:375-394 | any fatal diagnostic among those reported makes the exit code 2 |
| ReplEditing.InsertAt | src/Buckle/Repl/ReplBase.cs:723 | the result is as long as both texts together |
| ReplEditing.FlatAround | src/Buckle/Repl/ReplBase.cs:696-710 | a submission run together is the lines before line `i`, line `i`, and the lines after it |
| ReplEditing.PositionWithin | src/Buckle/Repl/ReplBase.cs:1093-1112 | a cursor inside a line sits inside the submission run together, strictly so when it is before the line's end |
| ReplEditing.EditKeepsRest | src/Buckle/Repl/ReplBase.cs:737-760 | removing a piece of one line removes exactly that piece from the submission text, at the cursor |
| ReplEditing.RemoveSpanKeepsRest | src/Buckle/Repl/ReplBase.cs:779-788 | removing the characters before a column removes them from the submission text just before the cursor |
| ReplEditing.InsertKeepsRest | src/Buckle/Repl/ReplBase.cs:719-727 | inserting text at a column inserts it into the submission text at the cursor |
| ReplEditing.MergeWithPrevious | src/Buckle/Repl/ReplBase.cs:767-775 | joining two lines leaves one line fewer |
| ReplEditing.MergeKeepsText | src/Buckle/Repl/ReplBase.cs:767-775 | joining a line onto the previous one changes neither the submission text nor the cursor's place in it |
| ReplEditing.BreakLine | src/Buckle/Repl/ReplBase.cs:907-915 | breaking a line adds one line |
| ReplEditing.BreakInsertsIndent | src/Buckle/Repl/ReplBase.cs:907-925 | breaking a line and typing its indentation adds only that indentation to the submission text, at the cursor |
| ReplEditing.BreakCursor | src/Buckle/Repl/ReplBase.cs:907-925 | after the break the cursor's place in the text moves on by the indentation |
| ReplEditing.NextIndex | src/Buckle/Repl/ReplBase.cs:678-685 | PageDown moves to the next history entry, wrapping to the first, and stays in range |
| ReplEditing.PreviousIndex | src/Buckle/Repl/ReplBase.cs:687-694 | PageUp moves to the previous history entry, wrapping to the last, and stays in range |
| ReplEditing.PageRoundTrip | src/Buckle/Repl/ReplBase.cs:678-694 | PageDown then PageUp, or PageUp then PageDown, returns to the same history entry |
| ReplEditing.SplitStep | src/Buckle/Repl/ReplBase.cs:933-960 | each pass of the splitting loop moves forward within the line |
| ReplEditing.SplitCommand | src/Buckle/Repl/ReplBase.cs:927-962 | the splitting loop yields the argument list of the splitting function, which always holds at least the command name |
| ReplEditing.Squeeze | src/Buckle/Repl/ReplBase.cs:938-945 | no whitespace remains |
| ReplEditing.QuoteFreeSplit | src/Buckle/Repl/ReplBase.cs:927-962 | without quotes no argument holds whitespace, and the arguments run together are the line after `#` with its whitespace removed |
| ReplEditing.DoubledQuote | src/Buckle/Repl/ReplBase.cs:949-951 | inside quotes a doubled quote stands for one quote character |
| ReplEditing.NewLineIndent | src/Buckle/Repl/ReplBase.cs:916-925 | only spaces, a whole number of tab stops; nothing when the line is already as wide as the console allows; at least one tab stop after an opening bracket |
| ReplEditing.Editor.constructor | src/Buckle/Repl/ReplBase.cs:215-236 | an empty one-line submission, the cursor at its start, the history of earlier submissions read from its first entry |
| ReplEditing.Editor.HandleTab | src/Buckle/Repl/ReplBase.cs:719-727 | spaces up to the next tab stop are inserted at the cursor, which moves past them onto the tab stop; the submission text changes only by those spaces; the typing indentation grows by one |
| ReplEditing.Editor.SetCurrentLine | src/Buckle/Repl/ReplBase.cs:1093-1102 | moving to another line keeps the column where the new line is long enough and clamps it to the line's end otherwise; nothing else changes |
| ReplEditing.Editor.HandleUpArrow | src/Buckle/Repl/ReplBase.cs:879-882 | the previous line, unless already on the first; the column never grows; the submission is unchanged |
| ReplEditing.Editor.HandleDownArrow | src/Buckle/Repl/ReplBase.cs:874-877 | the next line, unless already on the last; the column never grows; the submission is unchanged |
| ReplEditing.Editor.HandleDelete | src/Buckle/Repl/ReplBase.cs:737-760 | inside a line exactly the character under the cursor is removed from the text, clearing the bracket stack when it was an opening bracket; at a line's end the next line is joined on, unless it is the last; the cursor stays |
| ReplEditing.Editor.RemoveAtCursor | src/Buckle/Repl/ReplBase.cs:752-759 | the character under the cursor is removed from its line and from the submission text; the cursor stays |
| ReplEditing.Editor.TabBoundaryBack | src/Buckle/Repl/ReplBase.cs:792-819 | Backspace removes one character, or a run of up to a tab stop's worth of whitespace lying before the cursor |
| ReplEditing.Editor.HandleBackspace | src/Buckle/Repl/ReplBase.cs:762-790 | nothing at the very start; at a line's start the line joins the previous one with text and cursor place unchanged; elsewhere the characters removed lie just before the cursor, more than one only when all whitespace, and the cursor moves back over them |
| ReplEditing.Editor.JoinWithPrevious | src/Buckle/Repl/ReplBase.cs:767-775 | the current line is appended to the previous one, where the cursor then stands at the join; the text and the cursor's place in it are unchanged |
| ReplEditing.Editor.RemoveBeforeCursor | src/Buckle/Repl/ReplBase.cs:777-789 | the characters before the cursor are removed from its line and from the text, and the cursor moves back over them |
| ReplEditing.Editor.InsertLine | src/Buckle/Repl/ReplBase.cs:907-925 | the line is broken at the cursor, the cursor moves to the start of the new line after the indentation typed there, and the text changes only by the line break's indentation at the cursor |
| ReplEditing.Editor.UpdateDocumentFromHistory | src/Buckle/Repl/ReplBase.cs:696-710 | with no history nothing changes; otherwise the submission becomes the current history entry, the cursor at its end |
| ReplEditing.Editor.HandlePageDown | src/Buckle/Repl/ReplBase.cs:678-685 | the next history entry, wrapping, replaces the submission |
| ReplEditing.Editor.HandlePageUp | src/Buckle/Repl/ReplBase.cs:687-694 | the previous history entry, wrapping, replaces the submission |
| ReplEditing.Editor.AddSubmission | src/Buckle/Repl/ReplBase.cs:141-142 | the finished submission joins the end of the history, which is read from its start again |
| ReplEditing.Editor.ClearHistory | src/Buckle/Repl/ReplBase.cs:175-177 | the history is emptied; the index and the submission stay as they were |
| VectorSpec.Removed | temp.cpp:383-398 | one element fewer: those before index `i` stay, those after move one to the left |
| VectorSpec.Inserted | temp.cpp:428-458 | one element more: `v` at index `i`, those before stay, those from `i` on move one to the right |
| VectorSpec.Slice | temp.cpp:493-506 | the elements from `start` up to `end`, in order, or none when the range is empty or inverted |
| VectorSpec.CapacityFor | temp.cpp:287-306 | the capacity always exceeds the element count, and is kept when it already did |
| VectorSpec.RemoveInserted | temp.cpp:383-458 | removing what was just inserted gives back the original elements |
| VectorSpec.InsertRemoved | temp.cpp:383-458 | inserting the removed element at the same place gives back the original elements |
| VectorSpec.AppendIsInsertAtEnd | temp.cpp:355-376 | appending is inserting at the end |
| VectorSpec.SliceBounds | temp.cpp:493-506 | the whole range is the whole vector; an empty or inverted range is empty |
| Vector.CopyInto | temp.cpp:297-304 | the first slots receive the source elements, the rest are kept |
| Vector.Vector.constructor | temp.cpp:197-251 | a fresh buffer: capacity 10 and no elements by default; the given or copied elements otherwise, with the capacity `_Construct_contents` leaves |
| Vector.Vector.AssignFrom | temp.cpp:254-261 | a vector assigned to itself is left alone; otherwise it takes the other's elements |
| Vector.Vector.ConstructContents | temp.cpp:287-306 | the elements become the given ones; the buffer is kept when its capacity exceeds their number and reallocated to that number plus 10 otherwise |
| Vector.Vector.Append | temp.cpp:355-376 | the value is added at the end; a full buffer is first reallocated to the size plus 10, keeping the elements |
| Vector.Vector.Pop | temp.cpp:378-381 | the last element is dropped and the buffer left as it is |
| Vector.Vector.PopAt | temp.cpp:383-398 | the element at the index is removed and later ones shift left; an index past the end still drops the last element |
| Vector.Vector.GrowIfFull | temp.cpp:432-443 | a full buffer is reallocated to the size plus 10, keeping the elements; room for one more afterwards |
| Vector.Vector.Insert | temp.cpp:428-458 | the value lands at the position, later elements shift right; a full buffer grows by 10 first |
| Vector.Vector.Assign | temp.cpp:478-491 | at the size it appends, past the size it does nothing, otherwise it overwrites that element |
| Vector.Vector.Plus | temp.cpp:330-353 | a fresh vector of this vector's elements followed by the right operand's |
| Vector.Vector.Subset | temp.cpp:493-506 | a fresh vector of the elements from `start` up to `end` |
| Vector.Vector.ToArray | temp.cpp:416-426 | a fresh array holding exactly the elements |
| Vector.Vector.Index | temp.cpp:400-404 | the element at the index |
| Vector.Vector.Clear | temp.cpp:508-511 | no elements; the capacity is kept |
| Vector.InsertThenPop | temp.cpp:383-458 | inserting a value and then popping at the same position leaves the former elements |
| SourceWriter.IndexOf | src/Buckle/SourceGenerators/SyntaxGenerator/SourceWriter.cs:72-73 | the first index at or after `from` holding `c`, or none when no such index exists |
| SourceWriter.GetElementType | src/Buckle/SourceGenerators/SyntaxGenerator/SourceWriter.cs:68-81 | a non-empty result is the text strictly between some `<` and a later `>`, and holds no `>` |
| SourceWriter.ElementTypeOfList | src/Buckle/SourceGenerators/SyntaxGenerator/SourceWriter.cs:68-81 | the element type of `Name<Element>...` is the element's name, whatever follows, when the name holds no `<` and the element no `>` |
| SourceWriter.NoElementTypeWithoutBrackets | src/Buckle/SourceGenerators/SyntaxGenerator/SourceWriter.cs:68-81 | a type name without `<`, or with no `>` after it, has no element type |
| SourceWriter.StripPost | src/Buckle/SourceGenerators/SyntaxGenerator/SourceWriter.cs:83-87 | the suffix is removed exactly when the name ends with it, and the name is otherwise unchanged |
| SourceWriter.StripPostAppended | src/Buckle/SourceGenerators/SyntaxGenerator/SourceWriter.cs:83-87 | stripping a suffix that was appended gives back the original name |
| SourceWriter.DerivedWithinIsAncestor | src/Buckle/SourceGenerators/SyntaxGenerator/SourceWriter.cs:102-110 | within a step budget, a type derives from another exactly when that one is among its ancestors within that many steps |
| SourceWriter.IsDerivedTypeAcyclic | src/Buckle/SourceGenerators/SyntaxGenerator/SourceWriter.cs:102-110 | on a parent map without cycles, a type derives from another exactly when that one is among its ancestors at some distance, so the step bound loses nothing |
| SourceWriter.ChainFits | src/Buckle/SourceGenerators/SyntaxGenerator/SourceWriter.cs:102-110 | on a parent map without cycles, a chain of ancestors is no longer than the number of types in the map |
| SourceWriter.ChainDistinct | src/Buckle/SourceGenerators/SyntaxGenerator/SourceWriter.cs:102-110 | on a parent map without cycles, the ancestors along one chain are all different |
| SourceWriter.IsDerivedType | src/Buckle/SourceGenerators/SyntaxGenerator/SourceWriter.cs:102-110 | every type derives from itself |
| SourceWriter.DirectBaseIsDerived | src/Buckle/SourceGenerators/SyntaxGenerator/SourceWriter.cs:102-110 | a type derives from the base its parent entry names |
| SourceWriter.NonEmpty | src/Buckle/SourceGenerators/SyntaxGenerator/SourceWriter.cs:149-154 | only non-empty strings, all of them from the given values |
| SourceWriter.JoinOfEmpties | src/Buckle/SourceGenerators/SyntaxGenerator/SourceWriter.cs:149-154 | joining only empty values gives the empty string |
| SourceWriter.JoinSkipsEmpty | src/Buckle/SourceGenerators/SyntaxGenerator/SourceWriter.cs:149-154 | an empty value anywhere in the list leaves the joined text as it would be without it |
| SourceWriter.Indentation | src/Buckle/SourceGenerators/SyntaxGenerator/SourceWriter.cs:140-145 | `IndentSize` spaces per level |
| SourceWriter.WriteText | src/Buckle/SourceGenerators/SyntaxGenerator/SourceWriter.cs:120-123 | the output only grows, a line no longer starts, and the level is kept |
| SourceWriter.WriteLineText | src/Buckle/SourceGenerators/SyntaxGenerator/SourceWriter.cs:129-135 | the output ends with a line break, the next text starts a line, and the level is kept |
| SourceWriter.IndentOncePerLine | src/Buckle/SourceGenerators/SyntaxGenerator/SourceWriter.cs:120-145 | two writes on a fresh line give one indentation followed by both texts |
| SourceWriter.WritePiecesThenLine | src/Buckle/SourceGenerators/SyntaxGenerator/SourceWriter.cs:120-135 | a line written in pieces reads as if written at once |
| SourceWriter.EmptyLineHasNoIndent | src/Buckle/SourceGenerators/SyntaxGenerator/SourceWriter.cs:129-135 | an empty line carries no indentation |
| SourceWriter.Writer.constructor | src/Buckle/SourceGenerators/SyntaxGenerator/SourceWriter.cs:15-27 | empty output, level 0, and a line about to start |
| SourceWriter.Writer.Indent | src/Buckle/SourceGenerators/SyntaxGenerator/SourceWriter.cs:112-114 | one level deeper; nothing else changes |
| SourceWriter.Writer.Unindent | src/Buckle/SourceGenerators/SyntaxGenerator/SourceWriter.cs:116-121 | succeeds exactly above the base level, one level shallower; at the base level it fails and nothing changes |
| SourceWriter.Writer.WriteIndentIfNeeded | src/Buckle/SourceGenerators/SyntaxGenerator/SourceWriter.cs:140-145 | the state after writing the pending indentation and no text |
| SourceWriter.Writer.Write | src/Buckle/SourceGenerators/SyntaxGenerator/SourceWriter.cs:120-123 | the state the writing function gives |
| SourceWriter.Writer.WriteLine | src/Buckle/SourceGenerators/SyntaxGenerator/SourceWriter.cs:129-135 | the state the line-writing function gives |
| SourceWriter.Writer.OpenBlock | src/Buckle/SourceGenerators/SyntaxGenerator/SourceWriter.cs:156-159 | ends the line with ` {` and indents one more level |
| SourceWriter.Writer.CloseBlock | src/Buckle/SourceGenerators/SyntaxGenerator/SourceWriter.cs:161-164 | unindents, failing with nothing changed at the base level, then writes the closing brace and its suffix on its own line |
| Compilation.ScanAppend | src/Buckle/Buckle/CodeAnalysis/Compilation.cs:129-143 | offering two lists in turn to one shared set of seen keys is offering their concatenation |
| Compilation.ScanSound | src/Buckle/Buckle/CodeAnalysis/Compilation.cs:123-147 | started afresh, the walk has seen exactly the offered keys; every symbol it keeps is of a wanted kind and is the first offered symbol with its key; no key is kept twice |
| Compilation.ScanComplete | src/Buckle/Buckle/CodeAnalysis/Compilation.cs:123-147 | the first offered symbol with a given key is kept whenever it is of a wanted kind |
| Compilation.SymbolsFirstOccurrence | src/Buckle/Buckle/CodeAnalysis/Compilation.cs:123-147 | across a submission chain, newest first, a newer symbol hides an older one with the same key: each key is yielded at most once, by its first occurrence, and that occurrence is yielded whenever it is wanted |
| Compilation.Submission.constructor | src/Buckle/Buckle/CodeAnalysis/Compilation.cs:98-111 | `Create`/`CreateScript` put a new, not yet bound submission on top of the optional previous chain, which stays linked |
| Compilation.Submission.GlobalScope | src/Buckle/Buckle/CodeAnalysis/Compilation.cs:81-91 | the global scope is bound on the first request only and the same scope is handed back on every later request |
| Compilation.Submission.GetSymbols | src/Buckle/Buckle/CodeAnalysis/Compilation.cs:123-147 | yields exactly the first-occurrence, wanted symbols of the chain's scopes, and leaves every submission of the chain bound |
| Compilation.OfferSubmission | src/Buckle/Buckle/CodeAnalysis/Compilation.cs:129-143 | one turn of the walk offers a submission's functions, then the built-ins, then its variables, then its types |
| Compilation.Offer | src/Buckle/Buckle/CodeAnalysis/Compilation.cs:129-143 | one `foreach` offers the symbols of a list in order to the shared set of seen keys |
| Compilation.EvaluateOutcome | src/Buckle/Buckle/CodeAnalysis/Compilation.cs:154-166 | rejected exactly when binding reported an error, or the lowered program did, or under `wError` it reported anything; binding errors win; without `wError` a rejection always carries an error |
| Compilation.Submission.Evaluate | src/Buckle/Buckle/CodeAnalysis/Compilation.cs:154-166 | the evaluation outcome of this submission's scope and its lowered program, with the scope bound afterwards |
| Compilation.WarningsDoNotStop | src/Buckle/Buckle/CodeAnalysis/Compilation.cs:156-164 | warnings alone never stop a program, unless `wError` is set and the program reported some |

## Left out

- Lexer: character classes are ASCII only; the Unicode letter, digit and white-space categories of .NET are not modelled.
- Lexer: decimal and floating-point literals are scanned but their value is not parsed; only integer values are computed.
- SyntaxParser: `MatchTwo`, `EatNode` and the incremental (blended) parsing path, the lexing of directives and `Move` are not modelled; the parser runs in non-incremental mode only.
- LanguageParser: `this` and `new` expressions are not modelled.
- LanguageParser.ParsePrimaryInternal: casts (the `PeekIsCastExpression` test), `{` initializer lists, `ref` expressions and `typeof` at LanguageParser.cs:1079-1109 are not modelled; a token that would start one of them is parsed as a name and, not being an identifier, reported as a missing name.
- LanguageStatements.ParseStatement: local variable declarations and local functions (the declaration tests at LanguageParser.cs:693-703) are not modelled; a statement that starts with a type is parsed as an expression statement.
- LanguageStatements.ParseMembers: class, struct, method, constructor and operator declarations (`ParseMember` at LanguageParser.cs:294-330) are not modelled; every member is parsed as a global statement.
- LanguageStatements.MembersLoop: runs the same member parse, so every member it collects is a global statement.
- TokenArrayParser: the primary-operator loop (calls, member access, indexing, postfix), casts, initializer lists, `ref` and `typeof` are not modelled; the newer parser models that loop. `ParseCompilationUnit` and the member and statement parsers of the first parser are left out too.
- TokenArrayParser.Parser.ParseOperator: requires the parent precedence to be at most 17, the largest precedence any caller passes.
- BinderChecks: of the modifier folds only the method fold is modelled; the constructor, operator and struct modifier folds follow the same pattern and are left out, and so is the override conflict check, which needs symbols not part of this model.
- BoundTypes.TemplateLoop: template arguments are compared structurally; the template arguments' own `Equals`, which BoundType.cs:331 calls, is not part of this model, so were it a reference comparison the model would find more arguments equal than the source.
- BoundTypes.Compound: substitutes the receiver's template argument at the template parameter's ordinal and combines the flags of the two types, as BoundType.cs:277-299 does.
- OverloadResolution: `DiagnosticQueue.Move` is taken to append the moved diagnostics and clear the source queue; DiagnosticQueue is not part of this model.
- Lowerer: `Optimizer.Optimize`, the lowering of nullable operands, the replacement of `Value(x)` by `x` and of `HasValue(x)` by `true` for a non-nullable `x` (Lowerer.cs:416-419, which needs types the model's expressions do not carry), casts, the `$` renaming of parameters, the static-access operand of calls, member access and index rewrites, and the expander subclass the lowerer inherits from are not modelled.
- Evaluator: global variables, try statements and `hasReturn`, doubles and characters, casts, indexing, initializer lists and objects are not modelled and evaluate to `Unsupported`; so do built-in methods, templates, receivers and virtual dispatch. A lowered `??` calls the built-ins `HasValue` and `Value`, so it evaluates to `Unsupported` too.
- Evaluator: references to variables are read eagerly, not deferred; the abort flag the source polls from another thread is modelled as a fuel bound, and running out of fuel is an outcome of its own.
- Evaluator: the console output written for a caught exception, and `Copy` of reference values, are not modelled.
- BoundNodePrinter: `for` and `try` statements, the block printed without a trailing line break, calls, casts, indexing, initializer lists, member access, constructors, `typeof` and references are not printed by the model.
- BoundNodePrinter: the text of a token is taken from `SyntaxFacts.GetText`, with the empty text for kinds that have none; `BoundType.ToString` is taken to be the type's base name; decimal formatting is a parameter.
- ILEmitter: every call into the Cecil IL library (instruction creation, method references) is left out; instructions are a datatype of their own.
- CSharpEmitter.SafeName: `CodeDomProvider.IsValidIdentifier` is replaced by an ASCII identifier check; C# keywords and Unicode identifiers are not recognised.
- DisplayText: only the display buffer, labels and literal formatting are modelled.
- DisplayText.FormatLiteral: doubles are left out, and characters are lower-cased in ASCII only, where .NET `ToLower` (DisplayText.cs:232) folds every letter, so `'É'` displays as `É` in the model and as `é` in the source.
- ErrorMessages: diagnostic codes and text locations are not modelled; only the message texts are.
- CommandLine: the file system is a parameter; file reads, writes and deletes, and the help and explain dialogs, are left out.
- CommandLine: the order of the severity levels is assumed to be Debug, Info, Warning, Error, Fatal; `Enum.TryParse` accepting numeric strings is not modelled.
- ReplEditing: the other key handlers (typing in general, Home, End, the arrow keys inside a line, Escape, control-key word moves, Shift+Tab), rendering and console I/O are left out; `InsertLine` sets the new line directly rather than through its detour via `SetCurrentLine`.
- Compilation: the binder is not part of this model; each submission's bound scope is a constructor argument, and the `Interlocked` exchange is a plain lazily set field.
- Vector.Vector.Pop: requires a non-empty vector; on an empty vector the source decrements the unsigned size, which wraps around to the largest `size_t` and leaves the object broken.
- Vector.Vector.PopAt: requires a non-empty vector for the same reason; on an empty vector the source's final decrement of the unsigned size wraps around (temp.cpp:383-397).
- Vector: `posindex` is not part of this model, so indices are taken as already resolved; `count`, `size` (which multiplies by the element size), the destructor and `_Tidy_deallocate`, `begin`, `end`, `data` and the allocator calls are left out.
- Lexer.Lexer.ReadDigits: runs the corrected sign rule, a sign being part of the literal only right after the exponent `e`, instead of the test of `previous` at Lexer.cs:715; the rule as written is LexerSpec.ScanDigitsAsWritten, and the Findings give the inputs where the two differ.
- Lexer.Lexer.ReadNumericLiteral: reads its digits with Lexer.Lexer.ReadDigits, so it ends literals by the corrected sign rule, not by the one at Lexer.cs:715.
- LexerSpec.ScanDigits: the corrected digit scan, not the one at Lexer.cs:706-725 as written; LexerSpec.ScanDigitsAsWritten is that one, and LexerLiterals.ScanDigitsAgree relates the two.
- LexerSpec.ScanNumber: scans with LexerSpec.ScanDigits, so its literals end by the corrected sign rule.
- LexerProperties.SkippedTriviaText: the text of a skipped-token trivia is the bad token's own text. In the source, `SkippedTokensTrivia` at Lexer.cs:91-95 wraps the whole token, whose full text also holds its trivia, while the model places that trivia only around the skipped-token trivia. LexerProperties.LexFromText, LexerProperties.LexNextText and TokenStream.StreamText rest on this convention.
- SourceWriter.IsDerivedType: walks at most as many steps up the parent map as it has keys, instead of recursing without bound. On a cyclic map the source recurses until the stack overflows, while the model answers false. On an acyclic map SourceWriter.IsDerivedTypeAcyclic proves that the bound loses nothing.
- SyntaxTypes.LastToken: requires a complete node, every branch with at least one child; the source throws on a branch without children.
- SyntaxTypes.PrettyPrint: the console colours the printer switches between are not modelled; only the text written is.
- Line breaks: `"\n"` stands for `Environment.NewLine` throughout, in SourceWriter, CSharpEmitter and the ReplEditing history.
- ILEmitter.FixBranches: requires every fixup's label to be recorded; the source would throw only on an internal inconsistency.

## Findings

| source | as written | input that shows it | evidently intended | confidence | as-written member | corrected member |
|---|---|---|---|---|---|---|
| src/Buckle/Compiler/CodeAnalysis/Parser/Lexer.cs:715 | a sign after a numeric literal reads `previous.Value` even when no digit came before it | `0x-1` throws `InvalidOperationException` | the literal `0x` ends at the sign and is reported as not an int | high, not executed | LexerLiterals.HexSignThrows | LexerLiterals.HexSignEndsLiteral |
| src/Buckle/Compiler/CodeAnalysis/Parser/Lexer.cs:715 | a sign after the hexadecimal digit `e` is taken as an exponent sign | `0x1e+1` is one invalid literal | `0x1e` is thirty and `+` starts the next token | medium, not executed | LexerLiterals.HexDigitESwallowsSign | LexerLiterals.HexDigitEStopsAtSign |
| src/Buckle/Compiler/CodeAnalysis/Binding/BoundTree/BoundType.cs:306-341 | `Equals` never compares `isExplicitReference` | `int` equals `ref int` | equality compares every field | high, not executed | BoundTypes.EqualsIgnoresExplicitReference | BoundTypes.EqualsSymmetric |
| src/Buckle/Compiler/CodeAnalysis/Binding/BoundTree/BoundType.cs:306-341 | template arguments are compared only up to this type's count, after an arity test that passes when the arity differs from the argument count | `List<string>` built with arity 0 (as at src/Buckle/Compiler/Libraries/Standard/StandardLibrary.cs:887) against the bare `List`: one direction is true, the other throws; no comparison of such a pair was found in the source | equality is symmetric | low (unconfirmed: binder-built types have arity equal to their argument count), not executed | BoundTypes.EqualsNotSymmetric | BoundTypes.EqualsSymmetric |
| src/Buckle/Compiler/CodeAnalysis/Binding/OverloadResolution/OverloadResolution.cs:581 | a required parameter with no argument leaves a hole in the rearranged order | `f(a, b = 1)` called as `f(b: 2)` throws `KeyNotFoundException` | the call is rejected with a diagnostic naming the missing parameter | high, not executed | OverloadResolution.MissingRequiredArgumentThrows | OverloadResolution.ArgumentOrder |
| src/Buckle/Compiler/Diagnostics/Error.cs:284-300 | the noun is chosen from `expected`, not from the number printed | expected 3, 2 defaults, 0 given: "expects at least 1 arguments" | the noun agrees with the number printed | high, not executed | ErrorMessages.PluralMismatch | ErrorMessages.CountWordingFor |
| src/Buckle/CommandLine/BuckleCommandLine.cs:658-662 | `state.tasks?[0]` is read when there are no input files | `--script` with no file throws `IndexOutOfRangeException` | the missing input is reported | high, not executed | CommandLine.ScriptWithoutInputThrows | CommandLine.MissingInputReported |
