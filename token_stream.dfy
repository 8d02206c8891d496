/**
 * The stream of tokens a lexer hands out when it is asked again and again
 * from the start of a text, as the parser does: token `i` is the one lexed
 * where the lexer stopped after the first `i`.
 */
module TokenStream {
  import opened SyntaxFacts
  import opened LexerSpec
  import opened LexerProperties

  /** Where the lexer stands after handing out `n` tokens from the start of `text`. */
  function LexedEnd(text: string, n: nat): (end: nat)
    ensures end <= |text|
  {
    if n == 0 then 0 else LexNext(text, LexedEnd(text, n - 1)).end
  }

  /** The token at index `i` of the stream. Bad tokens never appear, and every token has its text. */
  function TokenAt(text: string, i: nat): (t: Token)
    ensures t.kind != BadToken && t.text.Some?
  {
    LexNextHasText(text, LexedEnd(text, i));
    LexNext(text, LexedEnd(text, i)).token
  }

  /** The full texts of the first `n` tokens, one after another. */
  function StreamFullText(text: string, n: nat): string
  {
    if n == 0 then "" else StreamFullText(text, n - 1) + FullText(TokenAt(text, n - 1))
  }

  lemma PrefixJoin(text: string, p: nat, e: nat, before: string, next: string)
    requires p <= e <= |text| && before == text[..p] && next == text[p..e]
    ensures before + next == text[..e]
  {
    assert text[..e] == text[..p] + text[p..e];
  }

  /** Each token of the stream, with its trivia, covers the text from where the previous one stopped to where it stops. */
  lemma TokenAtText(text: string, i: nat)
    ensures LexedEnd(text, i) <= LexedEnd(text, i + 1)
    ensures FullText(TokenAt(text, i)) == text[LexedEnd(text, i)..LexedEnd(text, i + 1)]
  {
    LexNextText(text, LexedEnd(text, i));
  }

  /** One more token: the text spelled so far grows by exactly the next token's full text. */
  lemma StreamStep(text: string, m: nat)
    requires StreamFullText(text, m) == text[..LexedEnd(text, m)]
    ensures StreamFullText(text, m + 1) == text[..LexedEnd(text, m + 1)]
  {
    TokenAtText(text, m);
    PrefixJoin(text, LexedEnd(text, m), LexedEnd(text, m + 1), StreamFullText(text, m), FullText(TokenAt(text, m)));
  }

  /** Lexing is lossless: the first `n` tokens with their trivia spell out the text up to where the lexer stands. */
  lemma {:induction false} StreamText(text: string, n: nat)
    ensures StreamFullText(text, n) == text[..LexedEnd(text, n)]
    decreases n, 1
  {
    if n > 0 {
      StreamTextNext(text, n - 1);
    }
  }

  /** The induction step of `StreamText`, stated for the stream one token longer than `m`. */
  lemma {:induction false} StreamTextNext(text: string, m: nat)
    ensures StreamFullText(text, m + 1) == text[..LexedEnd(text, m + 1)]
    decreases m + 1, 0
  {
    StreamText(text, m);
    StreamStep(text, m);
  }
}
