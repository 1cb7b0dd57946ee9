/** The tokenizer of lexer.js: one left-to-right pass over the source text that turns digit
    runs, double-quoted strings, letter runs and nine single-character symbols into tokens,
    skips every other character, and ends the list with one end-of-input token. */
module Lexer {
  import opened Numerals
  import opened Wrappers

  /** The entries of the token-kind table, plus `Unset`: `getOperatorType` answers `{` and `}`
      with the names `LBRACE`/`RBRACE`, which the table does not define, so those two tokens
      carry no kind at all. The table's own brace entries are spelt `LPRACE`/`RPRACE`. */
  datatype Kind =
    | Number | String | Identifier | Keyword | Operator
    | LParen | RParen | LPrace | RPrace | Assign | Eof
    | Unset

  /** A token's literal: a number for digit runs, text for everything else, nothing for the end token. */
  datatype TokenValue = NumberValue(n: nat) | TextValue(text: string) | Absent

  datatype Token = Token(kind: Kind, value: TokenValue)

  const EofToken: Token := Token(Eof, Absent)

  /** What one of the scanners returns: the token it read and the position after it. */
  datatype Scan = Scan(token: Token, next: nat)

  /** The seven reserved words; every other letter run is an identifier. */
  const Keywords: seq<string> := ["print", "function", "if", "else", "true", "false", "while"]

  /** The nine characters of the operator string in `tokenize` (plus, minus, star, slash,
      equals, both parentheses, both braces): each becomes a token of its own. */
  predicate IsSymbolChar(c: char) {
    c == '+' || c == '-' || c == '*' || c == '/' || c == '=' || c == '(' || c == ')' || c == '{'
    || c == '}'
  }

  /** The character class `[a-zA-Z_]`. */
  predicate IsWordChar(c: char) {
    'a' <= c <= 'z' || 'A' <= c <= 'Z' || c == '_'
  }

  /** The shape of every token the tokenizer produces: numbers carry a number, the end token
      carries nothing, and every other token carries its text. */
  predicate ValidToken(t: Token) {
    match t.kind
    case Number => t.value.NumberValue?
    case Eof => t.value.Absent?
    case _ => t.value.TextValue?
  }

  /** The number of double quotes in `s`. */
  function QuoteCount(s: string): nat {
    if s == [] then 0 else (if s[0] == '"' then 1 else 0) + QuoteCount(s[1..])
  }

  lemma {:induction false} QuoteCountConcat(a: string, b: string)
    ensures QuoteCount(a + b) == QuoteCount(a) + QuoteCount(b)
  {
    if a != [] {
      assert (a + b)[1..] == a[1..] + b;
      QuoteCountConcat(a[1..], b);
    } else {
      assert a + b == b;
    }
  }

  /** A text without quotes counts none, and a text that counts some holds one. */
  lemma {:induction false} QuoteCountZero(s: string)
    ensures QuoteCount(s) == 0 <==> '"' !in s
  {
    if s != [] {
      QuoteCountZero(s[1..]);
      assert s == [s[0]] + s[1..];
    }
  }

  /** The kind `getOperatorType` gives a symbol character. */
  function SymbolKind(c: char): (k: Kind)
    requires IsSymbolChar(c)
    ensures k == Assign <==> c == '='
    ensures k == Operator <==> c == '+' || c == '-' || c == '*' || c == '/'
    ensures k == Unset <==> c == '{' || c == '}'
    ensures k != Eof && k != LPrace && k != RPrace && k != Number && k != String
  {
    match c
    case '=' => Assign
    case '(' => LParen
    case ')' => RParen
    case '{' => Unset
    case '}' => Unset
    case _ => Operator
  }

  /** The end of the run of digits that starts at `pos`. */
  function DigitRunEnd(input: string, pos: nat): (e: nat)
    requires pos <= |input|
    ensures pos <= e <= |input|
    ensures forall k :: pos <= k < e ==> IsDigit(input[k])
    ensures e == |input| || !IsDigit(input[e])
    decreases |input| - pos
  {
    if pos < |input| && IsDigit(input[pos]) then DigitRunEnd(input, pos + 1) else pos
  }

  /** The end of the run of `[a-zA-Z_]` characters that starts at `pos`. */
  function WordRunEnd(input: string, pos: nat): (e: nat)
    requires pos <= |input|
    ensures pos <= e <= |input|
    ensures forall k :: pos <= k < e ==> IsWordChar(input[k])
    ensures e == |input| || !IsWordChar(input[e])
    decreases |input| - pos
  {
    if pos < |input| && IsWordChar(input[pos]) then WordRunEnd(input, pos + 1) else pos
  }

  /** The first double quote at or after `pos`. */
  function QuoteAt(input: string, pos: nat): (q: nat)
    requires pos <= |input|
    requires '"' in input[pos..]
    ensures pos <= q < |input| && input[q] == '"'
    ensures forall k :: pos <= k < q ==> input[k] != '"'
    decreases |input| - pos
  {
    assert input[pos..] == [input[pos]] + input[pos + 1..];
    if input[pos] == '"' then pos else QuoteAt(input, pos + 1)
  }

  /** `tokenizeNumber`: the maximal digit run at `pos` becomes one number token holding its
      decimal value, and scanning resumes just after the run. */
  function TokenizeNumber(input: string, pos: nat): (r: Scan)
    requires pos < |input| && IsDigit(input[pos])
    ensures pos < r.next <= |input|
    ensures forall k :: pos <= k < r.next ==> IsDigit(input[k])
    ensures r.next == |input| || !IsDigit(input[r.next])
    ensures r.token == Token(Number, NumberValue(DecimalValue(input[pos..r.next])))
  {
    var e := DigitRunEnd(input, pos);
    Scan(Token(Number, NumberValue(DecimalValue(input[pos..e]))), e)
  }

  /** `tokenizeString`: the characters strictly between the opening quote at `pos` and the next
      quote become one string token, with no escape processing; scanning resumes after the
      closing quote. */
  function TokenizeString(input: string, pos: nat): (r: Scan)
    requires pos < |input| && input[pos] == '"'
    requires '"' in input[pos + 1..]
    ensures pos + 2 <= r.next <= |input| && input[r.next - 1] == '"'
    ensures r.token == Token(String, TextValue(input[pos + 1..r.next - 1]))
    ensures '"' !in r.token.value.text
  {
    var q := QuoteAt(input, pos + 1);
    Scan(Token(String, TextValue(input[pos + 1..q])), q + 1)
  }

  /** `tokenizeIdentifier`: the maximal `[a-zA-Z_]` run at `pos` becomes a keyword token when it
      is one of the seven reserved words and an identifier token otherwise. The run stops at
      the end of the input (see the as-written scanner in module LexerAsWritten, which does not). */
  function TokenizeIdentifier(input: string, pos: nat): (r: Scan)
    requires pos < |input| && IsWordChar(input[pos])
    ensures pos < r.next <= |input|
    ensures forall k :: pos <= k < r.next ==> IsWordChar(input[k])
    ensures r.next == |input| || !IsWordChar(input[r.next])
    ensures r.token.value == TextValue(input[pos..r.next])
    ensures r.token.kind == Keyword <==> input[pos..r.next] in Keywords
    ensures r.token.kind == Keyword || r.token.kind == Identifier
  {
    var e := WordRunEnd(input, pos);
    var word := input[pos..e];
    Scan(Token(if word in Keywords then Keyword else Identifier, TextValue(word)), e)
  }

  /** Splitting a suffix splits its quote count. */
  lemma QuoteCountSplit(input: string, a: nat, b: nat)
    requires a <= b <= |input|
    ensures QuoteCount(input[a..]) == QuoteCount(input[a..b]) + QuoteCount(input[b..])
  {
    assert input[a..] == input[a..b] + input[b..];
    QuoteCountConcat(input[a..b], input[b..]);
  }

  /** Skipping characters that are not quotes keeps the quote count of the rest. */
  lemma QuoteFreeSkip(input: string, a: nat, b: nat)
    requires a <= b <= |input|
    requires forall k :: a <= k < b ==> input[k] != '"'
    ensures QuoteCount(input[a..]) == QuoteCount(input[b..])
  {
    QuoteCountSplit(input, a, b);
    QuoteCountZero(input[a..b]);
  }

  /** An opening quote at `pos` of a suffix with an even number of quotes has a closing quote,
      and the rest after the closing quote again holds an even number. */
  lemma StringQuotes(input: string, pos: nat)
    requires pos < |input| && input[pos] == '"'
    requires QuoteCount(input[pos..]) % 2 == 0
    ensures '"' in input[pos + 1..]
    ensures QuoteCount(input[QuoteAt(input, pos + 1) + 1..]) % 2 == 0
  {
    assert input[pos..][1..] == input[pos + 1..];
    QuoteCountZero(input[pos + 1..]);
    var q := QuoteAt(input, pos + 1);
    QuoteFreeSkip(input, pos + 1, q);
    assert input[q..][1..] == input[q + 1..];
  }

  /** The facts `tokenize` promises of its output: one end token, last, and tokens shaped as
      the tokenizer makes them; no token has the table's brace kinds. */
  predicate WellEnded(r: seq<Token>) {
    && |r| >= 1
    && r[|r| - 1] == EofToken
    && (forall i :: 0 <= i < |r| - 1 ==> r[i].kind != Eof)
    && (forall i :: 0 <= i < |r| ==> ValidToken(r[i]))
    && (forall i :: 0 <= i < |r| ==> r[i].kind != LPrace && r[i].kind != RPrace)
  }

  lemma ConsWellEnded(t: Token, r: seq<Token>)
    requires ValidToken(t) && t.kind != Eof && t.kind != LPrace && t.kind != RPrace
    requires WellEnded(r)
    ensures WellEnded([t] + r)
  {
    var r' := [t] + r;
    forall i | 0 <= i < |r'|
      ensures ValidToken(r'[i]) && r'[i].kind != LPrace && r'[i].kind != RPrace
      ensures i < |r'| - 1 ==> r'[i].kind != Eof
    {
      if i > 0 { assert r'[i] == r[i - 1]; }
    }
  }

  /** What one pass of the loop in `tokenize` at `pos` guarantees: it consumes at least one
      character, leaves an even number of quotes behind, pushes a well-typed token of none of
      the kinds the end marker and the brace table use, and pushes nothing exactly when the
      character is skipped. */
  predicate GoodPass(input: string, pos: nat, r: (Option<Token>, nat))
    requires pos < |input|
  {
    && pos < r.1 <= |input|
    && QuoteCount(input[r.1..]) % 2 == 0
    && (r.0.Some? ==> ValidToken(r.0.value))
    && (r.0.Some? ==> r.0.value.kind != Eof && r.0.value.kind != LPrace && r.0.value.kind != RPrace)
    && (r.0.None? <==> IsSkipped(input[pos]))
  }

  /** One pass of the loop in `tokenize` at position `pos`: the token it pushes, if any, and
      the position it moves to. */
  function NextToken(input: string, pos: nat): (r: (Option<Token>, nat))
    requires pos < |input|
    requires QuoteCount(input[pos..]) % 2 == 0
    ensures GoodPass(input, pos, r)
  {
    var c := input[pos];
    if IsDigit(c) then
      NumberPass(input, pos);
      (Some(TokenizeNumber(input, pos).token), TokenizeNumber(input, pos).next)
    else if c == '"' then
      StringPass(input, pos);
      (Some(TokenizeString(input, pos).token), TokenizeString(input, pos).next)
    else if IsWordChar(c) then
      WordPass(input, pos);
      (Some(TokenizeIdentifier(input, pos).token), TokenizeIdentifier(input, pos).next)
    else if IsSymbolChar(c) then
      SymbolPass(input, pos);
      (Some(Token(SymbolKind(c), TextValue([c]))), pos + 1)
    else
      QuoteFreeSkip(input, pos, pos + 1);
      (None, pos + 1)
  }

  lemma NumberPass(input: string, pos: nat)
    requires pos < |input| && IsDigit(input[pos]) && QuoteCount(input[pos..]) % 2 == 0
    ensures GoodPass(input, pos, (Some(TokenizeNumber(input, pos).token), TokenizeNumber(input, pos).next))
  {
    QuoteFreeSkip(input, pos, TokenizeNumber(input, pos).next);
  }

  lemma StringPass(input: string, pos: nat)
    requires pos < |input| && input[pos] == '"' && QuoteCount(input[pos..]) % 2 == 0
    ensures '"' in input[pos + 1..]
    ensures GoodPass(input, pos, (Some(TokenizeString(input, pos).token), TokenizeString(input, pos).next))
  {
    StringQuotes(input, pos);
  }

  lemma WordPass(input: string, pos: nat)
    requires pos < |input| && IsWordChar(input[pos]) && QuoteCount(input[pos..]) % 2 == 0
    ensures GoodPass(input, pos,
      (Some(TokenizeIdentifier(input, pos).token), TokenizeIdentifier(input, pos).next))
  {
    QuoteFreeSkip(input, pos, TokenizeIdentifier(input, pos).next);
  }

  lemma SymbolPass(input: string, pos: nat)
    requires pos < |input| && IsSymbolChar(input[pos]) && QuoteCount(input[pos..]) % 2 == 0
    ensures GoodPass(input, pos, (Some(Token(SymbolKind(input[pos]), TextValue([input[pos]]))), pos + 1))
  {
    QuoteFreeSkip(input, pos, pos + 1);
  }

  /** A character that starts no token: `tokenize` steps over it. */
  predicate IsSkipped(c: char) {
    !IsDigit(c) && c != '"' && !IsWordChar(c) && !IsSymbolChar(c)
  }

  /** The loop of `tokenize` from position `pos` on: the tokens of the rest of the input,
      followed by exactly one end token. */
  function TokenizeFrom(input: string, pos: nat): (r: seq<Token>)
    requires pos <= |input|
    requires QuoteCount(input[pos..]) % 2 == 0
    ensures WellEnded(r)
    ensures |r| <= |input| - pos + 1
    decreases |input| - pos
  {
    if pos == |input| then
      [EofToken]
    else
      var (t, next) := NextToken(input, pos);
      var rest := TokenizeFrom(input, next);
      match t
      case Some(tok) =>
        ConsWellEnded(tok, rest);
        [tok] + rest
      case None => rest
  }

  /** `tokenize`: the whole source, provided every opening quote has a closing one (otherwise
      the source never returns a token list: the string it builds grows by "undefined" on every
      pass until the engine throws a RangeError). */
  function Tokenize(input: string): (r: seq<Token>)
    requires QuoteCount(input) % 2 == 0
    ensures WellEnded(r)
  {
    assert input[0..] == input;
    TokenizeFrom(input, 0)
  }
}
