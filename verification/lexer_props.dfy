/** Properties of the tokenizer model: what each kind of character produces, that tokenizing
    only depends on the unread rest of the input, and that printing tokens back as text and
    tokenizing that text again gives the same tokens. */
module LexerProperties {
  import opened Numerals
  import opened Lexer
  import opened Wrappers

  /** Each of the nine symbol characters becomes exactly one token holding that character;
      `=` is an assignment token, `{` and `}` get no kind. */
  lemma SymbolToken(input: string, pos: nat)
    requires pos < |input| && IsSymbolChar(input[pos])
    requires QuoteCount(input[pos..]) % 2 == 0
    ensures QuoteCount(input[pos + 1..]) % 2 == 0
    ensures TokenizeFrom(input, pos)
         == [Token(SymbolKind(input[pos]), TextValue([input[pos]]))] + TokenizeFrom(input, pos + 1)
  {
    var c := input[pos];
    assert NextToken(input, pos) == (Some(Token(SymbolKind(c), TextValue([c]))), pos + 1);
  }

  /** A run of characters that start no token (white space, `<`, `>`, `[`, `,`, `.`, `^`, ...)
      produces no token at all. */
  lemma {:induction false} SkippedRun(input: string, pos: nat, end: nat)
    requires pos <= end <= |input|
    requires forall k :: pos <= k < end ==> IsSkipped(input[k])
    requires QuoteCount(input[pos..]) % 2 == 0
    ensures QuoteCount(input[end..]) % 2 == 0
    ensures TokenizeFrom(input, pos) == TokenizeFrom(input, end)
    decreases end - pos
  {
    QuoteFreeSkip(input, pos, end);
    if pos < end {
      assert NextToken(input, pos) == (None, pos + 1);
      SkippedRun(input, pos + 1, end);
    }
  }

  /** Two texts that agree from positions `i` and `j` on. */
  predicate SameRest(a: string, i: nat, b: string, j: nat) {
    i <= |a| && j <= |b| && a[i..] == b[j..]
  }

  lemma SameRestAt(a: string, i: nat, b: string, j: nat, k: nat)
    requires SameRest(a, i, b, j) && i + k <= |a|
    ensures j + k <= |b|
    ensures i + k < |a| ==> j + k < |b| && a[i + k] == b[j + k]
    ensures SameRest(a, i + k, b, j + k)
    ensures a[i..i + k] == b[j..j + k]
  {
    assert a[i..][k..] == a[i + k..];
    assert b[j..][k..] == b[j + k..];
    if i + k < |a| { assert a[i..][k] == a[i + k]; }
    assert a[i..][..k] == a[i..i + k];
    assert b[j..][..k] == b[j..j + k];
  }

  lemma {:induction false} DigitRunSame(a: string, i: nat, b: string, j: nat)
    requires SameRest(a, i, b, j)
    ensures DigitRunEnd(a, i) - i == DigitRunEnd(b, j) - j
    decreases |a| - i
  {
    if i < |a| {
      SameRestAt(a, i, b, j, 1);
      SameRestAt(a, i, b, j, 0);
      assert a[i] == a[i..][0] == b[j..][0] == b[j];
      DigitRunSame(a, i + 1, b, j + 1);
    }
  }

  lemma {:induction false} WordRunSame(a: string, i: nat, b: string, j: nat)
    requires SameRest(a, i, b, j)
    ensures WordRunEnd(a, i) - i == WordRunEnd(b, j) - j
    decreases |a| - i
  {
    if i < |a| {
      SameRestAt(a, i, b, j, 1);
      assert a[i] == a[i..][0] == b[j..][0] == b[j];
      WordRunSame(a, i + 1, b, j + 1);
    }
  }

  lemma {:induction false} QuoteAtSame(a: string, i: nat, b: string, j: nat)
    requires SameRest(a, i, b, j) && '"' in a[i..]
    ensures '"' in b[j..]
    ensures QuoteAt(a, i) - i == QuoteAt(b, j) - j
    decreases |a| - i
  {
    assert a[i..] == [a[i]] + a[i + 1..];
    assert a[i] == a[i..][0] == b[j..][0] == b[j];
    if a[i] != '"' {
      SameRestAt(a, i, b, j, 1);
      QuoteAtSame(a, i + 1, b, j + 1);
    }
  }

  lemma NumberSame(a: string, i: nat, b: string, j: nat)
    requires SameRest(a, i, b, j) && i < |a| && IsDigit(a[i])
    ensures j < |b| && a[i] == b[j]
    ensures TokenizeNumber(a, i).token == TokenizeNumber(b, j).token
    ensures TokenizeNumber(a, i).next - i == TokenizeNumber(b, j).next - j
  {
    SameRestAt(a, i, b, j, 0);
    assert a[i] == a[i..][0] == b[j..][0] == b[j];
    DigitRunSame(a, i, b, j);
    SameRestAt(a, i, b, j, DigitRunEnd(a, i) - i);
  }

  lemma StringSame(a: string, i: nat, b: string, j: nat)
    requires SameRest(a, i, b, j) && i < |a| && a[i] == '"' && '"' in a[i + 1..]
    ensures j < |b| && b[j] == '"' && '"' in b[j + 1..]
    ensures TokenizeString(a, i).token == TokenizeString(b, j).token
    ensures TokenizeString(a, i).next - i == TokenizeString(b, j).next - j
  {
    SameRestAt(a, i, b, j, 0);
    assert a[i] == a[i..][0] == b[j..][0] == b[j];
    SameRestAt(a, i, b, j, 1);
    QuoteAtSame(a, i + 1, b, j + 1);
    var qa, qb := QuoteAt(a, i + 1), QuoteAt(b, j + 1);
    SameRestAt(a, i + 1, b, j + 1, qa - (i + 1));
    StringTokenAt(a, i);
    StringTokenAt(b, j);
    assert a[i + 1..qa] == b[j + 1..qb];
  }

  lemma StringTokenAt(a: string, i: nat)
    requires i < |a| && a[i] == '"' && '"' in a[i + 1..]
    ensures TokenizeString(a, i) == Scan(Token(String, TextValue(a[i + 1..QuoteAt(a, i + 1)])), QuoteAt(a, i + 1) + 1)
  {
  }

  lemma WordSame(a: string, i: nat, b: string, j: nat)
    requires SameRest(a, i, b, j) && i < |a| && IsWordChar(a[i])
    ensures j < |b| && a[i] == b[j]
    ensures TokenizeIdentifier(a, i).token == TokenizeIdentifier(b, j).token
    ensures TokenizeIdentifier(a, i).next - i == TokenizeIdentifier(b, j).next - j
  {
    SameRestAt(a, i, b, j, 0);
    assert a[i] == a[i..][0] == b[j..][0] == b[j];
    WordRunSame(a, i, b, j);
    SameRestAt(a, i, b, j, WordRunEnd(a, i) - i);
  }

  /** One pass of the loop depends only on the text from the current position on. */
  lemma NextTokenSame(a: string, i: nat, b: string, j: nat)
    requires SameRest(a, i, b, j) && i < |a|
    requires QuoteCount(a[i..]) % 2 == 0
    ensures j < |b| && QuoteCount(b[j..]) % 2 == 0
    ensures NextToken(a, i).0 == NextToken(b, j).0
    ensures NextToken(a, i).1 - i == NextToken(b, j).1 - j
  {
    SameRestAt(a, i, b, j, 0);
    assert a[i] == a[i..][0] == b[j..][0] == b[j];
    var c := a[i];
    if IsDigit(c) {
      NumberSame(a, i, b, j);
    } else if c == '"' {
      StringQuotes(a, i);
      StringSame(a, i, b, j);
    } else if IsWordChar(c) {
      WordSame(a, i, b, j);
    }
  }

  /** The tokens pushed by one pass, in front of the rest. */
  function Emit(t: Option<Token>, rest: seq<Token>): seq<Token> {
    match t
    case Some(tok) => [tok] + rest
    case None => rest
  }

  /** The loop of `tokenize`, one pass at a time. */
  lemma TokenizeStep(input: string, pos: nat)
    requires pos < |input|
    requires QuoteCount(input[pos..]) % 2 == 0
    ensures TokenizeFrom(input, pos)
         == Emit(NextToken(input, pos).0, TokenizeFrom(input, NextToken(input, pos).1))
  {
  }

  /** Tokenizing from a position depends only on the text from there on. */
  lemma {:induction false} TokenizeSame(a: string, i: nat, b: string, j: nat)
    requires SameRest(a, i, b, j)
    requires QuoteCount(a[i..]) % 2 == 0
    ensures QuoteCount(b[j..]) % 2 == 0
    ensures TokenizeFrom(a, i) == TokenizeFrom(b, j)
    decreases |a| - i
  {
    SameRestAt(a, i, b, j, 0);
    if i < |a| {
      NextTokenSame(a, i, b, j);
      var na := NextToken(a, i).1;
      var nb := NextToken(b, j).1;
      SameRestAt(a, i, b, j, na - i);
      TokenizeSame(a, na, b, nb);
      TokenizeStep(a, i);
      TokenizeStep(b, j);
    } else {
      assert b[j..] == [];
    }
  }

  lemma {:induction false} DigitRunAppend(a: string, c: char, i: nat)
    requires i <= |a| && !IsDigit(c)
    ensures DigitRunEnd(a + [c], i) == DigitRunEnd(a, i)
    decreases |a| - i
  {
    assert (a + [c])[|a|] == c;
    if i < |a| {
      assert (a + [c])[i] == a[i];
      DigitRunAppend(a, c, i + 1);
    }
  }

  lemma {:induction false} WordRunAppend(a: string, c: char, i: nat)
    requires i <= |a| && !IsWordChar(c)
    ensures WordRunEnd(a + [c], i) == WordRunEnd(a, i)
    decreases |a| - i
  {
    assert (a + [c])[|a|] == c;
    if i < |a| {
      assert (a + [c])[i] == a[i];
      WordRunAppend(a, c, i + 1);
    }
  }

  lemma {:induction false} QuoteAtAppend(a: string, c: char, i: nat)
    requires i <= |a| && '"' in a[i..]
    ensures '"' in (a + [c])[i..]
    ensures QuoteAt(a + [c], i) == QuoteAt(a, i)
    decreases |a| - i
  {
    assert (a + [c])[i..] == a[i..] + [c];
    assert a[i..] == [a[i]] + a[i + 1..];
    assert (a + [c])[i] == a[i];
    if a[i] != '"' {
      QuoteAtAppend(a, c, i + 1);
    }
  }

  lemma NumberAppend(a: string, c: char, i: nat)
    requires i < |a| && IsDigit(a[i]) && !IsDigit(c)
    ensures (a + [c])[i] == a[i]
    ensures TokenizeNumber(a + [c], i) == TokenizeNumber(a, i)
  {
    assert (a + [c])[i] == a[i];
    DigitRunAppend(a, c, i);
    assert (a + [c])[i..DigitRunEnd(a, i)] == a[i..DigitRunEnd(a, i)];
  }

  lemma StringAppend(a: string, c: char, i: nat)
    requires i < |a| && a[i] == '"' && '"' in a[i + 1..]
    ensures (a + [c])[i] == a[i] && '"' in (a + [c])[i + 1..]
    ensures TokenizeString(a + [c], i) == TokenizeString(a, i)
  {
    assert (a + [c])[i] == a[i];
    QuoteAtAppend(a, c, i + 1);
    var q := QuoteAt(a, i + 1);
    assert (a + [c])[i + 1..q] == a[i + 1..q];
  }

  lemma WordAppend(a: string, c: char, i: nat)
    requires i < |a| && IsWordChar(a[i]) && !IsWordChar(c)
    ensures (a + [c])[i] == a[i]
    ensures TokenizeIdentifier(a + [c], i) == TokenizeIdentifier(a, i)
  {
    assert (a + [c])[i] == a[i];
    WordRunAppend(a, c, i);
    assert (a + [c])[i..WordRunEnd(a, i)] == a[i..WordRunEnd(a, i)];
  }

  /** A character that starts no token, added at the end, leaves one pass unchanged. */
  lemma NextTokenAppend(a: string, c: char, i: nat)
    requires i < |a| && IsSkipped(c)
    requires QuoteCount(a[i..]) % 2 == 0
    ensures (a + [c])[i..] == a[i..] + [c]
    ensures QuoteCount((a + [c])[i..]) % 2 == 0
    ensures NextToken(a + [c], i) == NextToken(a, i)
  {
    var b := a + [c];
    assert b[i..] == a[i..] + [c];
    QuoteCountConcat(a[i..], [c]);
    assert b[i] == a[i];
    if IsDigit(a[i]) {
      NumberAppend(a, c, i);
    } else if a[i] == '"' {
      StringQuotes(a, i);
      StringAppend(a, c, i);
    } else if IsWordChar(a[i]) {
      WordAppend(a, c, i);
    }
  }

  /** A character that starts no token, added at the end of the input, changes no token. */
  lemma {:induction false} TokenizeAppendSkipped(a: string, c: char, i: nat)
    requires i <= |a| && IsSkipped(c)
    requires QuoteCount(a[i..]) % 2 == 0
    ensures (a + [c])[i..] == a[i..] + [c]
    ensures QuoteCount((a + [c])[i..]) % 2 == 0
    ensures TokenizeFrom(a + [c], i) == TokenizeFrom(a, i)
    decreases |a| - i
  {
    var b := a + [c];
    assert b[i..] == a[i..] + [c];
    QuoteCountConcat(a[i..], [c]);
    if i < |a| {
      NextTokenAppend(a, c, i);
      var next := NextToken(a, i).1;
      TokenizeAppendSkipped(a, c, next);
      TokenizeStep(b, i);
      TokenizeStep(a, i);
    } else {
      assert b[i] == c;
      assert NextToken(b, i) == (None, i + 1);
      TokenizeStep(b, i);
    }
  }

  // ---------------------------------------------------------------------------------------
  // Printing tokens back as text

  predicate IsWord(w: string) {
    |w| >= 1 && forall k :: 0 <= k < |w| ==> IsWordChar(w[k])
  }

  /** A token that the tokenizer can produce from some text: its literal is what that text
      would give (identifiers are words that are not reserved, symbols are one of the nine). */
  predicate Lexable(t: Token) {
    if t.kind == Number then t.value.NumberValue?
    else if t.kind == String then t.value.TextValue? && '"' !in t.value.text
    else if t.kind == Identifier then
      t.value.TextValue? && IsWord(t.value.text) && t.value.text !in Keywords
    else if t.kind == Keyword then t.value.TextValue? && t.value.text in Keywords
    else IsSymbolToken(t)
  }

  /** A token for one of the nine symbol characters, with the kind `getOperatorType` gives it. */
  predicate IsSymbolToken(t: Token) {
    t.value.TextValue? && |t.value.text| == 1 && IsSymbolChar(t.value.text[0])
    && SymbolKind(t.value.text[0]) == t.kind
  }

  /** The source text of one token (for a lexable token; any other token gets some text). */
  function Lexeme(t: Token): (s: string)
    ensures Lexable(t) ==> |s| >= 1
  {
    match t.value
    case NumberValue(n) => NatToDecimal(n)
    case TextValue(x) => if t.kind == String then "\"" + x + "\"" else x
    case Absent => ""
  }

  /** The reserved words are words. */
  lemma KeywordIsWord(w: string)
    requires w in Keywords
    ensures IsWord(w)
  {
  }

  /** A word holds no quote. */
  lemma WordQuotes(w: string)
    requires IsWord(w)
    ensures QuoteCount(w) == 0
  {
    QuoteCountZero(w);
  }

  /** A lexeme holds an even number of quotes: none, or the two around a string. */
  lemma LexemeQuotes(t: Token)
    requires Lexable(t)
    ensures QuoteCount(Lexeme(t)) % 2 == 0
  {
    var l := Lexeme(t);
    if t.kind == Number {
      DigitsQuotes(l);
    } else if t.kind == String {
      StringLexemeQuotes(t.value.text);
    } else if t.kind == Identifier {
      WordQuotes(l);
    } else if t.kind == Keyword {
      KeywordQuotes(l);
    } else {
      SymbolQuotes(l);
    }
  }

  lemma KeywordQuotes(w: string)
    requires w in Keywords
    ensures QuoteCount(w) == 0
  {
    KeywordIsWord(w);
    WordQuotes(w);
  }

  lemma SymbolQuotes(l: string)
    requires |l| == 1 && IsSymbolChar(l[0])
    ensures QuoteCount(l) == 0
  {
    assert l == [l[0]] && l[1..] == [];
  }

  lemma DigitsQuotes(l: string)
    requires forall k :: 0 <= k < |l| ==> IsDigit(l[k])
    ensures QuoteCount(l) == 0
  {
    QuoteCountZero(l);
  }

  lemma StringLexemeQuotes(x: string)
    requires '"' !in x
    ensures QuoteCount("\"" + x + "\"") == 2
  {
    QuoteCountZero(x);
    QuoteCountConcat("\"", x);
    QuoteCountConcat("\"" + x, "\"");
  }

  /** Source text for a token list: each token's text followed by one space. */
  function Untokenize(ts: seq<Token>): string {
    if ts == [] then "" else Lexeme(ts[0]) + " " + Untokenize(ts[1..])
  }

  lemma {:induction false} UntokenizeQuotes(ts: seq<Token>)
    requires forall i :: 0 <= i < |ts| ==> Lexable(ts[i])
    ensures QuoteCount(Untokenize(ts)) % 2 == 0
  {
    if ts != [] {
      LexemeQuotes(ts[0]);
      UntokenizeQuotes(ts[1..]);
      EvenAroundSpace(Lexeme(ts[0]), Untokenize(ts[1..]));
    }
  }

  lemma EvenAroundSpace(l: string, rest: string)
    requires QuoteCount(l) % 2 == 0 && QuoteCount(rest) % 2 == 0
    ensures QuoteCount(l + " " + rest) % 2 == 0
  {
    QuoteCountConcat(l, " ");
    QuoteCountConcat(l + " ", rest);
    assert QuoteCount(" ") == 0;
  }

  /** The first step of tokenizing a lexeme followed by a space yields its token and resumes
      after the space. */
  lemma FirstToken(t: Token, s: string)
    requires Lexable(t)
    requires QuoteCount(s) % 2 == 0
    ensures QuoteCount(Lexeme(t) + " " + s) % 2 == 0
    ensures TokenizeFrom(Lexeme(t) + " " + s, 0) == [t] + TokenizeFrom(s, 0)
  {
    var l := Lexeme(t);
    var input := l + " " + s;
    LexemeQuotes(t);
    EvenAroundSpace(l, s);
    assert input[..|l|] == l && input[|l|] == ' ';
    FirstLexeme(t, input);
    assert input[|l| + 1..] == s;
    PassThenSpace(input, t, |l|, s);
  }

  /** A pass that pushes `t` and stops at a space, followed by the text `s`. */
  lemma PassThenSpace(input: string, t: Token, n: nat, s: string)
    requires n < |input| && input[n] == ' ' && input[n + 1..] == s
    requires QuoteCount(input) % 2 == 0 && input[0..] == input
    requires NextToken(input, 0) == (Some(t), n)
    ensures QuoteCount(s) % 2 == 0
    ensures TokenizeFrom(input, 0) == [t] + TokenizeFrom(s, 0)
  {
    TokenizeStep(input, 0);
    NextAtSkipped(input, n);
    TokenizeStep(input, n);
    assert s[0..] == s;
    TokenizeSame(input, n + 1, s, 0);
  }

  lemma NextAtSkipped(input: string, pos: nat)
    requires pos < |input| && QuoteCount(input[pos..]) % 2 == 0 && IsSkipped(input[pos])
    ensures NextToken(input, pos) == (None, pos + 1)
  {
  }

  /** The pass at a digit, at a quote, at a letter and at a symbol character. */
  lemma NextAtDigit(input: string, pos: nat)
    requires pos < |input| && QuoteCount(input[pos..]) % 2 == 0 && IsDigit(input[pos])
    ensures NextToken(input, pos) == (Some(TokenizeNumber(input, pos).token), TokenizeNumber(input, pos).next)
  {
  }

  lemma NextAtQuote(input: string, pos: nat)
    requires pos < |input| && QuoteCount(input[pos..]) % 2 == 0 && input[pos] == '"'
    ensures '"' in input[pos + 1..]
    ensures NextToken(input, pos) == (Some(TokenizeString(input, pos).token), TokenizeString(input, pos).next)
  {
    StringQuotes(input, pos);
  }

  lemma NextAtWord(input: string, pos: nat)
    requires pos < |input| && QuoteCount(input[pos..]) % 2 == 0 && IsWordChar(input[pos])
    ensures NextToken(input, pos)
         == (Some(TokenizeIdentifier(input, pos).token), TokenizeIdentifier(input, pos).next)
  {
  }

  lemma NextAtSymbol(input: string, pos: nat)
    requires pos < |input| && QuoteCount(input[pos..]) % 2 == 0 && IsSymbolChar(input[pos])
    ensures NextToken(input, pos)
         == (Some(Token(SymbolKind(input[pos]), TextValue([input[pos]]))), pos + 1)
  {
    var c := input[pos];
    assert !IsDigit(c) && c != '"' && !IsWordChar(c);
  }

  lemma NumberFirst(n: nat, input: string)
    requires var l := NatToDecimal(n); |l| < |input| && input[..|l|] == l && input[|l|] == ' '
    requires QuoteCount(input) % 2 == 0
    ensures input[0..] == input
    ensures NextToken(input, 0) == (Some(Token(Number, NumberValue(n))), |NatToDecimal(n)|)
  {
    assert input[0..] == input;
    var l := NatToDecimal(n);
    assert forall k :: 0 <= k < |l| ==> input[k] == l[k];
    var e := DigitRunEnd(input, 0);
    assert e == |l|;
    assert input[0..e] == l;
    DecimalRoundTrip(n);
    NextAtDigit(input, 0);
  }

  lemma StringFirst(x: string, input: string)
    requires '"' !in x
    requires |x| + 1 < |input| && input[0] == '"' && input[|x| + 1] == '"' && input[1..|x| + 1] == x
    requires QuoteCount(input) % 2 == 0
    ensures input[0..] == input
    ensures NextToken(input, 0) == (Some(Token(String, TextValue(x))), |x| + 2)
  {
    assert input[0..] == input;
    QuoteAtFirst(input, 1, |x| + 1);
    StringTokenAt(input, 0);
    NextAtQuote(input, 0);
  }

  /** A quoted `x` at the front of the input: the quote, then `x`, then the closing quote. */
  lemma StringPrefix(x: string, input: string)
    requires var l := "\"" + x + "\""; |l| <= |input| && input[..|l|] == l
    ensures |x| + 1 < |input| && input[0] == '"' && input[|x| + 1] == '"' && input[1..|x| + 1] == x
  {
    var l := "\"" + x + "\"";
    assert input[0] == input[..|l|][0] == l[0];
    assert input[|x| + 1] == input[..|l|][|x| + 1] == l[|x| + 1];
    assert input[1..|x| + 1] == input[..|l|][1..|x| + 1] == l[1..|x| + 1];
  }

  /** The first quote at or after `pos` is the one at `q` when none comes between. */
  lemma {:induction false} QuoteAtFirst(input: string, pos: nat, q: nat)
    requires pos <= q < |input| && input[q] == '"'
    requires '"' !in input[pos..q]
    ensures '"' in input[pos..]
    ensures QuoteAt(input, pos) == q
    decreases q - pos
  {
    assert input[pos..][q - pos] == '"';
    if pos < q {
      assert input[pos] == input[pos..q][0];
      assert input[pos + 1..q] == input[pos..q][1..];
      QuoteAtFirst(input, pos + 1, q);
    }
  }

  lemma WordFirst(w: string, input: string)
    requires IsWord(w)
    requires |w| < |input| && input[..|w|] == w && input[|w|] == ' '
    requires QuoteCount(input) % 2 == 0
    ensures input[0..] == input
    ensures NextToken(input, 0)
         == (Some(Token(if w in Keywords then Keyword else Identifier, TextValue(w))), |w|)
  {
    assert input[0..] == input;
    assert forall k :: 0 <= k < |w| ==> input[k] == w[k];
    var e := WordRunEnd(input, 0);
    assert e == |w|;
    assert input[0..e] == w;
    NextAtWord(input, 0);
  }

  lemma SymbolFirst(t: Token, input: string)
    requires IsSymbolToken(t)
    requires 1 < |input| && input[..1] == t.value.text
    requires QuoteCount(input) % 2 == 0
    ensures input[0..] == input
    ensures NextToken(input, 0) == (Some(t), 1)
  {
    assert input[0..] == input;
    var l := t.value.text;
    assert input[0] == input[..1][0] == l[0];
    assert l == [l[0]];
    NextAtSymbol(input, 0);
  }

  /** The pass at the start of a lexeme followed by a space pushes that lexeme's token and
      stops at the space. */
  lemma FirstLexeme(t: Token, input: string)
    requires Lexable(t)
    requires |Lexeme(t)| < |input| && input[..|Lexeme(t)|] == Lexeme(t) && input[|Lexeme(t)|] == ' '
    requires QuoteCount(input) % 2 == 0
    ensures input[0..] == input
    ensures NextToken(input, 0) == (Some(t), |Lexeme(t)|)
  {
    match t.value
    case NumberValue(n) =>
      NumberFirst(n, input);
    case TextValue(x) =>
      if t.kind == String {
        StringPrefix(x, input);
        StringFirst(x, input);
      } else if t.kind == Identifier || t.kind == Keyword {
        WordKindFirst(t, input);
      } else {
        SymbolFirst(t, input);
      }
  }

  lemma WordKindFirst(t: Token, input: string)
    requires t.kind == Identifier || t.kind == Keyword
    requires Lexable(t)
    requires |t.value.text| < |input| && input[..|t.value.text|] == t.value.text
    requires input[|t.value.text|] == ' '
    requires QuoteCount(input) % 2 == 0
    ensures input[0..] == input
    ensures NextToken(input, 0) == (Some(t), |t.value.text|)
  {
    var w := t.value.text;
    if t.kind == Keyword {
      KeywordIsWord(w);
    }
    WordFirst(w, input);
  }

  /** Printing lexable tokens as text and tokenizing that text gives the tokens back, followed
      by the end token. */
  lemma {:induction false} UntokenizeRoundTrip(ts: seq<Token>)
    requires forall i :: 0 <= i < |ts| ==> Lexable(ts[i])
    ensures QuoteCount(Untokenize(ts)) % 2 == 0
    ensures Tokenize(Untokenize(ts)) == ts + [EofToken]
  {
    if ts == [] {
      assert Untokenize(ts) == [];
    } else {
      UntokenizeRoundTrip(ts[1..]);
      FirstToken(ts[0], Untokenize(ts[1..]));
      RoundTripStep(ts);
    }
  }

  /** The inductive step of the round trip: one more lexeme in front. */
  lemma RoundTripStep(ts: seq<Token>)
    requires ts != []
    requires QuoteCount(Untokenize(ts[1..])) % 2 == 0
    requires Tokenize(Untokenize(ts[1..])) == ts[1..] + [EofToken]
    requires QuoteCount(Lexeme(ts[0]) + " " + Untokenize(ts[1..])) % 2 == 0
    requires TokenizeFrom(Lexeme(ts[0]) + " " + Untokenize(ts[1..]), 0)
          == [ts[0]] + TokenizeFrom(Untokenize(ts[1..]), 0)
    ensures QuoteCount(Untokenize(ts)) % 2 == 0
    ensures Tokenize(Untokenize(ts)) == ts + [EofToken]
  {
    var rest := Untokenize(ts[1..]);
    var u := Untokenize(ts);
    assert u == Lexeme(ts[0]) + " " + rest;
    assert u[0..] == u && rest[0..] == rest;
    ConsSplit(ts, EofToken);
  }

  lemma ConsSplit<T>(s: seq<T>, e: T)
    requires s != []
    ensures [s[0]] + (s[1..] + [e]) == s + [e]
  {
  }
}
