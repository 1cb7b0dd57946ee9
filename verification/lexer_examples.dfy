/** Worked inputs for the tokenizer model. */
module LexerExamples {
  import opened Numerals
  import opened Lexer
  import opened LexerProperties

  /** Text that prints `ts` and then one more space tokenizes to `ts`. */
  lemma UntokenizeSpaced(ts: seq<Token>, text: string)
    requires forall i :: 0 <= i < |ts| ==> Lexable(ts[i])
    requires Untokenize(ts) == text + " "
    ensures QuoteCount(text) % 2 == 0
    ensures Tokenize(text) == ts + [EofToken]
  {
    UntokenizeRoundTrip(ts);
    QuoteCountConcat(text, " ");
    assert QuoteCount(" ") == 0;
    assert text[0..] == text;
    TokenizeAppendSkipped(text, ' ', 0);
    assert (text + [' '])[0..] == text + " ";
  }

  lemma DemoLexable()
    ensures forall i :: 0 <= i < |DemoTokens| ==> Lexable(DemoTokens[i])
  {
    assert Lexable(Name) && Lexable(Equals) && Lexable(Ali) && Lexable(Age) && Lexable(TwentyFour);
  }

  const Name := Token(Identifier, TextValue("name"))
  const Equals := Token(Assign, TextValue("="))
  const Ali := Token(String, TextValue("Ali"))
  const Age := Token(Identifier, TextValue("age"))
  const TwentyFour := Token(Number, NumberValue(24))
  const DemoTokens := [Name, Equals, Ali, Age, Equals, TwentyFour]

  lemma UntokenizeSix(a: Token, b: Token, c: Token, d: Token, e: Token, f: Token)
    ensures Untokenize([a, b, c, d, e, f])
         == Lexeme(a) + " " + (Lexeme(b) + " " + (Lexeme(c) + " " + (Lexeme(d) + " " + (Lexeme(e)
            + " " + (Lexeme(f) + " " + "")))))
  {
    UntokenizeCons(a, [b, c, d, e, f]);
    UntokenizeCons(b, [c, d, e, f]);
    UntokenizeCons(c, [d, e, f]);
    UntokenizeCons(d, [e, f]);
    UntokenizeCons(e, [f]);
    UntokenizeCons(f, []);
  }

  lemma UntokenizeCons(t: Token, ts: seq<Token>)
    ensures Untokenize([t] + ts) == Lexeme(t) + " " + Untokenize(ts)
  {
    assert ([t] + ts)[1..] == ts;
  }

  lemma DemoLexemes()
    ensures Lexeme(Name) == "name" && Lexeme(Equals) == "=" && Lexeme(Ali) == "\"Ali\""
    ensures Lexeme(Age) == "age" && Lexeme(TwentyFour) == "24"
  {
    assert NatToDecimal(24) == "24";
  }

  lemma DemoSpelling()
    ensures "name" + " " + ("=" + " " + ("\"Ali\"" + " " + ("age" + " " + ("=" + " " + ("24" + " "
            + ""))))) == "name = \"Ali\" age = 24 "
  {
  }

  lemma DemoText()
    ensures Untokenize(DemoTokens) == "name = \"Ali\" age = 24 "
  {
    UntokenizeSix(Name, Equals, Ali, Age, Equals, TwentyFour);
    DemoLexemes();
    DemoSpelling();
  }

  /** The demonstration input tokenizes to the six tokens, then the end marker. */
  lemma DemoTokenizes()
    ensures QuoteCount("name = \"Ali\" age = 24") % 2 == 0
    ensures Tokenize("name = \"Ali\" age = 24") == DemoTokens + [EofToken]
  {
    DemoLexable();
    DemoText();
    UntokenizeSpaced(DemoTokens, "name = \"Ali\" age = 24");
  }

  /** `3.5` is two numbers: the point starts no token, so it ends the first digit run and is
      skipped. */
  lemma DecimalPointSplits()
    ensures QuoteCount("3.5") % 2 == 0
    ensures Tokenize("3.5") == [Token(Number, NumberValue(3)), Token(Number, NumberValue(5)), EofToken]
  {
    var input := "3.5";
    assert QuoteCount(input[2..]) == 0;
    assert QuoteCount(input[1..]) == 0;
    assert QuoteCount(input) == 0;
    assert input[0..] == input;
    NextAtDigit(input, 0);
    assert DigitRunEnd(input, 0) == 1;
    assert input[0..1] == "3";
    assert TokenizeFrom(input, 0) == [Token(Number, NumberValue(3))] + TokenizeFrom(input, 1);
    NextAtSkipped(input, 1);
    assert TokenizeFrom(input, 1) == TokenizeFrom(input, 2);
    NextAtDigit(input, 2);
    assert DigitRunEnd(input, 2) == 3;
    assert input[2..3] == "5";
    assert TokenizeFrom(input, 2) == [Token(Number, NumberValue(5)), EofToken];
  }

  /** A digit ends an identifier: `ab1` is the identifier `ab`, then the number 1. */
  lemma DigitEndsIdentifier()
    ensures QuoteCount("ab1") % 2 == 0
    ensures Tokenize("ab1") == [Token(Identifier, TextValue("ab")), Token(Number, NumberValue(1)), EofToken]
  {
    var input := "ab1";
    assert QuoteCount(input[2..]) == 0;
    assert QuoteCount(input[1..]) == 0;
    assert QuoteCount(input) == 0;
    assert input[0..] == input;
    NextAtWord(input, 0);
    assert WordRunEnd(input, 0) == 2;
    assert input[0..2] == "ab";
    assert "ab" !in Keywords;
    assert TokenizeFrom(input, 0) == [Token(Identifier, TextValue("ab"))] + TokenizeFrom(input, 2);
    NextAtDigit(input, 2);
    assert DigitRunEnd(input, 2) == 3;
    assert input[2..3] == "1";
    assert TokenizeFrom(input, 2) == [Token(Number, NumberValue(1)), EofToken];
  }

  /** `==` is two assignment tokens: the tokenizer has no two-character operators, so the
      comparison operators the interpreter knows cannot come out of it. */
  lemma DoubleEquals(input: string, pos: nat)
    requires pos + 1 < |input| && input[pos] == '=' && input[pos + 1] == '='
    requires QuoteCount(input[pos..]) % 2 == 0
    ensures QuoteCount(input[pos + 2..]) % 2 == 0
    ensures TokenizeFrom(input, pos)
         == [Token(Assign, TextValue("=")), Token(Assign, TextValue("="))] + TokenizeFrom(input, pos + 2)
  {
    SymbolToken(input, pos);
    SymbolToken(input, pos + 1);
    var eq := Token(Assign, TextValue("="));
    assert Token(SymbolKind(input[pos]), TextValue([input[pos]])) == eq;
    assert Token(SymbolKind(input[pos + 1]), TextValue([input[pos + 1]])) == eq;
    ConsTwo(eq, eq, TokenizeFrom(input, pos + 2));
  }

  lemma ConsTwo<T>(a: T, b: T, r: seq<T>)
    ensures [a] + ([b] + r) == [a, b] + r
  {
  }
}
