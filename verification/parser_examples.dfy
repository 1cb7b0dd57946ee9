/** Worked token sequences for the parser model: operators fold to the left with no
    precedence, the brace tokens the tokenizer makes act as operators, and the errors carry the
    source's messages. */
module ParserExamples {
  import opened Wrappers
  import L = Lexer
  import opened Ast
  import opened Parser
  import opened ParserForms

  const X := L.Token(L.Identifier, L.TextValue("x"))
  const Gets := L.Token(L.Assign, L.TextValue("="))
  const One := L.Token(L.Number, L.NumberValue(1))
  const Two := L.Token(L.Number, L.NumberValue(2))
  const Three := L.Token(L.Number, L.NumberValue(3))
  const Plus := L.Token(L.Operator, L.TextValue("+"))
  const Times := L.Token(L.Operator, L.TextValue("*"))
  const PrintWord := L.Token(L.Keyword, L.TextValue("print"))
  const IfWord := L.Token(L.Keyword, L.TextValue("if"))
  const Open := L.Token(L.LParen, L.TextValue("("))
  const Close := L.Token(L.RParen, L.TextValue(")"))
  /** The tokenizer's `{`: no kind of the table. */
  const LexedBrace := L.Token(L.Unset, L.TextValue("{"))
  /** The table's own opening brace, which the tokenizer never produces. */
  const TableBrace := L.Token(L.LPrace, L.TextValue("{"))

  /** `x = 1 + 2 * 3` is `(1 + 2) * 3`: one loop folds every operator into the left operand. */
  lemma NoPrecedence()
    ensures WellFormed([X, Gets, One, Plus, Two, Times, Three, L.EofToken])
    ensures Parse([X, Gets, One, Plus, Two, Times, Three, L.EofToken])
         == Ok([Assignment("x", BinaryExpression(BinaryExpression(Number(1.0), "+", Number(2.0)), "*", Number(3.0)))])
  {
    var toks := [X, Gets, One, Plus, Two, Times, Three, L.EofToken];
    assert WellFormed(toks);
    FoldLeft(toks, 2);
    var v := BinaryExpression(BinaryExpression(Number(1.0), "+", Number(2.0)), "*", Number(3.0));
    assert ParseExpression(toks, 2) == Parsed(v, 7);
    AssignmentParses(toks, 0, v, 7);
    ProgramParses(toks, 0, Assignment("x", v), 7, [], 7);
    assert [Assignment("x", v)] + [] == [Assignment("x", v)];
  }

  /** `print(1 { 2)` prints a binary expression whose operator is `{`: the tokenizer's brace has
      no kind, and no kind compares equal to the undefined `EQUALS` entry of the loop test. */
  lemma BraceIsOperator()
    ensures WellFormed([PrintWord, Open, One, LexedBrace, Two, Close, L.EofToken])
    ensures Parse([PrintWord, Open, One, LexedBrace, Two, Close, L.EofToken])
         == Ok([Print(BinaryExpression(Number(1.0), "{", Number(2.0)))])
  {
    var toks := [PrintWord, Open, One, LexedBrace, Two, Close, L.EofToken];
    var v := BinaryExpression(Number(1.0), "{", Number(2.0));
    assert WellFormed(toks);
    assert ParseTail(toks, 3, Number(1.0)) == ParseTail(toks, 5, v);
    assert ParseExpression(toks, 2) == Parsed(v, 5);
    PrintParses(toks, 0, v, 5);
    ProgramParses(toks, 0, Print(v), 6, [], 6);
    assert [Print(v)] + [] == [Print(v)];
  }

  /** `if (x) {` as the tokenizer spells it: the brace after the condition is not the table's
      brace, so the block is rejected before it starts. */
  lemma LexedIfRejected()
    ensures WellFormed([IfWord, Open, X, Close, LexedBrace, L.EofToken])
    ensures Parse([IfWord, Open, X, Close, LexedBrace, L.EofToken])
         == Err("Expected '{' to start a block")
  {
    var toks := [IfWord, Open, X, Close, LexedBrace, L.EofToken];
    assert ParseExpression(toks, 2) == Parsed(Variable("x"), 3);
    assert toks[4].kind != L.LPrace;
    IfWithoutBlock(toks, 0, Variable("x"), 3);
  }

  /** A block that runs into the end marker is unclosed. */
  lemma UnclosedBlock()
    ensures WellFormed([IfWord, Open, X, Close, TableBrace, L.EofToken])
    ensures Parse([IfWord, Open, X, Close, TableBrace, L.EofToken])
         == Err("Expected '}' to close block")
  {
    var toks := [IfWord, Open, X, Close, TableBrace, L.EofToken];
    assert ParseExpression(toks, 2) == Parsed(Variable("x"), 3);
    assert ParseBlock(toks, 4) == Failed(MissingBlockEnd);
    IfBlockFails(toks, 0, Variable("x"), 3);
  }

  /** `x = = 1`: the second `=` is where a primary is expected. */
  lemma DoubleEquals()
    ensures WellFormed([X, Gets, Gets, One, L.EofToken])
    ensures Parse([X, Gets, Gets, One, L.EofToken]) == Err("Unexpected token: =")
  {
    var toks := [X, Gets, Gets, One, L.EofToken];
    assert ParseExpression(toks, 2) == Failed(UnexpectedToken(L.TextValue("=")));
  }

  /** A program may not start with a number. */
  lemma NumberStatement()
    ensures WellFormed([One, L.EofToken])
    ensures Parse([One, L.EofToken]) == Err("Unexpected syntax: 1")
  {
    var toks := [One, L.EofToken];
    OtherStartRejected(toks, 0);
    assert Display(L.NumberValue(1)) == "1";
  }
}
