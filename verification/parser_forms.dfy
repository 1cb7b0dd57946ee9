/** How each statement form is recognised, the errors the parser reports, and what the
    expression loop builds. */
module ParserForms {
  import opened Wrappers
  import L = Lexer
  import opened Ast
  import opened Parser

  /** An identifier followed by `=` starts an assignment to that name. */
  lemma AssignmentParses(toks: seq<L.Token>, pos: nat, v: Expr, n: nat)
    requires WellFormed(toks) && pos + 2 < |toks|
    requires toks[pos].kind == L.Identifier && toks[pos + 1].kind == L.Assign
    requires ParseExpression(toks, pos + 2) == Parsed(v, n)
    ensures ParseStatement(toks, pos) == Parsed(Assignment(toks[pos].value.text, v), n)
  {
  }

  lemma PrintParses(toks: seq<L.Token>, pos: nat, v: Expr, n: nat)
    requires WellFormed(toks) && pos + 2 < |toks|
    requires IsKeyword(toks[pos], "print") && toks[pos + 1].kind == L.LParen
    requires ParseExpression(toks, pos + 2) == Parsed(v, n) && toks[n].kind == L.RParen
    ensures ParseStatement(toks, pos) == Parsed(Print(v), n + 1)
  {
  }

  /** An if statement with no `else` after its block. */
  lemma IfParses(toks: seq<L.Token>, pos: nat, c: Expr, n: nat, b: seq<Stmt>, m: nat)
    requires WellFormed(toks) && pos + 2 < |toks|
    requires IsKeyword(toks[pos], "if") && toks[pos + 1].kind == L.LParen
    requires ParseExpression(toks, pos + 2) == Parsed(c, n) && toks[n].kind == L.RParen
    requires ParseBlock(toks, n + 1) == Parsed(b, m) && !IsKeyword(toks[m], "else")
    ensures ParseStatement(toks, pos) == Parsed(IfStatement(c, b, NoElse), m)
  {
  }

  /** An if statement whose block is followed by `else` and a second block. */
  lemma IfElseParses(toks: seq<L.Token>, pos: nat, c: Expr, n: nat, b: seq<Stmt>, m: nat, eb: seq<Stmt>, k: nat)
    requires WellFormed(toks) && pos + 2 < |toks|
    requires IsKeyword(toks[pos], "if") && toks[pos + 1].kind == L.LParen
    requires ParseExpression(toks, pos + 2) == Parsed(c, n) && toks[n].kind == L.RParen
    requires ParseBlock(toks, n + 1) == Parsed(b, m) && IsKeyword(toks[m], "else")
    requires ParseBlock(toks, m + 1) == Parsed(eb, k)
    ensures ParseStatement(toks, pos) == Parsed(IfStatement(c, b, ElseBlock(eb)), k)
  {
  }

  /** A block's statements are parsed one after the other. */
  lemma ItemsParse(toks: seq<L.Token>, pos: nat, s: Stmt, n: nat, rest: seq<Stmt>, m: nat)
    requires WellFormed(toks) && pos < |toks| && toks[pos].kind != L.RPrace && toks[pos].kind != L.Eof
    requires ParseStatement(toks, pos) == Parsed(s, n) && ParseBlockItems(toks, n) == Parsed(rest, m)
    ensures ParseBlockItems(toks, pos) == Parsed([s] + rest, m)
  {
  }

  /** A program's statements are parsed one after the other. */
  lemma ProgramParses(toks: seq<L.Token>, pos: nat, s: Stmt, n: nat, rest: seq<Stmt>, m: nat)
    requires WellFormed(toks) && pos < |toks| && toks[pos].kind != L.Eof
    requires ParseStatement(toks, pos) == Parsed(s, n) && ParseProgram(toks, n) == Parsed(rest, m)
    ensures ParseProgram(toks, pos) == Parsed([s] + rest, m)
  {
  }

  /** An identifier not followed by `=` is a syntax error naming the identifier. */
  lemma IdentifierNeedsAssign(toks: seq<L.Token>, pos: nat)
    requires WellFormed(toks) && pos < |toks|
    requires toks[pos].kind == L.Identifier && toks[pos + 1].kind != L.Assign
    ensures ParseStatement(toks, pos) == Failed(UnexpectedSyntax(toks[pos].value))
  {
  }

  /** A token that cannot start a statement (any keyword other than `print` and `if`, a
      literal, an operator, a parenthesis, a brace, the end marker) is a syntax error. */
  lemma OtherStartRejected(toks: seq<L.Token>, pos: nat)
    requires WellFormed(toks) && pos < |toks| && !Starts(toks[pos])
    ensures ParseStatement(toks, pos) == Failed(UnexpectedSyntax(toks[pos].value))
  {
  }

  lemma PrintErrors(toks: seq<L.Token>, pos: nat)
    requires WellFormed(toks) && pos < |toks| && IsKeyword(toks[pos], "print")
    ensures toks[pos + 1].kind != L.LParen ==> ParseStatement(toks, pos) == Failed(MissingOpenAfterPrint)
    ensures toks[pos + 1].kind == L.LParen && ParseExpression(toks, pos + 2).Failed? ==>
              ParseStatement(toks, pos) == Failed(ParseExpression(toks, pos + 2).error)
    ensures toks[pos + 1].kind == L.LParen && ParseExpression(toks, pos + 2).Parsed? &&
            toks[ParseExpression(toks, pos + 2).next].kind != L.RParen ==>
              ParseStatement(toks, pos) == Failed(MissingCloseAfterPrint)
  {
  }

  lemma IfErrors(toks: seq<L.Token>, pos: nat)
    requires WellFormed(toks) && pos < |toks| && IsKeyword(toks[pos], "if")
    ensures toks[pos + 1].kind != L.LParen ==> ParseStatement(toks, pos) == Failed(MissingOpenAfterIf)
    ensures toks[pos + 1].kind == L.LParen && ParseExpression(toks, pos + 2).Failed? ==>
              ParseStatement(toks, pos) == Failed(ParseExpression(toks, pos + 2).error)
    ensures toks[pos + 1].kind == L.LParen && ParseExpression(toks, pos + 2).Parsed? &&
            toks[ParseExpression(toks, pos + 2).next].kind != L.RParen ==>
              ParseStatement(toks, pos) == Failed(MissingCloseAfterCondition)
  {
  }

  /** A well-formed condition followed by something other than an opening brace token. */
  lemma IfWithoutBlock(toks: seq<L.Token>, pos: nat, c: Expr, n: nat)
    requires WellFormed(toks) && pos + 2 < |toks|
    requires IsKeyword(toks[pos], "if") && toks[pos + 1].kind == L.LParen
    requires ParseExpression(toks, pos + 2) == Parsed(c, n) && toks[n].kind == L.RParen
    requires toks[n + 1].kind != L.LPrace
    ensures ParseStatement(toks, pos) == Failed(MissingBlockStart)
  {
  }

  /** A condition followed by a block that fails: the block's error is the statement's. */
  lemma IfBlockFails(toks: seq<L.Token>, pos: nat, c: Expr, n: nat)
    requires WellFormed(toks) && pos + 2 < |toks|
    requires IsKeyword(toks[pos], "if") && toks[pos + 1].kind == L.LParen
    requires ParseExpression(toks, pos + 2) == Parsed(c, n) && toks[n].kind == L.RParen
    requires ParseBlock(toks, n + 1).Failed?
    ensures ParseStatement(toks, pos) == Failed(ParseBlock(toks, n + 1).error)
  {
  }

  // ---------------------------------------------------------------------------------------
  // Without an opening brace token there are no blocks

  /** No token of `toks` has the kind of an opening brace, which the lexer never produces. */
  predicate NoOpenBrace(toks: seq<L.Token>) {
    forall i :: 0 <= i < |toks| ==> toks[i].kind != L.LPrace
  }

  lemma IfFailsWithoutBrace(toks: seq<L.Token>, pos: nat)
    requires WellFormed(toks) && pos < |toks| && toks[pos].kind != L.Eof && NoOpenBrace(toks)
    ensures ParseIf(toks, pos).Failed?
  {
    if toks[pos + 1].kind == L.LParen {
      var c := ParseExpression(toks, pos + 2);
      if c.Parsed? && toks[c.next].kind == L.RParen {
        assert toks[c.next + 1].kind != L.LPrace;
      }
    }
  }

  /** On such tokens every statement that parses is an assignment or a print. */
  lemma StatementWithoutBrace(toks: seq<L.Token>, pos: nat)
    requires WellFormed(toks) && pos < |toks| && NoOpenBrace(toks)
    ensures ParseStatement(toks, pos).Parsed? ==>
              ParseStatement(toks, pos).node.Assignment? || ParseStatement(toks, pos).node.Print?
  {
    if IsKeyword(toks[pos], "if") {
      IfFailsWithoutBrace(toks, pos);
    }
  }

  predicate Flat(ss: seq<Stmt>) {
    forall i :: 0 <= i < |ss| ==> ss[i].Assignment? || ss[i].Print?
  }

  lemma {:induction false} ProgramWithoutBrace(toks: seq<L.Token>, pos: nat)
    requires WellFormed(toks) && pos < |toks| && NoOpenBrace(toks)
    ensures ParseProgram(toks, pos).Parsed? ==> Flat(ParseProgram(toks, pos).node)
    decreases |toks| - pos
  {
    if toks[pos].kind != L.Eof {
      StatementWithoutBrace(toks, pos);
      var first := ParseStatement(toks, pos);
      if first.Parsed? {
        ProgramWithoutBrace(toks, first.next);
      }
    }
  }

  // ---------------------------------------------------------------------------------------
  // The expression loop

  /** Three primaries joined by two operators group to the left, whatever the operators:
      there is no precedence. */
  lemma FoldLeft(toks: seq<L.Token>, pos: nat)
    requires WellFormed(toks) && pos + 5 < |toks|
    requires IsPrimaryKind(toks[pos].kind) && IsPrimaryKind(toks[pos + 2].kind) && IsPrimaryKind(toks[pos + 4].kind)
    requires IsOperatorKind(toks[pos + 1].kind) && IsOperatorKind(toks[pos + 3].kind)
    requires !IsOperatorKind(toks[pos + 5].kind)
    ensures ParseExpression(toks, pos) == Parsed(
              BinaryExpression(
                BinaryExpression(ParsePrimary(toks, pos).node, Display(toks[pos + 1].value), ParsePrimary(toks, pos + 2).node),
                Display(toks[pos + 3].value),
                ParsePrimary(toks, pos + 4).node),
              pos + 5)
  {
    var a := ParsePrimary(toks, pos).node;
    var b := ParsePrimary(toks, pos + 2).node;
    var ab := BinaryExpression(a, Display(toks[pos + 1].value), b);
    assert ParseTail(toks, pos + 1, a) == ParseTail(toks, pos + 3, ab);
  }
}
