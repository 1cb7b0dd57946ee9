/** Properties of the parser. The centre piece is a renderer that writes a parser-shaped tree
    back as tokens, and the proof that parsing the rendering gives the tree back: statements in
    source order, the fold grouping to the left, and `else` attached only where it was written. */
module ParserProperties {
  import opened Wrappers
  import L = Lexer
  import opened Ast
  import opened Parser
  import opened ParserForms

  /** `r` occurs in `s` starting at `pos`, stated element by element so that a proof unfolds
      only as much of it as it uses. */
  ghost predicate At<T>(s: seq<T>, pos: nat, r: seq<T>)
    decreases |r|
  {
    pos + |r| <= |s| && (|r| == 0 || (s[pos] == r[0] && At(s, pos + 1, r[1..])))
  }

  lemma {:induction false} AtConcat<T>(s: seq<T>, pos: nat, a: seq<T>, b: seq<T>)
    requires At(s, pos, a + b)
    ensures At(s, pos, a) && At(s, pos + |a|, b)
    decreases |a|
  {
    if a == [] {
      assert a + b == b;
    } else {
      assert (a + b)[0] == a[0];
      assert (a + b)[1..] == a[1..] + b;
      AtConcat(s, pos + 1, a[1..], b);
    }
  }

  lemma {:induction false} AtIndex<T>(s: seq<T>, pos: nat, r: seq<T>, i: nat)
    requires At(s, pos, r) && i < |r|
    ensures s[pos + i] == r[i]
    decreases i
  {
    if i > 0 {
      AtIndex(s, pos + 1, r[1..], i - 1);
    }
  }

  lemma HeadTail<T>(s: seq<T>)
    requires s != []
    ensures [s[0]] + s[1..] == s
  {
  }

  lemma Assoc<T>(a: seq<T>, b: seq<T>, c: seq<T>)
    ensures a + b + c == a + (b + c)
  {
  }

  lemma {:induction false} AtSuffix<T>(s: seq<T>, pos: nat)
    requires pos <= |s|
    ensures At(s, pos, s[pos..])
    decreases |s| - pos
  {
    if pos < |s| {
      AtSuffix(s, pos + 1);
      assert s[pos..][1..] == s[pos + 1..];
    }
  }

  lemma AtWhole<T>(s: seq<T>)
    ensures At(s, 0, s)
  {
    AtSuffix(s, 0);
    assert s[0..] == s;
  }

  // ---------------------------------------------------------------------------------------
  // Rendering parser-shaped trees as tokens

  const AssignToken: L.Token := L.Token(L.Assign, L.TextValue("="))
  const LParenToken: L.Token := L.Token(L.LParen, L.TextValue("("))
  const RParenToken: L.Token := L.Token(L.RParen, L.TextValue(")"))
  const LPraceToken: L.Token := L.Token(L.LPrace, L.TextValue("{"))
  const RPraceToken: L.Token := L.Token(L.RPrace, L.TextValue("}"))

  function KeywordToken(w: string): L.Token {
    L.Token(L.Keyword, L.TextValue(w))
  }

  predicate AllValid(ts: seq<L.Token>) {
    forall i :: 0 <= i < |ts| ==> L.ValidToken(ts[i])
  }

  function PrimaryToken(e: Expr): (t: L.Token)
    requires IsPrimary(e)
    ensures L.ValidToken(t)
  {
    match e
    case Number(r) => L.Token(L.Number, L.NumberValue(r.Floor as nat))
    case String(s) => L.Token(L.String, L.TextValue(s))
    case Variable(n) => L.Token(L.Identifier, L.TextValue(n))
  }

  function RenderExpr(e: Expr): (r: seq<L.Token>)
    requires IsFold(e)
    ensures |r| >= 1
  {
    if e.BinaryExpression? then
      RenderExpr(e.left) + [L.Token(L.Operator, L.TextValue(e.operator)), PrimaryToken(e.right)]
    else
      [PrimaryToken(e)]
  }

  function RenderStmt(s: Stmt): (r: seq<L.Token>)
    requires IsParsed(s)
    ensures |r| >= 1
    decreases s, 2
  {
    match s
    case Assignment(n, v) => [L.Token(L.Identifier, L.TextValue(n)), AssignToken] + RenderExpr(v)
    case Print(v) => [KeywordToken("print"), LParenToken] + RenderExpr(v) + [RParenToken]
    case IfStatement(c, b, e) => IfHead(c) + RenderBlock(b) + RenderElse(e)
  }

  function IfHead(c: Expr): (r: seq<L.Token>)
    requires IsFold(c)
    ensures |r| >= 4
  {
    [KeywordToken("if"), LParenToken] + RenderExpr(c) + [RParenToken]
  }

  function RenderElse(e: ElseBranch): (r: seq<L.Token>)
    requires e.ElseBlock? ==> AllParsed(e.stmts)
    ensures e.NoElse? <==> r == []
    decreases e, 2
  {
    match e
    case NoElse => []
    case ElseBlock(b) => [KeywordToken("else")] + RenderBlock(b)
  }

  function RenderBlock(ss: seq<Stmt>): (r: seq<L.Token>)
    requires AllParsed(ss)
    ensures |r| >= 2
    decreases ss, 1
  {
    [LPraceToken] + RenderStmts(ss) + [RPraceToken]
  }

  function RenderStmts(ss: seq<Stmt>): (r: seq<L.Token>)
    requires AllParsed(ss)
    ensures ss != [] ==> |r| >= 1
    decreases ss, 0
  {
    if ss == [] then [] else RenderStmt(ss[0]) + RenderStmts(ss[1..])
  }

  /** A rendered statement starts with a token that may begin a statement. */
  lemma StmtStarts(s: Stmt)
    requires IsParsed(s)
    ensures Starts(RenderStmt(s)[0])
  {
  }

  lemma StmtsStart(ss: seq<Stmt>)
    requires AllParsed(ss) && ss != []
    ensures Starts(RenderStmts(ss)[0])
  {
    StmtStarts(ss[0]);
  }

  lemma ValidConcat(a: seq<L.Token>, b: seq<L.Token>)
    requires AllValid(a) && AllValid(b)
    ensures AllValid(a + b)
  {
  }

  lemma ExprValid(e: Expr)
    requires IsFold(e)
    ensures AllValid(RenderExpr(e))
  {
    if e.BinaryExpression? {
      ExprValid(e.left);
      ValidConcat(RenderExpr(e.left), [L.Token(L.Operator, L.TextValue(e.operator)), PrimaryToken(e.right)]);
    }
  }

  /** Rendering produces only tokens of the lexer's shape. */
  lemma {:induction false} StmtValid(s: Stmt)
    requires IsParsed(s)
    ensures AllValid(RenderStmt(s))
    decreases s, 2
  {
    match s
    case Assignment(n, v) =>
      ExprValid(v);
      ValidConcat([L.Token(L.Identifier, L.TextValue(n)), AssignToken], RenderExpr(v));
    case Print(v) =>
      ExprValid(v);
      ValidConcat([KeywordToken("print"), LParenToken], RenderExpr(v));
      ValidConcat([KeywordToken("print"), LParenToken] + RenderExpr(v), [RParenToken]);
    case IfStatement(c, b, e) =>
      var head := IfHead(c);
      ExprValid(c);
      ValidConcat([KeywordToken("if"), LParenToken], RenderExpr(c));
      ValidConcat([KeywordToken("if"), LParenToken] + RenderExpr(c), [RParenToken]);
      BlockValid(b);
      ValidConcat(head, RenderBlock(b));
      ElseValid(e);
      ValidConcat(head + RenderBlock(b), RenderElse(e));
  }

  lemma {:induction false} ElseValid(e: ElseBranch)
    requires e.ElseBlock? ==> AllParsed(e.stmts)
    ensures AllValid(RenderElse(e))
    decreases e, 2
  {
    match e
    case NoElse =>
    case ElseBlock(b) =>
      BlockValid(b);
      ValidConcat([KeywordToken("else")], RenderBlock(b));
  }

  lemma {:induction false} BlockValid(ss: seq<Stmt>)
    requires AllParsed(ss)
    ensures AllValid(RenderBlock(ss))
    decreases ss, 1
  {
    StmtsValid(ss);
    ValidConcat([LPraceToken], RenderStmts(ss));
    ValidConcat([LPraceToken] + RenderStmts(ss), [RPraceToken]);
  }

  lemma {:induction false} StmtsValid(ss: seq<Stmt>)
    requires AllParsed(ss)
    ensures AllValid(RenderStmts(ss))
    decreases ss, 0
  {
    if ss != [] {
      StmtValid(ss[0]);
      StmtsValid(ss[1..]);
      ValidConcat(RenderStmt(ss[0]), RenderStmts(ss[1..]));
    }
  }

  // ---------------------------------------------------------------------------------------
  // Parsing a rendering gives the tree back

  lemma PrimaryRoundTrip(toks: seq<L.Token>, pos: nat, e: Expr)
    requires WellFormed(toks) && pos < |toks| && IsPrimary(e) && toks[pos] == PrimaryToken(e)
    ensures ParsePrimary(toks, pos) == Parsed(e, pos + 1)
  {
    if e.Number? {
      assert (e.value.Floor as nat) as real == e.value;
    }
  }

  /** Parsing the rendering of a fold leaves the parser in its operator loop, just after the
      rendering, with the whole fold as the left operand. */
  lemma {:induction false} TailRoundTrip(toks: seq<L.Token>, pos: nat, e: Expr)
    requires WellFormed(toks) && IsFold(e)
    requires At(toks, pos, RenderExpr(e)) && pos + |RenderExpr(e)| < |toks|
    ensures ParseExpression(toks, pos) == ParseTail(toks, pos + |RenderExpr(e)|, e)
    decreases e
  {
    if e.BinaryExpression? {
      var l := RenderExpr(e.left);
      var op := L.Token(L.Operator, L.TextValue(e.operator));
      var rest := [op, PrimaryToken(e.right)];
      AtConcat(toks, pos, l, rest);
      AtIndex(toks, pos + |l|, rest, 0);
      AtIndex(toks, pos + |l|, rest, 1);
      TailRoundTrip(toks, pos, e.left);
      PrimaryRoundTrip(toks, pos + |l| + 1, e.right);
      assert BinaryExpression(e.left, Display(toks[pos + |l|].value), e.right) == e;
    } else {
      AtIndex(toks, pos, [PrimaryToken(e)], 0);
      PrimaryRoundTrip(toks, pos, e);
    }
  }

  lemma ExprRoundTrip(toks: seq<L.Token>, pos: nat, e: Expr)
    requires WellFormed(toks) && IsFold(e)
    requires At(toks, pos, RenderExpr(e)) && pos + |RenderExpr(e)| < |toks|
    requires !IsOperatorKind(toks[pos + |RenderExpr(e)|].kind)
    ensures ParseExpression(toks, pos) == Parsed(e, pos + |RenderExpr(e)|)
  {
    TailRoundTrip(toks, pos, e);
  }

  /** What follows a sequence of statements starts with a token that stops the last of them. */
  lemma FirstStops(toks: seq<L.Token>, pos: nat, ss: seq<Stmt>, t: L.Token)
    requires AllParsed(ss) && Stops(t) && At(toks, pos, RenderStmts(ss) + [t])
    ensures pos < |toks| && Stops(toks[pos])
  {
    AtIndex(toks, pos, RenderStmts(ss) + [t], 0);
    if ss != [] {
      StmtsStart(ss);
    }
  }

  lemma AssignmentRoundTrip(toks: seq<L.Token>, pos: nat, n: string, v: Expr)
    requires WellFormed(toks) && IsFold(v)
    requires At(toks, pos, [L.Token(L.Identifier, L.TextValue(n)), AssignToken] + RenderExpr(v))
    requires pos + 2 + |RenderExpr(v)| < |toks| && Stops(toks[pos + 2 + |RenderExpr(v)|])
    ensures ParseStatement(toks, pos) == Parsed(Assignment(n, v), pos + 2 + |RenderExpr(v)|)
  {
    var head := [L.Token(L.Identifier, L.TextValue(n)), AssignToken];
    AtConcat(toks, pos, head, RenderExpr(v));
    AtIndex(toks, pos, head, 0);
    AtIndex(toks, pos, head, 1);
    ExprRoundTrip(toks, pos + 2, v);
    AssignmentParses(toks, pos, v, pos + 2 + |RenderExpr(v)|);
  }

  lemma PrintRoundTrip(toks: seq<L.Token>, pos: nat, v: Expr)
    requires WellFormed(toks) && IsFold(v)
    requires At(toks, pos, [KeywordToken("print"), LParenToken] + RenderExpr(v) + [RParenToken])
    ensures ParseStatement(toks, pos) == Parsed(Print(v), pos + 3 + |RenderExpr(v)|)
  {
    var head := [KeywordToken("print"), LParenToken];
    AtConcat(toks, pos, head + RenderExpr(v), [RParenToken]);
    AtConcat(toks, pos, head, RenderExpr(v));
    AtIndex(toks, pos, head, 0);
    AtIndex(toks, pos, head, 1);
    AtIndex(toks, pos + 2 + |RenderExpr(v)|, [RParenToken], 0);
    ExprRoundTrip(toks, pos + 2, v);
    PrintParses(toks, pos, v, pos + 2 + |RenderExpr(v)|);
  }

  /** The tokens before an if statement's first block parse as its condition, leaving the
      cursor on that block. */
  lemma IfHeadRoundTrip(toks: seq<L.Token>, pos: nat, c: Expr)
    requires WellFormed(toks) && IsFold(c)
    requires At(toks, pos, IfHead(c))
    ensures IsKeyword(toks[pos], "if") && toks[pos + 1].kind == L.LParen
    ensures ParseExpression(toks, pos + 2) == Parsed(c, pos + |IfHead(c)| - 1)
    ensures toks[pos + |IfHead(c)| - 1].kind == L.RParen
  {
    var head := [KeywordToken("if"), LParenToken];
    AtConcat(toks, pos, head + RenderExpr(c), [RParenToken]);
    AtConcat(toks, pos, head, RenderExpr(c));
    AtIndex(toks, pos, head, 0);
    AtIndex(toks, pos, head, 1);
    AtIndex(toks, pos + 2 + |RenderExpr(c)|, [RParenToken], 0);
    ExprRoundTrip(toks, pos + 2, c);
  }

  lemma {:induction false} StmtRoundTrip(toks: seq<L.Token>, pos: nat, s: Stmt)
    requires WellFormed(toks) && IsParsed(s) && At(toks, pos, RenderStmt(s))
    requires pos + |RenderStmt(s)| < |toks| && Stops(toks[pos + |RenderStmt(s)|])
    ensures ParseStatement(toks, pos) == Parsed(s, pos + |RenderStmt(s)|)
    decreases s, 2
  {
    match s
    case Assignment(n, v) => AssignmentRoundTrip(toks, pos, n, v);
    case Print(v) => PrintRoundTrip(toks, pos, v);
    case IfStatement(c, b, e) =>
      IfSplit(toks, pos, s);
      var n := pos + |IfHead(c)| - 1;
      var m := n + 1 + |RenderBlock(b)|;
      IfRoundTrip(toks, pos, c, b, e, n, m, m + |RenderElse(e)|);
  }

  /** An if statement given by its three rendered parts, each found where the previous one
      ends (the head's closing parenthesis at `n`, the else part at `m`), and followed at `k`
      by a token that stops it. */
  lemma {:induction false} IfRoundTrip(toks: seq<L.Token>, pos: nat, c: Expr, b: seq<Stmt>, e: ElseBranch,
                                       n: nat, m: nat, k: nat)
    requires WellFormed(toks) && IsFold(c) && AllParsed(b) && (e.ElseBlock? ==> AllParsed(e.stmts))
    requires n + 1 == pos + |IfHead(c)| && m == n + 1 + |RenderBlock(b)| && k == m + |RenderElse(e)|
    requires At(toks, pos, IfHead(c)) && At(toks, n + 1, RenderBlock(b)) && At(toks, m, RenderElse(e))
    requires k < |toks| && Stops(toks[k])
    ensures ParseStatement(toks, pos) == Parsed(IfStatement(c, b, e), k)
    decreases IfStatement(c, b, e), 1
  {
    IfHeadRoundTrip(toks, pos, c);
    BlockRoundTrip(toks, n + 1, b);
    IfTailRoundTrip(toks, pos, c, n, b, m, e, k);
  }

  /** The else part of an if statement, once its head and block have been parsed. */
  lemma {:induction false} IfTailRoundTrip(toks: seq<L.Token>, pos: nat, c: Expr, n: nat, b: seq<Stmt>, m: nat,
                                           e: ElseBranch, k: nat)
    requires WellFormed(toks) && pos + 2 < |toks| && (e.ElseBlock? ==> AllParsed(e.stmts))
    requires IsKeyword(toks[pos], "if") && toks[pos + 1].kind == L.LParen
    requires ParseExpression(toks, pos + 2) == Parsed(c, n) && toks[n].kind == L.RParen
    requires ParseBlock(toks, n + 1) == Parsed(b, m)
    requires At(toks, m, RenderElse(e)) && k == m + |RenderElse(e)| && k < |toks| && Stops(toks[k])
    ensures ParseStatement(toks, pos) == Parsed(IfStatement(c, b, e), k)
    decreases e, 2
  {
    if e.NoElse? {
      IfParses(toks, pos, c, n, b, m);
    } else {
      ElseRoundTrip(toks, m, e);
      IfElseParses(toks, pos, c, n, b, m, e.stmts, k);
    }
  }

  /** The rendering of an if statement splits into its head, its block and its else part. */
  lemma IfSplit(toks: seq<L.Token>, pos: nat, s: Stmt)
    requires s.IfStatement? && IsParsed(s) && At(toks, pos, RenderStmt(s))
    ensures At(toks, pos, IfHead(s.condition))
    ensures At(toks, pos + |IfHead(s.condition)|, RenderBlock(s.ifBlock))
    ensures At(toks, pos + |IfHead(s.condition)| + |RenderBlock(s.ifBlock)|, RenderElse(s.elseBlock))
    ensures |RenderStmt(s)| == |IfHead(s.condition)| + |RenderBlock(s.ifBlock)| + |RenderElse(s.elseBlock)|
  {
    var head := IfHead(s.condition);
    var block := RenderBlock(s.ifBlock);
    var tail := RenderElse(s.elseBlock);
    assert RenderStmt(s) == head + block + tail;
    AtConcat(toks, pos, head + block, tail);
    AtConcat(toks, pos, head, block);
  }

  lemma {:induction false} ElseRoundTrip(toks: seq<L.Token>, pos: nat, e: ElseBranch)
    requires WellFormed(toks) && e.ElseBlock? && AllParsed(e.stmts) && At(toks, pos, RenderElse(e))
    ensures IsKeyword(toks[pos], "else")
    ensures ParseBlock(toks, pos + 1) == Parsed(e.stmts, pos + |RenderElse(e)|)
    decreases e, 1
  {
    assert RenderElse(e) == [KeywordToken("else")] + RenderBlock(e.stmts);
    AtConcat(toks, pos, [KeywordToken("else")], RenderBlock(e.stmts));
    AtIndex(toks, pos, [KeywordToken("else")], 0);
    BlockRoundTrip(toks, pos + 1, e.stmts);
  }

  lemma {:induction false} BlockRoundTrip(toks: seq<L.Token>, pos: nat, ss: seq<Stmt>)
    requires WellFormed(toks) && AllParsed(ss) && At(toks, pos, RenderBlock(ss))
    ensures ParseBlock(toks, pos) == Parsed(ss, pos + |RenderBlock(ss)|)
    decreases ss, 2
  {
    var items := RenderStmts(ss) + [RPraceToken];
    assert RenderBlock(ss) == [LPraceToken] + items;
    AtConcat(toks, pos, [LPraceToken], items);
    AtIndex(toks, pos, [LPraceToken], 0);
    ItemsRoundTrip(toks, pos + 1, ss);
  }

  /** The rendering of a non-empty statement sequence, followed by the token `t`, splits into
      the first statement's rendering and the rest's. */
  lemma SplitFirst(toks: seq<L.Token>, pos: nat, ss: seq<Stmt>, t: L.Token)
    requires AllParsed(ss) && ss != [] && Stops(t) && At(toks, pos, RenderStmts(ss) + [t])
    ensures At(toks, pos, RenderStmt(ss[0]))
    ensures At(toks, pos + |RenderStmt(ss[0])|, RenderStmts(ss[1..]) + [t])
    ensures |RenderStmts(ss)| == |RenderStmt(ss[0])| + |RenderStmts(ss[1..])|
    ensures pos + |RenderStmt(ss[0])| < |toks| && Stops(toks[pos + |RenderStmt(ss[0])|])
    ensures Starts(toks[pos])
  {
    var h := RenderStmt(ss[0]);
    var tail := RenderStmts(ss[1..]);
    assert RenderStmts(ss) == h + tail;
    Assoc(h, tail, [t]);
    AtConcat(toks, pos, h, tail + [t]);
    AtIndex(toks, pos, h, 0);
    StmtStarts(ss[0]);
    FirstStops(toks, pos + |h|, ss[1..], t);
    assert Stops(toks[pos + |h|]);
  }

  lemma {:induction false} ItemsRoundTrip(toks: seq<L.Token>, pos: nat, ss: seq<Stmt>)
    requires WellFormed(toks) && AllParsed(ss) && At(toks, pos, RenderStmts(ss) + [RPraceToken])
    ensures ParseBlockItems(toks, pos) == Parsed(ss, pos + |RenderStmts(ss)| + 1)
    decreases ss, 1
  {
    if ss == [] {
      AtIndex(toks, pos, RenderStmts(ss) + [RPraceToken], 0);
    } else {
      SplitFirst(toks, pos, ss, RPraceToken);
      ItemsStep(toks, pos, ss);
    }
  }

  /** The first statement of a block, given apart from the rest. */
  lemma {:induction false} ItemsStep(toks: seq<L.Token>, pos: nat, ss: seq<Stmt>)
    requires WellFormed(toks) && AllParsed(ss) && ss != []
    requires At(toks, pos, RenderStmt(ss[0])) && Starts(toks[pos])
    requires At(toks, pos + |RenderStmt(ss[0])|, RenderStmts(ss[1..]) + [RPraceToken])
    requires pos + |RenderStmt(ss[0])| < |toks| && Stops(toks[pos + |RenderStmt(ss[0])|])
    ensures ParseBlockItems(toks, pos) == Parsed(ss, pos + |RenderStmt(ss[0])| + |RenderStmts(ss[1..])| + 1)
    decreases ss, 0
  {
    var n := pos + |RenderStmt(ss[0])|;
    StmtRoundTrip(toks, pos, ss[0]);
    ItemsRoundTrip(toks, n, ss[1..]);
    ItemsParse(toks, pos, ss[0], n, ss[1..], n + |RenderStmts(ss[1..])| + 1);
    HeadTail(ss);
  }

  lemma {:induction false} ProgramRoundTrip(toks: seq<L.Token>, pos: nat, ss: seq<Stmt>)
    requires WellFormed(toks) && AllParsed(ss) && At(toks, pos, RenderStmts(ss) + [L.EofToken])
    ensures ParseProgram(toks, pos) == Parsed(ss, pos + |RenderStmts(ss)|)
    decreases ss, 1
  {
    if ss == [] {
      AtIndex(toks, pos, RenderStmts(ss) + [L.EofToken], 0);
    } else {
      SplitFirst(toks, pos, ss, L.EofToken);
      ProgramStep(toks, pos, ss);
    }
  }

  lemma {:induction false} ProgramStep(toks: seq<L.Token>, pos: nat, ss: seq<Stmt>)
    requires WellFormed(toks) && AllParsed(ss) && ss != []
    requires At(toks, pos, RenderStmt(ss[0])) && Starts(toks[pos])
    requires At(toks, pos + |RenderStmt(ss[0])|, RenderStmts(ss[1..]) + [L.EofToken])
    requires pos + |RenderStmt(ss[0])| < |toks| && Stops(toks[pos + |RenderStmt(ss[0])|])
    ensures ParseProgram(toks, pos) == Parsed(ss, pos + |RenderStmt(ss[0])| + |RenderStmts(ss[1..])|)
    decreases ss, 0
  {
    var n := pos + |RenderStmt(ss[0])|;
    StmtRoundTrip(toks, pos, ss[0]);
    ProgramRoundTrip(toks, n, ss[1..]);
    ProgramParses(toks, pos, ss[0], n, ss[1..], n + |RenderStmts(ss[1..])|);
    HeadTail(ss);
  }

  /** Every tree the parser can build is given back by parsing its rendering followed by the
      end marker. */
  lemma ParseRender(prog: seq<Stmt>)
    requires AllParsed(prog)
    ensures WellFormed(RenderStmts(prog) + [L.EofToken])
    ensures Parse(RenderStmts(prog) + [L.EofToken]) == Ok(prog)
  {
    var toks := RenderStmts(prog) + [L.EofToken];
    StmtsValid(prog);
    assert forall i :: 0 <= i < |toks| ==> L.ValidToken(toks[i]) by {
      forall i | 0 <= i < |toks| ensures L.ValidToken(toks[i]) {
        if i < |toks| - 1 {
          assert toks[i] == RenderStmts(prog)[i];
        }
      }
    }
    AtWhole(toks);
    ProgramRoundTrip(toks, 0, prog);
  }
}
