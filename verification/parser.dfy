/** The recursive-descent parser of `Parser.js`, as pure functions over a token sequence and a
    cursor. Every parse function returns the node it built together with the position of the
    first token it did not consume, or the syntax error the source throws; `Message` gives each
    error's text exactly as the source spells it. */
module Parser {
  import opened Wrappers
  import opened Numerals
  import L = Lexer
  import opened Ast

  /** The token sequences the parser is given: the lexer's shape, ending in the end marker.
      Because the parser never consumes the end marker, every cursor stays inside the sequence. */
  predicate WellFormed(toks: seq<L.Token>) {
    && |toks| >= 1
    && toks[|toks| - 1] == L.EofToken
    && (forall i :: 0 <= i < |toks| ==> L.ValidToken(toks[i]))
  }

  /** A token that is not the end marker has a successor. */
  lemma NotLast(toks: seq<L.Token>, pos: nat)
    requires WellFormed(toks) && pos < |toks| && toks[pos].kind != L.Eof
    ensures pos + 1 < |toks|
  {
  }

  /** A token value as a template literal prints it; the end marker's value is `undefined`. */
  function Display(v: L.TokenValue): (s: string)
    ensures v.TextValue? ==> s == v.text
  {
    match v
    case NumberValue(n) => NatToDecimal(n)
    case TextValue(t) => t
    case Absent => "undefined"
  }

  /** The kinds the expression loop accepts as an operator: `OPERATOR`, and the kind that
      compares equal to the undefined `TokenType.EQUALS`, which only the braces carry. */
  predicate IsOperatorKind(k: L.Kind) {
    k == L.Operator || k == L.Unset
  }

  predicate IsKeyword(t: L.Token, w: string) {
    t.kind == L.Keyword && t.value == L.TextValue(w)
  }

  /** The tokens a statement may be followed by without changing how it parses: no operator
      (which would extend a trailing expression) and no `else` (which would attach to a
      trailing if statement). */
  predicate Stops(t: L.Token) {
    !IsOperatorKind(t.kind) && !IsKeyword(t, "else")
  }

  /** A statement starts with an identifier, `print` or `if`. */
  predicate Starts(t: L.Token) {
    t.kind == L.Identifier || IsKeyword(t, "print") || IsKeyword(t, "if")
  }

  /** The trees the parser can build: a primary is a natural number, a string or a variable,
      and an expression is a primary followed by any number of operator-primary pairs. */
  predicate IsPrimary(e: Expr) {
    match e
    case Number(r) => r >= 0.0 && r == r.Floor as real
    case String(_) => true
    case Variable(_) => true
    case _ => false
  }

  predicate IsFold(e: Expr) {
    if e.BinaryExpression? then IsFold(e.left) && IsPrimary(e.right) else IsPrimary(e)
  }

  predicate IsParsed(s: Stmt) {
    match s
    case Assignment(_, v) => IsFold(v)
    case Print(v) => IsFold(v)
    case IfStatement(c, b, e) =>
      && IsFold(c)
      && (forall i :: 0 <= i < |b| ==> IsParsed(b[i]))
      && (match e
          case NoElse => true
          case ElseBlock(eb) => forall i :: 0 <= i < |eb| ==> IsParsed(eb[i]))
    case _ => false
  }

  predicate AllParsed(ss: seq<Stmt>) {
    forall i :: 0 <= i < |ss| ==> IsParsed(ss[i])
  }

  predicate IsPrimaryKind(k: L.Kind) {
    k == L.Number || k == L.String || k == L.Identifier
  }

  /** The errors the parser throws, one constructor per `throw`. */
  datatype SyntaxError =
    | UnexpectedToken(found: L.TokenValue)
    | UnexpectedSyntax(found: L.TokenValue)
    | MissingOpenAfterPrint
    | MissingCloseAfterPrint
    | MissingOpenAfterIf
    | MissingCloseAfterCondition
    | MissingBlockStart
    | MissingBlockEnd

  function Message(e: SyntaxError): (m: string)
    ensures e.UnexpectedToken? ==> m == "Unexpected token: " + Display(e.found)
    ensures e.UnexpectedSyntax? ==> m == "Unexpected syntax: " + Display(e.found)
    ensures e.MissingOpenAfterPrint? ==> m == "Expected '(' after 'print'"
    ensures e.MissingCloseAfterPrint? ==> m == "Expected ')' after printed value"
    ensures e.MissingOpenAfterIf? ==> m == "Expected '(' after 'if'"
    ensures e.MissingCloseAfterCondition? ==> m == "Expected ')' after condition"
    ensures e.MissingBlockStart? ==> m == "Expected '{' to start a block"
    ensures e.MissingBlockEnd? ==> m == "Expected '}' to close block"
  {
    match e
    case UnexpectedToken(v) => "Unexpected token: " + Display(v)
    case UnexpectedSyntax(v) => "Unexpected syntax: " + Display(v)
    case MissingOpenAfterPrint => "Expected '(' after 'print'"
    case MissingCloseAfterPrint => "Expected ')' after printed value"
    case MissingOpenAfterIf => "Expected '(' after 'if'"
    case MissingCloseAfterCondition => "Expected ')' after condition"
    case MissingBlockStart => "Expected '{' to start a block"
    case MissingBlockEnd => "Expected '}' to close block"
  }

  /** The outcome of one parse function: the node and the cursor after it, or an error. */
  datatype Parsing<+T> = Parsed(node: T, next: nat) | Failed(error: SyntaxError)

  /** `parsePrimary`: exactly one token, which must be a number, a string or an identifier. */
  function ParsePrimary(toks: seq<L.Token>, pos: nat): (r: Parsing<Expr>)
    requires WellFormed(toks) && pos < |toks|
    ensures r.Parsed? <==> IsPrimaryKind(toks[pos].kind)
    ensures r.Parsed? ==> r.next == pos + 1 < |toks| && IsPrimary(r.node)
    ensures r.Parsed? && toks[pos].kind == L.Number ==> r.node == Number(toks[pos].value.n as real)
    ensures r.Parsed? && toks[pos].kind == L.String ==> r.node == String(toks[pos].value.text)
    ensures r.Parsed? && toks[pos].kind == L.Identifier ==> r.node == Variable(toks[pos].value.text)
    ensures r.Failed? ==> r.error == UnexpectedToken(toks[pos].value)
  {
    var t := toks[pos];
    match t.kind
    case Number => Parsed(Number(t.value.n as real), pos + 1)
    case String => Parsed(String(t.value.text), pos + 1)
    case Identifier => Parsed(Variable(t.value.text), pos + 1)
    case _ => Failed(UnexpectedToken(t.value))
  }

  /** The loop of `parseExpression`: while an operator follows, fold it and the next primary
      into the left operand. */
  function ParseTail(toks: seq<L.Token>, pos: nat, left: Expr): (r: Parsing<Expr>)
    requires WellFormed(toks) && pos < |toks|
    requires IsFold(left)
    ensures r.Parsed? ==> pos <= r.next < |toks| && IsFold(r.node)
    ensures r.Parsed? ==> !IsOperatorKind(toks[r.next].kind)
    ensures !IsOperatorKind(toks[pos].kind) ==> r == Parsed(left, pos)
    decreases |toks| - pos
  {
    if IsOperatorKind(toks[pos].kind) then
      var right := ParsePrimary(toks, pos + 1);
      if right.Failed? then Failed(right.error)
      else ParseTail(toks, right.next, BinaryExpression(left, Display(toks[pos].value), right.node))
    else
      Parsed(left, pos)
  }

  /** `parseExpression`: a primary, then the operator loop. */
  function ParseExpression(toks: seq<L.Token>, pos: nat): (r: Parsing<Expr>)
    requires WellFormed(toks) && pos < |toks|
    ensures r.Parsed? ==> pos < r.next < |toks| && IsFold(r.node)
    ensures r.Parsed? ==> !IsOperatorKind(toks[r.next].kind)
    ensures !IsPrimaryKind(toks[pos].kind) ==> r == Failed(UnexpectedToken(toks[pos].value))
  {
    var left := ParsePrimary(toks, pos);
    if left.Failed? then Failed(left.error) else ParseTail(toks, left.next, left.node)
  }

  /** `parseStatement`: an assignment, a `print (...)`, or an `if`; anything else is a
      syntax error naming the token. */
  function ParseStatement(toks: seq<L.Token>, pos: nat): (r: Parsing<Stmt>)
    requires WellFormed(toks) && pos < |toks|
    ensures r.Parsed? ==> pos < r.next < |toks| && IsParsed(r.node)
    decreases |toks| - pos, 3
  {
    var t := toks[pos];
    if t.kind == L.Identifier && toks[pos + 1].kind == L.Assign then
      var value := ParseExpression(toks, pos + 2);
      if value.Failed? then Failed(value.error)
      else Parsed(Assignment(t.value.text, value.node), value.next)
    else if IsKeyword(t, "print") then
      if toks[pos + 1].kind != L.LParen then Failed(MissingOpenAfterPrint)
      else
        var value := ParseExpression(toks, pos + 2);
        if value.Failed? then Failed(value.error)
        else if toks[value.next].kind != L.RParen then Failed(MissingCloseAfterPrint)
        else Parsed(Print(value.node), value.next + 1)
    else if IsKeyword(t, "if") then
      ParseIf(toks, pos)
    else
      Failed(UnexpectedSyntax(t.value))
  }

  /** `parseIfStatement`, entered on the `if` keyword: a parenthesised condition, a block, and
      a second block only when the keyword `else` follows the first. */
  function ParseIf(toks: seq<L.Token>, pos: nat): (r: Parsing<Stmt>)
    requires WellFormed(toks) && pos < |toks| && toks[pos].kind != L.Eof
    ensures r.Parsed? ==> pos < r.next < |toks| && IsParsed(r.node) && r.node.IfStatement?
    decreases |toks| - pos, 2
  {
    if toks[pos + 1].kind != L.LParen then Failed(MissingOpenAfterIf)
    else
      var condition := ParseExpression(toks, pos + 2);
      if condition.Failed? then Failed(condition.error)
      else if toks[condition.next].kind != L.RParen then Failed(MissingCloseAfterCondition)
      else
        var ifBlock := ParseBlock(toks, condition.next + 1);
        if ifBlock.Failed? then Failed(ifBlock.error)
        else if IsKeyword(toks[ifBlock.next], "else") then
          var elseBlock := ParseBlock(toks, ifBlock.next + 1);
          if elseBlock.Failed? then Failed(elseBlock.error)
          else
            Parsed(IfStatement(condition.node, ifBlock.node, ElseBlock(elseBlock.node)), elseBlock.next)
        else
          Parsed(IfStatement(condition.node, ifBlock.node, NoElse), ifBlock.next)
  }

  /** `parseBlock`: an opening brace token, statements, and a closing brace token. */
  function ParseBlock(toks: seq<L.Token>, pos: nat): (r: Parsing<seq<Stmt>>)
    requires WellFormed(toks) && pos < |toks|
    ensures r.Parsed? ==> pos < r.next < |toks| && AllParsed(r.node)
    ensures toks[pos].kind != L.LPrace ==> r == Failed(MissingBlockStart)
    decreases |toks| - pos, 1
  {
    if toks[pos].kind != L.LPrace then Failed(MissingBlockStart)
    else ParseBlockItems(toks, pos + 1)
  }

  /** The loop of `parseBlock`, after the opening brace: statements until a closing brace
      (consumed) or the end marker (an error). */
  function ParseBlockItems(toks: seq<L.Token>, pos: nat): (r: Parsing<seq<Stmt>>)
    requires WellFormed(toks) && pos < |toks|
    ensures r.Parsed? ==> pos < r.next < |toks| && AllParsed(r.node)
    ensures r.Parsed? ==> toks[r.next - 1].kind == L.RPrace
    ensures toks[pos].kind == L.RPrace ==> r == Parsed([], pos + 1)
    ensures toks[pos].kind == L.Eof ==> r == Failed(MissingBlockEnd)
    decreases |toks| - pos, 4
  {
    if toks[pos].kind == L.RPrace then Parsed([], pos + 1)
    else if toks[pos].kind == L.Eof then Failed(MissingBlockEnd)
    else
      var first := ParseStatement(toks, pos);
      if first.Failed? then Failed(first.error)
      else
        var rest := ParseBlockItems(toks, first.next);
        if rest.Failed? then Failed(rest.error)
        else Parsed([first.node] + rest.node, rest.next)
  }

  /** The loop of `parse`, from a cursor: statements until the end marker, on which the
      cursor is left. */
  function ParseProgram(toks: seq<L.Token>, pos: nat): (r: Parsing<seq<Stmt>>)
    requires WellFormed(toks) && pos < |toks|
    ensures r.Parsed? ==> pos <= r.next < |toks| && toks[r.next].kind == L.Eof && AllParsed(r.node)
    ensures toks[pos].kind == L.Eof ==> r == Parsed([], pos)
    decreases |toks| - pos
  {
    if toks[pos].kind == L.Eof then Parsed([], pos)
    else
      var first := ParseStatement(toks, pos);
      if first.Failed? then Failed(first.error)
      else
        var rest := ParseProgram(toks, first.next);
        if rest.Failed? then Failed(rest.error)
        else Parsed([first.node] + rest.node, rest.next)
  }

  /** `parse`: the program's statements, or the message of the first syntax error. */
  function Parse(toks: seq<L.Token>): (r: Result<seq<Stmt>>)
    requires WellFormed(toks)
    ensures r.Ok? ==> AllParsed(r.value)
    ensures r.Ok? <==> ParseProgram(toks, 0).Parsed?
  {
    var p := ParseProgram(toks, 0);
    if p.Parsed? then Ok(p.node) else Err(Message(p.error))
  }
}
