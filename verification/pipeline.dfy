/** The three stages one after the other: the tokenizer's output is the parser's input, and
    the parsed program is run on a fresh interpreter. What the stages promise each other
    shows here: the tokens always satisfy the parser's demands, the tokenizer's braces never
    make a block, so a program from source text is a flat list of assignments and prints, and
    such a program never needs fuel. */
module Pipeline {
  import opened Wrappers
  import L = Lexer
  import opened Ast
  import opened Parser
  import opened ParserForms
  import opened Values
  import opened Interpreter
  import opened InterpreterFuel

  /** The end of a run from source text: the interpreter's outcome, or the parser's message. */
  datatype Verdict = Ran(outcome: Outcome<Signal>) | Rejected(message: string)

  /** The tokenizer's output has the shape the parser demands, and no opening brace token. */
  lemma LexedTokensParse(toks: seq<L.Token>)
    requires L.WellEnded(toks)
    ensures WellFormed(toks) && NoOpenBrace(toks)
  {
  }

  /** Tokenize, parse, interpret. */
  function RunSource(source: string, fuel: nat): (r: Verdict)
    requires L.QuoteCount(source) % 2 == 0
    ensures r.Ran? <==> Parse(L.Tokenize(source)).Ok?
  {
    var toks := L.Tokenize(source);
    LexedTokensParse(toks);
    var p := Parse(toks);
    if p.Err? then Rejected(p.message) else Ran(Interpret(p.value, fuel))
  }

  /** Every program the parser makes of source text is flat: assignments and prints only. */
  lemma LexedProgramsFlat(source: string)
    requires L.QuoteCount(source) % 2 == 0
    ensures var toks := L.Tokenize(source);
            WellFormed(toks) && (Parse(toks).Ok? ==> Flat(Parse(toks).value))
  {
    var toks := L.Tokenize(source);
    LexedTokensParse(toks);
    ProgramWithoutBrace(toks, 0);
  }

  // ---------------------------------------------------------------------------------------
  // Parsed programs need no fuel

  /** An expression the parser builds contains no call, so it never runs out of fuel. */
  lemma {:induction false} FoldNeedsNoFuel(e: Expr, st: State, fuel: nat)
    requires ValidState(st) && IsFold(e)
    ensures !EvalExpr(e, st, fuel).OutOfFuel?
    decreases e
  {
    if e.BinaryExpression? {
      FoldNeedsNoFuel(e.left, st, fuel);
    }
  }

  /** A statement the parser builds never runs out of fuel and never returns: it has no
      call, no loop and no `return`. */
  lemma {:induction false} ParsedStmtNeedsNoFuel(s: Stmt, st: State, fuel: nat)
    requires ValidState(st) && IsParsed(s)
    ensures var r := ExecStmt(s, st, fuel);
            !r.OutOfFuel? && (r.Done? ==> r.value.Plain?)
    decreases s, 1
  {
    match s
    case Assignment(_, e) =>
      FoldNeedsNoFuel(e, st, fuel);
    case Print(e) =>
      FoldNeedsNoFuel(e, st, fuel);
    case IfStatement(c, b, els) =>
      FoldNeedsNoFuel(c, st, fuel);
      var v := EvalExpr(c, st, fuel);
      if v.Done? {
        if Truthy(v.value) {
          ParsedBlockNeedsNoFuel(b, v.state, fuel, Undefined);
        } else if els.ElseBlock? {
          ParsedBlockNeedsNoFuel(els.stmts, v.state, fuel, Undefined);
        }
      }
  }

  lemma {:induction false} ParsedBlockNeedsNoFuel(ss: seq<Stmt>, st: State, fuel: nat, init: Value)
    requires ValidState(st) && ValidValue(init, |st.heap|) && AllParsed(ss)
    ensures var r := RunBlock(ss, st, fuel, init);
            !r.OutOfFuel? && (r.Done? ==> r.value.Plain?)
    decreases ss, 0
  {
    if ss != [] {
      ParsedStmtNeedsNoFuel(ss[0], st, fuel);
      var h := ExecStmt(ss[0], st, fuel);
      if h.Done? {
        assert AllParsed(ss[1..]) by {
          forall i | 0 <= i < |ss[1..]| ensures IsParsed(ss[1..][i]) {
            assert ss[1..][i] == ss[i + 1];
          }
        }
        ParsedBlockNeedsNoFuel(ss[1..], h.state, fuel, h.value.value);
      }
    }
  }

  lemma {:induction false} ParsedProgramNeedsNoFuel(ss: seq<Stmt>, st: State, fuel: nat, last: Signal)
    requires ValidState(st) && ValidValue(last.value, |st.heap|) && last.Plain? && AllParsed(ss)
    ensures var r := RunProgram(ss, st, fuel, last);
            !r.OutOfFuel? && (r.Done? ==> r.value.Plain?)
    decreases ss
  {
    if ss != [] {
      ParsedStmtNeedsNoFuel(ss[0], st, fuel);
      var h := ExecStmt(ss[0], st, fuel);
      if h.Done? {
        assert AllParsed(ss[1..]) by {
          forall i | 0 <= i < |ss[1..]| ensures IsParsed(ss[1..][i]) {
            assert ss[1..][i] == ss[i + 1];
          }
        }
        ParsedProgramNeedsNoFuel(ss[1..], h.state, fuel, h.value);
      }
    }
  }

  /** Source text runs the same with any fuel, never for want of it, and never ends in a
      `ReturnValue`. */
  lemma SourceNeedsNoFuel(source: string, fuel: nat)
    requires L.QuoteCount(source) % 2 == 0
    ensures RunSource(source, fuel) == RunSource(source, 0)
    ensures RunSource(source, fuel).Ran? ==>
              !RunSource(source, fuel).outcome.OutOfFuel? &&
              (RunSource(source, fuel).outcome.Done? ==> RunSource(source, fuel).outcome.value.Plain?)
  {
    var toks := L.Tokenize(source);
    LexedTokensParse(toks);
    var p := Parse(toks);
    if p.Ok? {
      ParsedProgramNeedsNoFuel(p.value, Initial, 0, Plain(Undefined));
      InterpretFuel(p.value, 0, fuel);
    }
  }
}
