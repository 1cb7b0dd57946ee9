/** The demonstration input at the bottom of lexer.js, taken through all three stages. */
module PipelineExamples {
  import opened Wrappers
  import L = Lexer
  import LX = LexerExamples
  import opened Ast
  import opened Parser
  import opened ParserForms
  import opened Values
  import opened Interpreter
  import opened Pipeline

  const Demo: string := "name = \"Ali\" age = 24"
  const DemoProgram: seq<Stmt> := [Assignment("name", String("Ali")), Assignment("age", Number(24.0))]

  /** The demonstration tokens are two assignments. */
  lemma DemoParses()
    ensures WellFormed(LX.DemoTokens + [L.EofToken])
    ensures Parse(LX.DemoTokens + [L.EofToken]) == Ok(DemoProgram)
  {
    var toks := LX.DemoTokens + [L.EofToken];
    assert toks == [LX.Name, LX.Equals, LX.Ali, LX.Age, LX.Equals, LX.TwentyFour, L.EofToken];
    assert WellFormed(toks);
    assert ParseExpression(toks, 2) == Parsed(String("Ali"), 3);
    assert ParseExpression(toks, 5) == Parsed(Number(24.0), 6);
    AssignmentParses(toks, 0, String("Ali"), 3);
    AssignmentParses(toks, 3, Number(24.0), 6);
    ProgramParses(toks, 3, DemoProgram[1], 6, [], 6);
    assert [DemoProgram[1]] + [] == DemoProgram[1..];
    ProgramParses(toks, 0, DemoProgram[0], 3, DemoProgram[1..], 6);
    assert [DemoProgram[0]] + DemoProgram[1..] == DemoProgram;
  }

  /** Run, the two assignments leave both names bound; the program's result is the last
      assignment's value, and nothing is printed. */
  lemma DemoInterprets(fuel: nat)
    ensures Interpret(DemoProgram, fuel)
         == Done(Plain(Num(24.0)), State(map["name" := Str("Ali"), "age" := Num(24.0)], [], map[], []))
  {
    var s1 := State(map["name" := Str("Ali")], [], map[], []);
    assert Initial.env["name" := Str("Ali")] == s1.env;
    assert ExecStmt(DemoProgram[0], Initial, fuel) == Done(Plain(Str("Ali")), s1);
    var s2 := State(map["name" := Str("Ali"), "age" := Num(24.0)], [], map[], []);
    assert s1.env["age" := Num(24.0)] == s2.env;
    assert ExecStmt(DemoProgram[1], s1, fuel) == Done(Plain(Num(24.0)), s2);
    assert DemoProgram[1..] == [DemoProgram[1]];
    assert DemoProgram[1..][1..] == [];
  }

  /** A run whose tokens and parse are known. */
  lemma RunOf(source: string, fuel: nat, toks: seq<L.Token>, prog: seq<Stmt>)
    requires L.QuoteCount(source) % 2 == 0 && L.Tokenize(source) == toks
    requires WellFormed(toks) && Parse(toks) == Ok(prog)
    ensures RunSource(source, fuel) == Ran(Interpret(prog, fuel))
  {
  }

  lemma DemoRuns(fuel: nat)
    ensures L.QuoteCount(Demo) % 2 == 0
    ensures RunSource(Demo, fuel)
         == Ran(Done(Plain(Num(24.0)), State(map["name" := Str("Ali"), "age" := Num(24.0)], [], map[], [])))
  {
    LX.DemoTokenizes();
    DemoParses();
    DemoInterprets(fuel);
    RunOf(Demo, fuel, LX.DemoTokens + [L.EofToken], DemoProgram);
  }
}
