/** Worked runs of the interpreter model on trees built directly. */
module InterpreterExamples {
  import opened Ast
  import opened Values
  import opened Interpreter
  import opened InterpreterProperties

  /** A global `n`, a global array `xs`, and a function `f(n)` that pushes its parameter onto
      `xs`, declares `g` and returns its parameter. */
  const Body: seq<Stmt> := [
    ArrayMethodCall("xs", "push", [Variable("n")]),
    FunctionDeclaration("g", [], []),
    ReturnStatement(Variable("n"))
  ]
  const Before: State := State(map["xs" := Arr(0), "n" := Num(1.0)], [[]], map["f" := Func(["n"], Body)], [])

  /** The state `f`'s body starts in, and the states after its first two statements. */
  const Inside: State := State(map["xs" := Arr(0), "n" := Num(7.0)], [[]], Before.funcs, [])
  const Pushed: State := Inside.(heap := [[Num(7.0)]])
  const Declared: State := Pushed.(funcs := Before.funcs["g" := Func([], [])])

  lemma EnterF()
    ensures ValidState(Before) && Entered(Before, Before.funcs["f"], [Num(7.0)]) == Inside
  {
    assert Bind(Before.env, ["n"], [Num(7.0)]) == Bind(Before.env, [], [Num(7.0)])["n" := Num(7.0)];
    assert Before.env["n" := Num(7.0)] == Inside.env;
  }

  lemma PushStep()
    ensures ValidState(Inside) && ExecStmt(Body[0], Inside, 0) == Done(Plain(Num(1.0)), Pushed)
  {
    assert [Variable("n")][1..] == [];
    assert [Num(7.0)] + [] == [Num(7.0)];
    assert EvalList([Variable("n")], Inside, 0) == Done([Num(7.0)], Inside);
    assert ArrayMethod([], "push", [Num(7.0)]).contents == [Num(7.0)];
  }

  lemma DeclareStep()
    ensures ValidState(Pushed) && ExecStmt(Body[1], Pushed, 0) == Done(Plain(Null), Declared)
  {
  }

  lemma ReturnStep()
    ensures ValidState(Declared) && ExecStmt(Body[2], Declared, 0) == Done(Ret(Num(7.0)), Declared)
  {
  }

  lemma RestOfBody()
    ensures ValidState(Pushed) && RunBlock(Body[1..], Pushed, 0, Num(1.0)) == Done(Ret(Num(7.0)), Declared)
  {
    var rest := Body[1..];
    assert rest[0] == Body[1] && rest[1] == Body[2];
    DeclareStep();
    ReturnStep();
  }

  lemma FBodyRuns()
    ensures ValidState(Inside) && RunBlock(Body, Inside, 0, Null) == Done(Ret(Num(7.0)), Declared)
  {
    PushStep();
    RestOfBody();
  }

  lemma ArgsOfF()
    ensures EvalList([Number(7.0)], Before, 1) == Done([Num(7.0)], Before)
  {
    assert [Number(7.0)][1..] == [];
    assert [Num(7.0)] + [] == [Num(7.0)];
  }

  /** `f(7)`: the parameter shadows the global `n` inside the body only; the push onto the
      global array and the declaration of `g` outlive the call. */
  lemma CallScope()
    ensures EvalExpr(FunctionCall("f", [Number(7.0)]), Before, 1)
         == Done(Num(7.0), State(Before.env, [[Num(7.0)]], Before.funcs["g" := Func([], [])], []))
  {
    ArgsOfF();
    EnterF();
    FBodyRuns();
    assert Before.funcs["f"] == Func(["n"], Body);
    CallEffect("f", [Number(7.0)], Before, 1, [Num(7.0)], Before);
  }

  /** A `return` at the top level does not end the program: the print after it still runs. */
  lemma ReturnAtTopLevel()
    ensures Interpret([ReturnStatement(Number(1.0)), Print(Number(2.0))], 0)
         == Done(Plain(Num(2.0)), State(map[], [], map[], [Printed(Num(2.0), [])]))
  {
    var prog := [ReturnStatement(Number(1.0)), Print(Number(2.0))];
    assert prog[1..] == [Print(Number(2.0))];
    assert ExecStmt(prog[0], Initial, 0) == Done(Ret(Num(1.0)), Initial);
  }

  /** Inside a function the same `return` ends the body, and the print never runs. */
  lemma ReturnInBody()
    ensures var st := State(map[], [], map["h" := Func([], [ReturnStatement(Number(1.0)), Print(Number(2.0))])], []);
            EvalExpr(FunctionCall("h", []), st, 1) == Done(Num(1.0), st)
  {
    var st := State(map[], [], map["h" := Func([], [ReturnStatement(Number(1.0)), Print(Number(2.0))])], []);
    var ss := st.funcs["h"].body;
    assert Entered(st, st.funcs["h"], []) == st;
    assert ExecStmt(ss[0], st, 0) == Done(Ret(Num(1.0)), st);
    assert RunBlock(ss, st, 0, Null) == Done(Ret(Num(1.0)), st);
  }

  /** `i = 0; while (i < 2) { i = i + 1 }`. */
  const Counter: seq<Stmt> := [
    Assignment("i", Number(0.0)),
    WhileStatement(ComparisonExpression(Variable("i"), "<", Number(2.0)),
                   [Assignment("i", BinaryExpression(Variable("i"), "+", Number(1.0)))])
  ]

  /** The state with `i` bound to `k`. */
  function Counted(k: real): State {
    State(map["i" := Num(k)], [], map[], [])
  }

  /** One run of the loop body adds one to `i`, whatever the fuel. */
  lemma CounterBody(k: real, fuel: nat, init: Value)
    requires !init.Arr?
    ensures RunBlock(Counter[1].body, Counted(k), fuel, init) == Done(Plain(Num(k + 1.0)), Counted(k + 1.0))
  {
    var body := Counter[1].body;
    assert body[1..] == [];
    assert EvalExpr(body[0].value, Counted(k), fuel) == Done(Num(k + 1.0), Counted(k));
    assert Counted(k).env["i" := Num(k + 1.0)] == Counted(k + 1.0).env;
    assert ExecStmt(body[0], Counted(k), fuel) == Done(Plain(Num(k + 1.0)), Counted(k + 1.0));
  }

  /** The loop test reads `i`. */
  lemma CounterTest(k: real, fuel: nat)
    ensures EvalExpr(Counter[1].condition, Counted(k), fuel) == Done(Bool(k < 2.0), Counted(k))
  {
  }

  /** Two iterations take two units of fuel; the loop's result is the last assignment's. */
  lemma CounterLoop()
    ensures Loop(Counter[1], Counted(0.0), 2, Null) == Done(Plain(Num(2.0)), Counted(2.0))
    ensures Loop(Counter[1], Counted(0.0), 1, Null) == OutOfFuel
  {
    CounterLoopEnough();
    CounterLoopShort();
  }

  lemma CounterLoopEnough()
    ensures Loop(Counter[1], Counted(0.0), 2, Null) == Done(Plain(Num(2.0)), Counted(2.0))
  {
    var w := Counter[1];
    CounterTest(0.0, 2);
    CounterTest(1.0, 1);
    CounterTest(2.0, 0);
    CounterBody(0.0, 2, Null);
    CounterBody(1.0, 1, Num(1.0));
    assert Loop(w, Counted(2.0), 0, Num(2.0)) == Done(Plain(Num(2.0)), Counted(2.0));
    assert Loop(w, Counted(1.0), 1, Num(1.0)) == Done(Plain(Num(2.0)), Counted(2.0));
  }

  lemma CounterLoopShort()
    ensures Loop(Counter[1], Counted(0.0), 1, Null) == OutOfFuel
  {
    var w := Counter[1];
    CounterTest(0.0, 1);
    CounterTest(1.0, 0);
    CounterBody(0.0, 1, Null);
    CounterBody(1.0, 0, Num(1.0));
    assert Loop(w, Counted(1.0), 0, Num(1.0)) == OutOfFuel;
  }

  /** After `i = 0` the program's outcome is the loop's. */
  lemma CounterProgram(fuel: nat)
    ensures Interpret(Counter, fuel) == ExecStmt(Counter[1], Counted(0.0), fuel)
  {
    assert Initial.env["i" := Num(0.0)] == Counted(0.0).env;
    assert ExecStmt(Counter[0], Initial, fuel) == Done(Plain(Num(0.0)), Counted(0.0));
    assert Counter[1..] == [Counter[1]];
    assert Counter[1..][1..] == [];
  }

  /** The loop as the program's second statement starts with result `null`. */
  lemma CounterWhile(fuel: nat)
    ensures ExecStmt(Counter[1], Counted(0.0), fuel) == Loop(Counter[1], Counted(0.0), fuel, Null)
  {
  }

  /** Two units of fuel run the program to the end; one unit does not suffice. */
  lemma CounterRuns(fuel: nat)
    ensures fuel == 2 ==> Interpret(Counter, fuel) == Done(Plain(Num(2.0)), Counted(2.0))
    ensures fuel == 1 ==> Interpret(Counter, fuel) == OutOfFuel
  {
    CounterProgram(fuel);
    CounterWhile(fuel);
    CounterLoop();
  }

  /** Division by zero is thrown even when the left operand is a string. */
  lemma StringOverZero()
    ensures Interpret([Print(BinaryExpression(String("a"), "/", Number(0.0)))], 0) == Fail(DivisionByZero)
  {
  }

  /** `g()` where `g` assigns 2 to the global `y`: the call's result is 2, and the assignment is
      undone when the call puts the environment back. */
  lemma GlobalReassignReverts()
    ensures var st := State(map["y" := Num(1.0)], [], map["g" := Func([], [Assignment("y", Number(2.0))])], []);
            EvalExpr(FunctionCall("g", []), st, 1) == Done(Num(2.0), st)
  {
    var st := State(map["y" := Num(1.0)], [], map["g" := Func([], [Assignment("y", Number(2.0))])], []);
    var ss := st.funcs["g"].body;
    assert Entered(st, st.funcs["g"], []) == st;
    var inner := st.(env := st.env["y" := Num(2.0)]);
    assert ExecStmt(ss[0], st, 0) == Done(Plain(Num(2.0)), inner);
    assert RunBlock(ss, st, 0, Null) == Done(Plain(Num(2.0)), inner);
  }

  /** `arr = [1, 2]`, then `arr[5]` or `arr[5] = 9`: both fail the bounds test. */
  const Pair: State := State(map["arr" := Arr(0)], [[Num(1.0), Num(2.0)]], map[], [])

  lemma OutOfBoundsAccess(fuel: nat)
    ensures EvalExpr(ArrayElementAccess("arr", Number(5.0)), Pair, fuel) == Fail(IndexOutOfBounds(5.0))
    ensures ExecStmt(ArrayElementAssignment("arr", Number(5.0), Number(9.0)), Pair, fuel) == Fail(IndexOutOfBounds(5.0))
  {
    assert IsArrayIn(Pair, "arr");
    assert CheckIndex(Num(5.0), |Pair.heap[0]|) == OutOfRange(5.0);
  }

  /** `xs = [1]; print(xs); xs.push(2)`: the line printed shows `[1]`, although the array holds
      `[1, 2]` afterwards. */
  const Logged: seq<Stmt> := [
    Assignment("xs", ArrayLiteral([Number(1.0)])),
    Print(Variable("xs")),
    ArrayMethodCall("xs", "push", [Number(2.0)])
  ]
  const One: State := State(map["xs" := Arr(0)], [[Num(1.0)]], map[], [])
  const Shown: State := One.(out := [Printed(Arr(0), [[Num(1.0)]])])
  const Grown: State := Shown.(heap := [[Num(1.0), Num(2.0)]])

  lemma LoggedFirst(fuel: nat)
    ensures ExecStmt(Logged[0], Initial, fuel) == Done(Plain(Arr(0)), One)
  {
    assert [Number(1.0)][1..] == [];
    assert [Num(1.0)] + [] == [Num(1.0)];
    assert EvalList([Number(1.0)], Initial, fuel) == Done([Num(1.0)], Initial);
    assert Initial.env["xs" := Arr(0)] == One.env;
  }

  lemma LoggedThird(fuel: nat)
    ensures ValidState(Shown) && ExecStmt(Logged[2], Shown, fuel) == Done(Plain(Num(2.0)), Grown)
  {
    assert [Number(2.0)][1..] == [];
    assert [Num(2.0)] + [] == [Num(2.0)];
    assert EvalList([Number(2.0)], Shown, fuel) == Done([Num(2.0)], Shown);
    assert ArrayMethod([Num(1.0)], "push", [Num(2.0)]).contents == [Num(1.0), Num(2.0)];
  }

  lemma PrintShowsContentsThen(fuel: nat)
    ensures Interpret(Logged, fuel) == Done(Plain(Num(2.0)), Grown)
    ensures Grown.out[0].arrays[0] == [Num(1.0)] && Grown.heap[0] == [Num(1.0), Num(2.0)]
  {
    LoggedFirst(fuel);
    assert ExecStmt(Logged[1], One, fuel) == Done(Plain(Arr(0)), Shown);
    LoggedThird(fuel);
    assert Logged[1..][1..] == [Logged[2]] && Logged[1..][1..][1..] == [];
  }
}
