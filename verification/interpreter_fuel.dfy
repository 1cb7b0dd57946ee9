/** Fuel is only a bound: an evaluation that finishes, with a value, an error or an
    unsupported step, finishes the same way with any larger amount of fuel. So a finished
    outcome of the model is the outcome of the unbounded interpreter. */
module InterpreterFuel {
  import opened Ast
  import opened Values
  import opened Interpreter

  lemma {:induction false} ExprFuel(e: Expr, st: State, fuel: nat, fuel2: nat)
    requires ValidState(st) && fuel <= fuel2 && !EvalExpr(e, st, fuel).OutOfFuel?
    ensures EvalExpr(e, st, fuel2) == EvalExpr(e, st, fuel)
    decreases fuel, e, 1
  {
    match e
    case Number(_) =>
    case String(_) =>
    case Variable(_) =>
    case BinaryExpression(_, _, _) =>
      OperandsFuel(e, st, fuel, fuel2);
    case ComparisonExpression(_, _, _) =>
      OperandsFuel(e, st, fuel, fuel2);
    case ArrayLiteral(elements) =>
      ListFuel(elements, st, fuel, fuel2);
    case ArrayElementAccess(name, index) =>
      if IsArrayIn(st, name) {
        ExprFuel(index, st, fuel, fuel2);
      }
    case ArrayMethodExpression(name, methodName, args) =>
      ArrayCallFuel(name, methodName, args, st, fuel, fuel2);
    case ArrayProperty(_, _) =>
    case FunctionCall(_, _) =>
      CallExprFuel(e, st, fuel, fuel2);
  }

  /** A binary or comparison expression: its two operands, one after the other. */
  lemma {:induction false} OperandsFuel(e: Expr, st: State, fuel: nat, fuel2: nat)
    requires e.BinaryExpression? || e.ComparisonExpression?
    requires ValidState(st) && fuel <= fuel2 && !EvalExpr(e, st, fuel).OutOfFuel?
    ensures EvalExpr(e, st, fuel2) == EvalExpr(e, st, fuel)
    decreases fuel, e, 0
  {
    var a := EvalExpr(e.left, st, fuel);
    ExprFuel(e.left, st, fuel, fuel2);
    if a.Done? {
      ExprFuel(e.right, a.state, fuel, fuel2);
    }
  }

  /** A function call: the arguments, then the body with one unit of fuel less. */
  lemma {:induction false} CallExprFuel(e: Expr, st: State, fuel: nat, fuel2: nat)
    requires e.FunctionCall?
    requires ValidState(st) && fuel <= fuel2 && !EvalExpr(e, st, fuel).OutOfFuel?
    ensures EvalExpr(e, st, fuel2) == EvalExpr(e, st, fuel)
    decreases fuel, e, 0
  {
    if e.name in st.funcs {
      var vs := EvalList(e.args, st, fuel);
      ListFuel(e.args, st, fuel, fuel2);
      if vs.Done? {
        CallFuel(st.funcs[e.name], vs.value, vs.state, fuel - 1, fuel2 - 1);
      }
    }
  }

  lemma {:induction false} ListFuel(es: seq<Expr>, st: State, fuel: nat, fuel2: nat)
    requires ValidState(st) && fuel <= fuel2 && !EvalList(es, st, fuel).OutOfFuel?
    ensures EvalList(es, st, fuel2) == EvalList(es, st, fuel)
    decreases fuel, es, 0
  {
    if es != [] {
      var h := EvalExpr(es[0], st, fuel);
      ExprFuel(es[0], st, fuel, fuel2);
      if h.Done? {
        ListFuel(es[1..], h.state, fuel, fuel2);
      }
    }
  }

  lemma {:induction false} ArrayCallFuel(name: string, methodName: string, args: seq<Expr>, st: State, fuel: nat, fuel2: nat)
    requires ValidState(st) && fuel <= fuel2 && !ArrayCall(name, methodName, args, st, fuel).OutOfFuel?
    ensures ArrayCall(name, methodName, args, st, fuel2) == ArrayCall(name, methodName, args, st, fuel)
    decreases fuel, args, 1
  {
    if IsArrayIn(st, name) {
      ListFuel(args, st, fuel, fuel2);
    }
  }

  lemma {:induction false} CallFuel(f: Func, vals: seq<Value>, st: State, fuel: nat, fuel2: nat)
    requires ValidState(st) && ValidValues(vals, |st.heap|) && fuel <= fuel2
    requires !Call(f, vals, st, fuel).OutOfFuel?
    ensures Call(f, vals, st, fuel2) == Call(f, vals, st, fuel)
    decreases fuel, f, 0
  {
    if !exists i :: 0 <= i < |f.params| && IsProtoName(f.params[i]) {
      BlockFuel(f.body, Entered(st, f, vals), fuel, fuel2, Null);
    }
  }

  lemma {:induction false} StmtFuel(s: Stmt, st: State, fuel: nat, fuel2: nat)
    requires ValidState(st) && fuel <= fuel2 && !ExecStmt(s, st, fuel).OutOfFuel?
    ensures ExecStmt(s, st, fuel2) == ExecStmt(s, st, fuel)
    decreases fuel, s, 1
  {
    match s
    case Assignment(_, e) =>
      ExprFuel(e, st, fuel, fuel2);
    case Print(e) =>
      ExprFuel(e, st, fuel, fuel2);
    case ExpressionStatement(e) =>
      ExprFuel(e, st, fuel, fuel2);
    case IfStatement(c, ifBlock, elseBlock) =>
      var v := EvalExpr(c, st, fuel);
      ExprFuel(c, st, fuel, fuel2);
      if v.Done? && Truthy(v.value) {
        BlockFuel(ifBlock, v.state, fuel, fuel2, Undefined);
      } else if v.Done? && elseBlock.ElseBlock? {
        BlockFuel(elseBlock.stmts, v.state, fuel, fuel2, Undefined);
      }
    case WhileStatement(_, _) =>
      LoopFuel(s, st, fuel, fuel2, Null);
    case ArrayElementAssignment(_, _, _) =>
      ElementWriteFuel(s, st, fuel, fuel2);
    case ArrayMethodCall(name, methodName, args) =>
      ArrayCallFuel(name, methodName, args, st, fuel, fuel2);
    case FunctionDeclaration(_, _, _) =>
    case ReturnStatement(e) =>
      ExprFuel(e, st, fuel, fuel2);
  }

  /** An element assignment: the index, then the value. */
  lemma {:induction false} ElementWriteFuel(s: Stmt, st: State, fuel: nat, fuel2: nat)
    requires s.ArrayElementAssignment?
    requires ValidState(st) && fuel <= fuel2 && !ExecStmt(s, st, fuel).OutOfFuel?
    ensures ExecStmt(s, st, fuel2) == ExecStmt(s, st, fuel)
    decreases fuel, s, 0
  {
    var ArrayElementAssignment(name, index, e) := s;
    if IsArrayIn(st, name) {
      var i := EvalExpr(index, st, fuel);
      ExprFuel(index, st, fuel, fuel2);
      if i.Done? {
        ExprFuel(e, i.state, fuel, fuel2);
      }
    }
  }

  lemma {:induction false} BlockFuel(ss: seq<Stmt>, st: State, fuel: nat, fuel2: nat, init: Value)
    requires ValidState(st) && ValidValue(init, |st.heap|) && fuel <= fuel2
    requires !RunBlock(ss, st, fuel, init).OutOfFuel?
    ensures RunBlock(ss, st, fuel2, init) == RunBlock(ss, st, fuel, init)
    decreases fuel, ss, 0
  {
    if ss != [] {
      var h := ExecStmt(ss[0], st, fuel);
      StmtFuel(ss[0], st, fuel, fuel2);
      if h.Done? && h.value.Plain? {
        BlockFuel(ss[1..], h.state, fuel, fuel2, h.value.value);
      }
    }
  }

  lemma {:induction false} LoopFuel(s: Stmt, st: State, fuel: nat, fuel2: nat, result: Value)
    requires s.WhileStatement? && ValidState(st) && ValidValue(result, |st.heap|) && fuel <= fuel2
    requires !Loop(s, st, fuel, result).OutOfFuel?
    ensures Loop(s, st, fuel2, result) == Loop(s, st, fuel, result)
    decreases fuel, s, 0
  {
    var c := EvalExpr(s.condition, st, fuel);
    ExprFuel(s.condition, st, fuel, fuel2);
    if c.Done? && Truthy(c.value) {
      var b := RunBlock(s.body, c.state, fuel, result);
      BlockFuel(s.body, c.state, fuel, fuel2, result);
      if b.Done? && b.value.Plain? {
        LoopFuel(s, b.state, fuel - 1, fuel2 - 1, b.value.value);
      }
    }
  }

  lemma {:induction false} ProgramFuel(ss: seq<Stmt>, st: State, fuel: nat, fuel2: nat, last: Signal)
    requires ValidState(st) && ValidValue(last.value, |st.heap|) && fuel <= fuel2
    requires !RunProgram(ss, st, fuel, last).OutOfFuel?
    ensures RunProgram(ss, st, fuel2, last) == RunProgram(ss, st, fuel, last)
    decreases ss
  {
    if ss != [] {
      var h := ExecStmt(ss[0], st, fuel);
      StmtFuel(ss[0], st, fuel, fuel2);
      if h.Done? {
        ProgramFuel(ss[1..], h.state, fuel, fuel2, h.value);
      }
    }
  }

  /** A program's finished outcome does not depend on how much fuel was left over. */
  lemma InterpretFuel(prog: seq<Stmt>, fuel: nat, fuel2: nat)
    requires fuel <= fuel2 && !Interpret(prog, fuel).OutOfFuel?
    ensures Interpret(prog, fuel2) == Interpret(prog, fuel)
  {
    ProgramFuel(prog, Initial, fuel, fuel2, Plain(Undefined));
  }
}
