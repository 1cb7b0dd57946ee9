/** Properties of the interpreter model: how programs and blocks sequence their statements,
    what each statement changes, the order of the checks in array operations and calls, and
    what a call leaves behind. */
module InterpreterProperties {
  import opened Ast
  import opened Values
  import opened Interpreter

  // ---------------------------------------------------------------------------------------
  // Programs and blocks

  /** `interpret` runs its statements one after the other: one more statement at the end
      gives that statement's outcome, in the state the others left. */
  lemma {:induction false} RunProgramSnoc(ss: seq<Stmt>, s: Stmt, st: State, fuel: nat, last: Signal)
    requires ValidState(st) && ValidValue(last.value, |st.heap|)
    ensures var r := RunProgram(ss, st, fuel, last);
            RunProgram(ss + [s], st, fuel, last) == if r.Done? then ExecStmt(s, r.state, fuel) else Abandon(r)
    decreases ss
  {
    if ss == [] {
      assert [] + [s] == [s];
      assert [s][1..] == [];
    } else {
      assert (ss + [s])[0] == ss[0];
      assert (ss + [s])[1..] == ss[1..] + [s];
      var h := ExecStmt(ss[0], st, fuel);
      if h.Done? {
        RunProgramSnoc(ss[1..], s, h.state, fuel, h.value);
      }
    }
  }

  /** A `ReturnValue` at the top level does not stop the program: the next statement runs. */
  lemma TopLevelReturnContinues(s: Stmt, rest: seq<Stmt>, st: State, fuel: nat, last: Signal, v: Value, st1: State)
    requires ValidState(st) && ValidValue(last.value, |st.heap|)
    requires ExecStmt(s, st, fuel) == Done(Ret(v), st1)
    ensures RunProgram([s] + rest, st, fuel, last) == RunProgram(rest, st1, fuel, Ret(v))
  {
    assert ([s] + rest)[0] == s;
    assert ([s] + rest)[1..] == rest;
  }

  /** A block stops at the first `ReturnValue` and passes it on; otherwise the second part of
      a block starts from the result and the state the first part left. */
  lemma {:induction false} RunBlockAppend(a: seq<Stmt>, b: seq<Stmt>, st: State, fuel: nat, init: Value)
    requires ValidState(st) && ValidValue(init, |st.heap|)
    ensures var r := RunBlock(a, st, fuel, init);
            RunBlock(a + b, st, fuel, init) ==
              if !r.Done? || r.value.Ret? then r else RunBlock(b, r.state, fuel, r.value.value)
    decreases a
  {
    if a == [] {
      assert [] + b == b;
    } else {
      assert (a + b)[0] == a[0];
      assert (a + b)[1..] == a[1..] + b;
      var h := ExecStmt(a[0], st, fuel);
      if h.Done? && h.value.Plain? {
        RunBlockAppend(a[1..], b, h.state, fuel, h.value.value);
      }
    }
  }

  // ---------------------------------------------------------------------------------------
  // Assignment and print

  /** An assignment binds the name to the value, which is its result; every other binding
      stays as it was, and the rest of the state is what evaluating the value left. */
  lemma AssignmentEffect(x: string, e: Expr, st: State, fuel: nat)
    requires ValidState(st)
    ensures var v := EvalExpr(e, st, fuel);
            var r := ExecStmt(Assignment(x, e), st, fuel);
            && (r.Done? <==> v.Done? && !IsProtoName(x))
            && (r.Done? ==> r.value == Plain(v.value) && r.state == v.state.(env := st.env[x := v.value]))
  {
  }

  /** A print logs the value with the array contents of that moment, answers the value, and
      changes nothing else. */
  lemma PrintEffect(e: Expr, st: State, fuel: nat)
    requires ValidState(st)
    ensures var v := EvalExpr(e, st, fuel);
            var r := ExecStmt(Print(e), st, fuel);
            && (r.Done? <==> v.Done?)
            && (r.Done? ==> r.value == Plain(v.value) && r.state == v.state.(out := v.state.out + [Printed(v.value, v.state.heap)]))
            && (r.Done? ==> r.state.env == st.env)
  {
  }

  // ---------------------------------------------------------------------------------------
  // If and while

  /** A false condition with no else gives `null`; an empty block, taken, gives `undefined`
      (an empty else block is present, and taken). */
  lemma IfResults(c: Expr, b: seq<Stmt>, els: ElseBranch, st: State, fuel: nat)
    requires ValidState(st)
    ensures var v := EvalExpr(c, st, fuel);
            var r := ExecStmt(IfStatement(c, b, els), st, fuel);
            && (!v.Done? ==> r == Abandon(v))
            && (v.Done? && !Truthy(v.value) && els.NoElse? ==> r == Done(Plain(Null), v.state))
            && (v.Done? && !Truthy(v.value) && els == ElseBlock([]) ==> r == Done(Plain(Undefined), v.state))
            && (v.Done? && Truthy(v.value) && b == [] ==> r == Done(Plain(Undefined), v.state))
  {
  }

  /** A while loop whose condition is false at once gives `null`. */
  lemma WhileZeroIterations(c: Expr, body: seq<Stmt>, st: State, fuel: nat)
    requires ValidState(st)
    ensures var v := EvalExpr(c, st, fuel);
            v.Done? && !Truthy(v.value) ==> ExecStmt(WhileStatement(c, body), st, fuel) == Done(Plain(Null), v.state)
  {
  }

  /** One iteration: a `ReturnValue` from the body ends the loop with it; otherwise the loop
      goes on from the body's state, carrying the body's result, for one unit of fuel. */
  lemma WhileIteration(s: Stmt, st: State, fuel: nat, result: Value)
    requires s.WhileStatement? && ValidState(st) && ValidValue(result, |st.heap|)
    ensures var v := EvalExpr(s.condition, st, fuel);
            v.Done? && Truthy(v.value) ==>
              var b := RunBlock(s.body, v.state, fuel, result);
              && (b.Done? && b.value.Ret? ==> Loop(s, st, fuel, result) == b)
              && (b.Done? && b.value.Plain? && fuel > 0 ==>
                    Loop(s, st, fuel, result) == Loop(s, b.state, fuel - 1, b.value.value))
  {
  }

  // ---------------------------------------------------------------------------------------
  // Arrays

  /** Element assignment and access check for an array before the index is evaluated, so the
      error is the same whatever the index and value expressions would do. */
  lemma NotAnArrayFirst(name: string, index: Expr, e: Expr, st: State, fuel: nat)
    requires ValidState(st) && !IsArrayIn(st, name)
    ensures ExecStmt(ArrayElementAssignment(name, index, e), st, fuel) == Fail(NotAnArray(name))
    ensures EvalExpr(ArrayElementAccess(name, index), st, fuel) == Fail(NotAnArray(name))
  {
  }

  /** Element access, once the index is evaluated: an index outside the array's current length
      throws; a whole index inside it answers that element and changes nothing. */
  lemma ElementAccessEffect(name: string, index: Expr, st: State, fuel: nat, iv: Value, st1: State)
    requires ValidState(st) && IsArrayIn(st, name)
    requires EvalExpr(index, st, fuel) == Done(iv, st1)
    ensures var ref := st.env[name].ref;
            var r := EvalExpr(ArrayElementAccess(name, index), st, fuel);
            && ref < |st1.heap|
            && (CheckIndex(iv, |st1.heap[ref]|).OutOfRange? ==> r == Fail(IndexOutOfBounds(iv.n)))
            && (r.Done? <==> CheckIndex(iv, |st1.heap[ref]|).InRange?)
            && (r.Done? ==> r == Done(st1.heap[ref][CheckIndex(iv, |st1.heap[ref]|).k], st1))
  {
  }

  /** Element assignment, once the index and the value are evaluated: an index outside the
      array's current length throws; a whole index inside it changes that one element of that
      one array, and neither the array's length nor anything else. */
  lemma ElementAssignmentEffect(name: string, index: Expr, e: Expr, st: State, fuel: nat,
                                iv: Value, st1: State, vv: Value, st2: State)
    requires ValidState(st) && IsArrayIn(st, name)
    requires EvalExpr(index, st, fuel) == Done(iv, st1) && EvalExpr(e, st1, fuel) == Done(vv, st2)
    ensures var ref := st.env[name].ref;
            var r := ExecStmt(ArrayElementAssignment(name, index, e), st, fuel);
            && ref < |st2.heap|
            && (CheckIndex(iv, |st2.heap[ref]|).OutOfRange? ==> r == Fail(IndexOutOfBounds(iv.n)))
            && (r.Done? <==> CheckIndex(iv, |st2.heap[ref]|).InRange?)
            && (r.Done? ==> Written(st2, r.state, ref, CheckIndex(iv, |st2.heap[ref]|).k, vv) && r.value == Plain(vv))
  {
  }

  /** `s2` is `s1` with element `k` of array `ref` set to `v`. */
  predicate Written(s1: State, s2: State, ref: nat, k: nat, v: Value) {
    && s2.env == s1.env && s2.funcs == s1.funcs && s2.out == s1.out
    && |s2.heap| == |s1.heap| && ref < |s1.heap|
    && |s2.heap[ref]| == |s1.heap[ref]| && k < |s1.heap[ref]|
    && s2.heap[ref][k] == v
    && (forall i :: 0 <= i < |s1.heap[ref]| && i != k ==> s2.heap[ref][i] == s1.heap[ref][i])
    && (forall j :: 0 <= j < |s1.heap| && j != ref ==> s2.heap[j] == s1.heap[j])
  }

  /** Reading an element just written gives the value written, and changes nothing. */
  lemma WriteThenRead(name: string, k: nat, e: Expr, st: State, fuel: nat, v: Value, st1: State)
    requires ValidState(st)
    requires ExecStmt(ArrayElementAssignment(name, Number(k as real), e), st, fuel) == Done(Plain(v), st1)
    ensures EvalExpr(ArrayElementAccess(name, Number(k as real)), st1, fuel) == Done(v, st1)
  {
    assert IsArrayIn(st, name);
    var o := EvalExpr(e, st, fuel);
    assert o.Done?;
    ElementAssignmentEffect(name, Number(k as real), e, st, fuel, Num(k as real), st, o.value, o.state);
  }

  /** An array method call as a statement has the result and effect of the same call as an
      expression. */
  lemma MethodStatementIsExpression(name: string, methodName: string, args: seq<Expr>, st: State, fuel: nat)
    requires ValidState(st)
    ensures var r := EvalExpr(ArrayMethodExpression(name, methodName, args), st, fuel);
            var s := ExecStmt(ArrayMethodCall(name, methodName, args), st, fuel);
            && (s.Done? <==> r.Done?)
            && (r.Done? ==> s == Done(Plain(r.value), r.state))
  {
  }

  /** A method call on an array, once its arguments are evaluated: the method's new contents
      replace that array's, and no other array changes. */
  lemma ArrayCallEffect(name: string, methodName: string, args: seq<Expr>, st: State, fuel: nat,
                        vals: seq<Value>, st1: State)
    requires ValidState(st) && IsArrayIn(st, name)
    requires EvalList(args, st, fuel) == Done(vals, st1)
    ensures var ref := st.env[name].ref;
            var applied := ArrayMethod(st1.heap[ref], methodName, vals);
            var r := ArrayCall(name, methodName, args, st, fuel);
            && (r.Done? <==> applied.answer.Gives?)
            && (r.Done? ==> r.value == applied.answer.v && r.state.env == st.env)
            && (r.Done? ==> r.state.heap[ref] == applied.contents && |r.state.heap| == |st1.heap|)
            && (r.Done? ==> forall j :: 0 <= j < |st1.heap| && j != ref ==> r.state.heap[j] == st1.heap[j])
  {
  }

  /** `length` reads the array's length and changes nothing. */
  lemma LengthReads(name: string, st: State, fuel: nat)
    requires ValidState(st) && IsArrayIn(st, name)
    ensures EvalExpr(ArrayProperty(name, "length"), st, fuel) == Done(Num(|st.heap[st.env[name].ref]| as real), st)
  {
  }

  // ---------------------------------------------------------------------------------------
  // Operators and variables

  /** Dividing by a right operand strictly equal to zero throws, whatever the left operand. */
  lemma DivisionByZeroFails(left: Expr, right: Expr, st: State, fuel: nat, lv: Value, st1: State, st2: State)
    requires ValidState(st)
    requires EvalExpr(left, st, fuel) == Done(lv, st1) && EvalExpr(right, st1, fuel) == Done(Num(0.0), st2)
    ensures EvalExpr(BinaryExpression(left, "/", right), st, fuel) == Fail(DivisionByZero)
  {
  }

  /** A name that is neither bound nor inherited is an undefined variable; a bound one reads
      its value and changes nothing. */
  lemma VariableLookup(x: string, st: State, fuel: nat)
    requires ValidState(st)
    ensures EvalExpr(Variable(x), st, fuel).Fail? <==> x !in st.env && !Inherited(x)
    ensures EvalExpr(Variable(x), st, fuel).Fail? ==> EvalExpr(Variable(x), st, fuel).error == UndefinedVariable(x)
    ensures x in st.env ==> EvalExpr(Variable(x), st, fuel) == Done(st.env[x], st)
  {
  }

  // ---------------------------------------------------------------------------------------
  // Calls

  /** A call of a name that is not declared throws before any argument is evaluated. */
  lemma UnknownFunctionFails(name: string, args: seq<Expr>, st: State, fuel: nat)
    requires ValidState(st) && name !in st.funcs && !Inherited(name)
    ensures EvalExpr(FunctionCall(name, args), st, fuel) == Fail(UndefinedFunction(name))
  {
  }

  /** A call, once its arguments are evaluated: the body runs with the parameters bound over
      the caller's environment; the call's result is the body's, unwrapped from a
      `ReturnValue`; afterwards the caller's environment is back, while the body's changes to
      arrays, to the declared functions and to the output remain. */
  lemma CallEffect(name: string, args: seq<Expr>, st: State, fuel: nat, vals: seq<Value>, st1: State)
    requires ValidState(st) && name in st.funcs && fuel > 0
    requires EvalList(args, st, fuel) == Done(vals, st1)
    requires forall i :: 0 <= i < |st.funcs[name].params| ==> !IsProtoName(st.funcs[name].params[i])
    ensures var f := st.funcs[name];
            var body := RunBlock(f.body, Entered(st1, f, vals), fuel - 1, Null);
            var r := EvalExpr(FunctionCall(name, args), st, fuel);
            && (r.Done? <==> body.Done?)
            && (r.Done? ==> r.value == body.value.value)
            && (r.Done? ==> r.state == State(st.env, body.state.heap, body.state.funcs, body.state.out))
  {
  }

  /** A parameter not repeated later in the list is bound to its argument, or to `undefined`
      when the call passed fewer arguments. */
  lemma {:induction false} BindParameter(env: map<string, Value>, params: seq<string>, vals: seq<Value>, i: nat)
    requires i < |params|
    requires forall j :: i < j < |params| ==> params[j] != params[i]
    ensures params[i] in Bind(env, params, vals)
    ensures Bind(env, params, vals)[params[i]] == if i < |vals| then vals[i] else Undefined
    decreases |params|
  {
    var n := |params| - 1;
    var init := params[..n];
    var inner := Bind(env, init, vals);
    assert Bind(env, params, vals) == inner[params[n] := Arg(vals, n)];
    if i < n {
      assert init[i] == params[i];
      forall j | i < j < |init| ensures init[j] != init[i] {
        assert init[j] == params[j];
      }
      BindParameter(env, init, vals, i);
      assert params[n] != params[i];
    }
  }
}
