/** The tree-walking interpreter of Interpreter.js, as functions from a state to an outcome.
    The interpreter object's fields become an explicit state record threaded through every
    evaluation; a `ReturnValue` becomes the `Ret` signal; a thrown error, an implicit coercion
    the model leaves out, and running out of fuel are outcomes of their own.

    Fuel stands for the host's patience: it is spent by every function call and every further
    iteration of a while loop, the only two places where evaluation can go on forever. */
module Interpreter {
  import opened Ast
  import opened Values

  /** An entry of the interpreter's function table: the declared parameters and body. */
  datatype Func = Func(params: seq<string>, body: seq<Stmt>)

  /** One line of output: the value `print` logged, with the contents of every array at that
      moment. `console.log` writes an array's contents as they are when it is called, so a later
      change to the array does not change what was printed. */
  datatype Printed = Printed(value: Value, arrays: seq<seq<Value>>)

  /** The interpreter object: `environment`, the contents of every array it has made (an
      array value is an index into `heap`), `functions`, and the lines `print` has logged. */
  datatype State = State(env: map<string, Value>, heap: seq<seq<Value>>, funcs: map<string, Func>, out: seq<Printed>)

  /** A fresh interpreter: no variables, arrays, functions or output. */
  const Initial: State := State(map[], [], map[], [])

  /** A statement's result: a plain value, or a value wrapped in a `ReturnValue`. */
  datatype Signal = Plain(value: Value) | Ret(value: Value)

  /** How an evaluation ends: with a result and the state after it, with a thrown error, with
      a step the model does not cover, or for want of fuel. */
  datatype Outcome<+T> = Done(value: T, state: State) | Fail(error: RuntimeError) | Unsupported | OutOfFuel

  // ---------------------------------------------------------------------------------------
  // States

  predicate ValidValue(v: Value, size: nat) {
    v.Arr? ==> v.ref < size
  }

  predicate ValidValues(vs: seq<Value>, size: nat) {
    forall i :: 0 <= i < |vs| ==> ValidValue(vs[i], size)
  }

  /** Every array value in the state, bound to a name or held by an array, refers to an
      array of the heap. */
  predicate ValidState(st: State) {
    && (forall x :: x in st.env ==> ValidValue(st.env[x], |st.heap|))
    && (forall i :: 0 <= i < |st.heap| ==> ValidValues(st.heap[i], |st.heap|))
  }

  /** `st2` can come after `st`: it is valid, no array has disappeared, output has only been
      appended to, and every declared function is still declared. */
  predicate Follows(st: State, st2: State) {
    && ValidState(st2)
    && |st.heap| <= |st2.heap|
    && |st.out| <= |st2.out| && st2.out[..|st.out|] == st.out
    && st.funcs.Keys <= st2.funcs.Keys
  }

  /** The names an empty JavaScript object inherits from `Object.prototype`: the `in` test and
      a property read find them although nothing has bound them. */
  predicate Inherited(name: string) {
    name in {"constructor", "hasOwnProperty", "isPrototypeOf", "propertyIsEnumerable",
             "toLocaleString", "toString", "valueOf", "__proto__", "__defineGetter__",
             "__defineSetter__", "__lookupGetter__", "__lookupSetter__"}
  }

  /** The one name whose assignment on a plain object changes its prototype instead of
      creating a property. */
  predicate IsProtoName(name: string) {
    name == "__proto__"
  }

  /** The name is bound, and to an array. */
  predicate IsArrayIn(st: State, name: string) {
    name in st.env && st.env[name].Arr?
  }

  /** The outcome `o` that did not finish, at another result type. */
  function Abandon<T, U>(o: Outcome<T>): (r: Outcome<U>)
    requires !o.Done?
    ensures !r.Done?
  {
    if o.Fail? then Fail(o.error) else if o.Unsupported? then Unsupported else OutOfFuel
  }

  function Lift(a: Answer, st: State): (r: Outcome<Value>)
    ensures r.Done? ==> a.Gives? && r == Done(a.v, st)
  {
    match a
    case Gives(v) => Done(v, st)
    case Throws(e) => Fail(e)
    case Unmodelled => Unsupported
  }

  /** The argument at `i`, or `undefined` when the call passed fewer. */
  function Arg(vals: seq<Value>, i: nat): Value {
    if i < |vals| then vals[i] else Undefined
  }

  /** The `forEach` that binds each parameter to its argument, in order. */
  function Bind(env: map<string, Value>, params: seq<string>, vals: seq<Value>): (r: map<string, Value>)
    ensures forall x :: x in r <==> x in env || x in params
    ensures forall x :: x in env && x !in params ==> r[x] == env[x]
    decreases |params|
  {
    if params == [] then env
    else Bind(env, params[..|params| - 1], vals)[params[|params| - 1] := Arg(vals, |params| - 1)]
  }

  /** Binding valid arguments keeps every bound value valid. */
  lemma {:induction false} BindValid(env: map<string, Value>, params: seq<string>, vals: seq<Value>, size: nat)
    requires forall x :: x in env ==> ValidValue(env[x], size)
    requires ValidValues(vals, size)
    ensures forall x :: x in Bind(env, params, vals) ==> ValidValue(Bind(env, params, vals)[x], size)
    decreases |params|
  {
    if params != [] {
      BindValid(env, params[..|params| - 1], vals, size);
    }
  }

  // ---------------------------------------------------------------------------------------
  // Expressions

  /** `evaluateExpression`. An expression never changes `environment`: only statements bind
      names, and a call puts back the environment it found. */
  function EvalExpr(e: Expr, st: State, fuel: nat): (r: Outcome<Value>)
    requires ValidState(st)
    ensures r.Done? ==> Follows(st, r.state) && r.state.env == st.env && ValidValue(r.value, |r.state.heap|)
    decreases fuel, e, 0
  {
    match e
    case Number(v) => Done(Num(v), st)
    case String(t) => Done(Str(t), st)
    case Variable(x) =>
      if x in st.env then Done(st.env[x], st)
      else if Inherited(x) then Unsupported
      else Fail(UndefinedVariable(x))
    case BinaryExpression(left, op, right) =>
      var a := EvalExpr(left, st, fuel);
      if !a.Done? then Abandon(a)
      else
        var b := EvalExpr(right, a.state, fuel);
        if !b.Done? then Abandon(b)
        else Lift(ApplyBinary(op, a.value, b.value), b.state)
    case ComparisonExpression(left, op, right) =>
      var a := EvalExpr(left, st, fuel);
      if !a.Done? then Abandon(a)
      else
        var b := EvalExpr(right, a.state, fuel);
        if !b.Done? then Abandon(b)
        else Lift(Compare(op, a.value, b.value), b.state)
    case ArrayLiteral(elements) =>
      var vs := EvalList(elements, st, fuel);
      if !vs.Done? then Abandon(vs)
      else Allocate(vs.value, vs.state)
    case ArrayElementAccess(name, index) =>
      if !IsArrayIn(st, name) then Fail(NotAnArray(name))
      else
        var ref := st.env[name].ref;
        var i := EvalExpr(index, st, fuel);
        if !i.Done? then Abandon(i)
        else ReadElement(i.state, ref, i.value)
    case ArrayMethodExpression(name, methodName, args) =>
      ArrayCall(name, methodName, args, st, fuel)
    case ArrayProperty(name, property) =>
      if !IsArrayIn(st, name) then Fail(NotAnArray(name))
      else if property == "length" then Done(Num(|st.heap[st.env[name].ref]| as real), st)
      else Fail(UnknownArrayProperty(property))
    case FunctionCall(name, args) =>
      if name !in st.funcs then
        if Inherited(name) then Unsupported else Fail(UndefinedFunction(name))
      else
        var f := st.funcs[name];
        var vs := EvalList(args, st, fuel);
        if !vs.Done? then Abandon(vs)
        else if fuel == 0 then OutOfFuel
        else Call(f, vs.value, vs.state, fuel - 1)
  }

  /** The arguments of a call, evaluated left to right, each in the state the previous one
      left. */
  function EvalList(es: seq<Expr>, st: State, fuel: nat): (r: Outcome<seq<Value>>)
    requires ValidState(st)
    ensures r.Done? ==> Follows(st, r.state) && r.state.env == st.env
    ensures r.Done? ==> |r.value| == |es| && ValidValues(r.value, |r.state.heap|)
    decreases fuel, es, 0
  {
    if es == [] then Done([], st)
    else
      var h := EvalExpr(es[0], st, fuel);
      if !h.Done? then Abandon(h)
      else
        var t := EvalList(es[1..], h.state, fuel);
        if !t.Done? then Abandon(t)
        else Done([h.value] + t.value, t.state)
  }

  /** A new array holding `vs`, at the end of the heap. */
  function Allocate(vs: seq<Value>, st: State): (r: Outcome<Value>)
    requires ValidState(st) && ValidValues(vs, |st.heap|)
    ensures r.Done? && r.value == Arr(|st.heap|) && r.state.heap == st.heap + [vs]
    ensures Follows(st, r.state) && r.state.env == st.env && ValidValue(r.value, |r.state.heap|)
  {
    var st2 := st.(heap := st.heap + [vs]);
    assert forall i :: 0 <= i < |st2.heap| ==> st2.heap[i] == if i < |st.heap| then st.heap[i] else vs;
    Done(Arr(|st.heap|), st2)
  }

  /** `array[index]` after the bounds test of `evaluateArrayElementAccess`. */
  function ReadElement(st: State, ref: nat, index: Value): (r: Outcome<Value>)
    requires ValidState(st) && ref < |st.heap|
    ensures r.Done? ==> r.state == st && ValidValue(r.value, |st.heap|)
    ensures r.Done? <==> CheckIndex(index, |st.heap[ref]|).InRange?
    ensures r.Done? ==> r.value == st.heap[ref][CheckIndex(index, |st.heap[ref]|).k]
    ensures CheckIndex(index, |st.heap[ref]|).OutOfRange? ==> r == Fail(IndexOutOfBounds(index.n))
    ensures CheckIndex(index, |st.heap[ref]|).NotAnIndex? ==> r == Unsupported
  {
    match CheckIndex(index, |st.heap[ref]|)
    case InRange(k) => Done(st.heap[ref][k], st)
    case OutOfRange(x) => Fail(IndexOutOfBounds(x))
    case NotAnIndex => Unsupported
  }

  /** `evaluateArrayMethodCall` and `evaluateArrayMethodExpression`, which are the same: the
      name must hold an array before any argument is evaluated. */
  function ArrayCall(name: string, methodName: string, args: seq<Expr>, st: State, fuel: nat): (r: Outcome<Value>)
    requires ValidState(st)
    ensures r.Done? ==> Follows(st, r.state) && r.state.env == st.env && ValidValue(r.value, |r.state.heap|)
    ensures !IsArrayIn(st, name) ==> r == Fail(NotAnArray(name))
    decreases fuel, args, 1
  {
    if !IsArrayIn(st, name) then Fail(NotAnArray(name))
    else
      var ref := st.env[name].ref;
      var vs := EvalList(args, st, fuel);
      if !vs.Done? then Abandon(vs)
      else Mutate(vs.state, ref, methodName, vs.value)
  }

  /** The method applied to the array at `ref`, whose new contents replace the old. */
  function Mutate(st: State, ref: nat, methodName: string, args: seq<Value>): (r: Outcome<Value>)
    requires ValidState(st) && ref < |st.heap| && ValidValues(args, |st.heap|)
    ensures r.Done? ==> Follows(st, r.state) && r.state.env == st.env && ValidValue(r.value, |r.state.heap|)
    ensures r.Done? ==> |r.state.heap| == |st.heap| && r.state.out == st.out && r.state.funcs == st.funcs
    ensures r.Done? ==> r.state.heap[ref] == ArrayMethod(st.heap[ref], methodName, args).contents
    ensures r.Done? ==> forall j :: 0 <= j < |st.heap| && j != ref ==> r.state.heap[j] == st.heap[j]
  {
    var applied := ArrayMethod(st.heap[ref], methodName, args);
    MethodKeepsValid(st.heap[ref], methodName, args, |st.heap|);
    var st2 := st.(heap := st.heap[ref := applied.contents]);
    Lift(applied.answer, st2)
  }

  lemma MethodKeepsValid(a: seq<Value>, methodName: string, args: seq<Value>, size: nat)
    requires ValidValues(a, size) && ValidValues(args, size)
    ensures ValidValues(ArrayMethod(a, methodName, args).contents, size)
    ensures ArrayMethod(a, methodName, args).answer.Gives? ==> ValidValue(ArrayMethod(a, methodName, args).answer.v, size)
  {
    var r := ArrayMethod(a, methodName, args);
    if methodName == "push" {
      forall i | 0 <= i < |r.contents| ensures ValidValue(r.contents[i], size) {
        if i < |a| { assert r.contents[i] == r.contents[..|a|][i]; }
        else { assert r.contents[i] == r.contents[|a|..][i - |a|]; }
      }
    } else if methodName == "pop" && a != [] {
      forall i | 0 <= i < |r.contents| ensures ValidValue(r.contents[i], size) {
        assert r.contents[i] == (r.contents + [r.answer.v])[i];
      }
      assert r.answer.v == (r.contents + [r.answer.v])[|r.contents|];
    }
  }

  /** `evaluateFunctionCall` once the function is found, the arguments are evaluated and a
      unit of fuel is spent: bind the parameters over a copy of the environment, run the body,
      put the copy back, and unwrap a `ReturnValue`. */
  function Call(f: Func, vals: seq<Value>, st: State, fuel: nat): (r: Outcome<Value>)
    requires ValidState(st) && ValidValues(vals, |st.heap|)
    ensures r.Done? ==> Follows(st, r.state) && r.state.env == st.env && ValidValue(r.value, |r.state.heap|)
    decreases fuel, f, 0
  {
    if exists i :: 0 <= i < |f.params| && IsProtoName(f.params[i]) then Unsupported
    else
      var body := RunBlock(f.body, Entered(st, f, vals), fuel, Null);
      if !body.Done? then Abandon(body)
      else Done(body.value.value, body.state.(env := st.env))
  }

  /** The state a body starts in: the parameters bound over the caller's environment. */
  function Entered(st: State, f: Func, vals: seq<Value>): (r: State)
    requires ValidState(st) && ValidValues(vals, |st.heap|)
    ensures ValidState(r) && r.heap == st.heap && r.funcs == st.funcs && r.out == st.out
  {
    BindValid(st.env, f.params, vals, |st.heap|);
    st.(env := Bind(st.env, f.params, vals))
  }

  // ---------------------------------------------------------------------------------------
  // Statements

  /** `evaluateStatement`. */
  function ExecStmt(s: Stmt, st: State, fuel: nat): (r: Outcome<Signal>)
    requires ValidState(st)
    ensures r.Done? ==> Follows(st, r.state) && ValidValue(r.value.value, |r.state.heap|)
    decreases fuel, s, 1
  {
    match s
    case Assignment(x, e) =>
      var v := EvalExpr(e, st, fuel);
      if !v.Done? then Abandon(v)
      else if IsProtoName(x) then Unsupported
      else Done(Plain(v.value), v.state.(env := v.state.env[x := v.value]))
    case Print(e) =>
      var v := EvalExpr(e, st, fuel);
      if !v.Done? then Abandon(v)
      else Done(Plain(v.value), v.state.(out := v.state.out + [Printed(v.value, v.state.heap)]))
    case ExpressionStatement(e) =>
      var v := EvalExpr(e, st, fuel);
      if !v.Done? then Abandon(v) else Done(Plain(v.value), v.state)
    case IfStatement(c, ifBlock, elseBlock) =>
      var v := EvalExpr(c, st, fuel);
      if !v.Done? then Abandon(v)
      else if Truthy(v.value) then RunBlock(ifBlock, v.state, fuel, Undefined)
      else if elseBlock.ElseBlock? then RunBlock(elseBlock.stmts, v.state, fuel, Undefined)
      else Done(Plain(Null), v.state)
    case WhileStatement(_, _) =>
      Loop(s, st, fuel, Null)
    case ArrayElementAssignment(name, index, e) =>
      if !IsArrayIn(st, name) then Fail(NotAnArray(name))
      else
        var ref := st.env[name].ref;
        var i := EvalExpr(index, st, fuel);
        if !i.Done? then Abandon(i)
        else
          var v := EvalExpr(e, i.state, fuel);
          if !v.Done? then Abandon(v)
          else WriteElement(v.state, ref, i.value, v.value)
    case ArrayMethodCall(name, methodName, args) =>
      var v := ArrayCall(name, methodName, args, st, fuel);
      if !v.Done? then Abandon(v) else Done(Plain(v.value), v.state)
    case FunctionDeclaration(name, params, body) =>
      if IsProtoName(name) then Unsupported
      else Done(Plain(Null), st.(funcs := st.funcs[name := Func(params, body)]))
    case ReturnStatement(e) =>
      var v := EvalExpr(e, st, fuel);
      if !v.Done? then Abandon(v) else Done(Ret(v.value), v.state)
  }

  /** `array[index] = value` after the bounds test of `evaluateArrayElementAssignment`, which
      reads the array's length only once both the index and the value are evaluated. */
  function WriteElement(st: State, ref: nat, index: Value, v: Value): (r: Outcome<Signal>)
    requires ValidState(st) && ref < |st.heap| && ValidValue(v, |st.heap|)
    ensures r.Done? ==> Follows(st, r.state) && r.state.env == st.env && r.value == Plain(v)
    ensures r.Done? <==> CheckIndex(index, |st.heap[ref]|).InRange?
    ensures r.Done? ==> r.state.heap[ref] == st.heap[ref][CheckIndex(index, |st.heap[ref]|).k := v]
    ensures CheckIndex(index, |st.heap[ref]|).OutOfRange? ==> r == Fail(IndexOutOfBounds(index.n))
    ensures CheckIndex(index, |st.heap[ref]|).NotAnIndex? ==> r == Unsupported
  {
    match CheckIndex(index, |st.heap[ref]|)
    case InRange(k) =>
      var st2 := st.(heap := st.heap[ref := st.heap[ref][k := v]]);
      assert forall i :: 0 <= i < |st2.heap| ==> st2.heap[i] == if i == ref then st.heap[ref][k := v] else st.heap[i];
      Done(Plain(v), st2)
    case OutOfRange(x) => Fail(IndexOutOfBounds(x))
    case NotAnIndex => Unsupported
  }

  /** The statements of a block in order, stopping at the first `ReturnValue`, which is the
      block's result; otherwise the last statement's result, or `init` for an empty block. */
  function RunBlock(ss: seq<Stmt>, st: State, fuel: nat, init: Value): (r: Outcome<Signal>)
    requires ValidState(st) && ValidValue(init, |st.heap|)
    ensures r.Done? ==> Follows(st, r.state) && ValidValue(r.value.value, |r.state.heap|)
    decreases fuel, ss, 0
  {
    if ss == [] then Done(Plain(init), st)
    else
      var h := ExecStmt(ss[0], st, fuel);
      if !h.Done? then Abandon(h)
      else if h.value.Ret? then h
      else RunBlock(ss[1..], h.state, fuel, h.value.value)
  }

  /** `evaluateWhileStatement` from a test of the condition on: `result` is the last
      statement result so far, `null` before the first iteration. */
  function Loop(s: Stmt, st: State, fuel: nat, result: Value): (r: Outcome<Signal>)
    requires s.WhileStatement? && ValidState(st) && ValidValue(result, |st.heap|)
    ensures r.Done? ==> Follows(st, r.state) && ValidValue(r.value.value, |r.state.heap|)
    decreases fuel, s, 0
  {
    var c := EvalExpr(s.condition, st, fuel);
    if !c.Done? then Abandon(c)
    else if !Truthy(c.value) then Done(Plain(result), c.state)
    else
      var b := RunBlock(s.body, c.state, fuel, result);
      if !b.Done? then Abandon(b)
      else if b.value.Ret? then b
      else if fuel == 0 then OutOfFuel
      else Loop(s, b.state, fuel - 1, b.value.value)
  }

  // ---------------------------------------------------------------------------------------
  // Programs

  /** The loop of `interpret` from a statement on: every statement runs, a `ReturnValue`
      included, and the last one's result is the program's. */
  function RunProgram(ss: seq<Stmt>, st: State, fuel: nat, last: Signal): (r: Outcome<Signal>)
    requires ValidState(st) && ValidValue(last.value, |st.heap|)
    ensures r.Done? ==> Follows(st, r.state) && ValidValue(r.value.value, |r.state.heap|)
    decreases ss
  {
    if ss == [] then Done(last, st)
    else
      var h := ExecStmt(ss[0], st, fuel);
      if !h.Done? then Abandon(h)
      else RunProgram(ss[1..], h.state, fuel, h.value)
  }

  /** `interpret` on a fresh interpreter: `undefined` for an empty program. */
  function Interpret(prog: seq<Stmt>, fuel: nat): (r: Outcome<Signal>)
    ensures r.Done? ==> ValidState(r.state)
  {
    RunProgram(prog, Initial, fuel, Plain(Undefined))
  }
}
