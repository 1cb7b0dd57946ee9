/** The values the interpreter of Interpreter.js computes with, and the parts of its evaluation
    that only look at values already computed: the operator switches, truthiness, the index
    test of element access and assignment, and the three array methods. */
module Values {
  import opened Wrappers
  import opened Numerals

  /** A JavaScript value as the interpreter can meet it. Numbers are exact reals; an array is a
      reference into the interpreter's heap, so that two names may share one array. `Null` and
      `Undefined` are distinct, as strict equality tells them apart. */
  datatype Value =
    | Num(n: real)
    | Str(s: string)
    | Bool(b: bool)
    | Null
    | Undefined
    | Arr(ref: nat)

  /** The test `if (v)` and `while (v)` apply: zero, the empty string, `false`, `null` and
      `undefined` are false; every array is true. */
  function Truthy(v: Value): (b: bool)
    ensures !b <==> v == Num(0.0) || v == Str("") || v == Bool(false) || v == Null || v == Undefined
  {
    match v
    case Num(n) => n != 0.0
    case Str(s) => s != ""
    case Bool(b) => b
    case Null => false
    case Undefined => false
    case Arr(_) => true
  }

  /** A number whose decimal spelling the model knows: an integer below 10^21 in magnitude,
      which JavaScript writes without exponent or fraction. */
  predicate Printable(r: real) {
    r == r.Floor as real && -1000000000000000000000.0 < r < 1000000000000000000000.0
  }

  function NumberText(r: real): (s: string)
    requires Printable(r)
    ensures |s| >= 1
  {
    IntToDecimal(r.Floor)
  }

  // ---------------------------------------------------------------------------------------
  // Errors

  /** The errors the interpreter throws, one constructor per `throw` it can reach. */
  datatype RuntimeError =
    | UndefinedVariable(name: string)
    | NotAnArray(name: string)
    | IndexOutOfBounds(index: real)
    | DivisionByZero
    | UnknownBinaryOperator(operator: string)
    | UnknownComparisonOperator(operator: string)
    | UnknownArrayMethod(methodName: string)
    | UnknownArrayProperty(property: string)
    | UndefinedFunction(name: string)

  predicate Spellable(e: RuntimeError) {
    e.IndexOutOfBounds? ==> Printable(e.index)
  }

  /** The message of each error, as the source's template literal spells it. */
  function Message(e: RuntimeError): (m: string)
    requires Spellable(e)
    ensures e.UndefinedVariable? ==> m == "Undefined variable: " + e.name
    ensures e.NotAnArray? ==> m == e.name + " is not an array"
    ensures e.IndexOutOfBounds? ==> m == "Array index out of bounds: " + NumberText(e.index)
    ensures e.DivisionByZero? ==> m == "Division by zero"
    ensures e.UnknownBinaryOperator? ==> m == "Unknown binary operator: " + e.operator
    ensures e.UnknownComparisonOperator? ==> m == "Unknown comparison operator: " + e.operator
    ensures e.UnknownArrayMethod? ==> m == "Unknown array method: " + e.methodName
    ensures e.UnknownArrayProperty? ==> m == "Unknown array property: " + e.property
    ensures e.UndefinedFunction? ==> m == "Undefined function: " + e.name
  {
    match e
    case UndefinedVariable(n) => "Undefined variable: " + n
    case NotAnArray(n) => n + " is not an array"
    case IndexOutOfBounds(i) => "Array index out of bounds: " + NumberText(i)
    case DivisionByZero => "Division by zero"
    case UnknownBinaryOperator(op) => "Unknown binary operator: " + op
    case UnknownComparisonOperator(op) => "Unknown comparison operator: " + op
    case UnknownArrayMethod(m) => "Unknown array method: " + m
    case UnknownArrayProperty(p) => "Unknown array property: " + p
    case UndefinedFunction(n) => "Undefined function: " + n
  }

  /** What a step on values gives: a value, a thrown error, or `Unmodelled` when JavaScript
      would go on with an implicit coercion or floating-point detail the model leaves out. */
  datatype Answer = Gives(v: Value) | Throws(error: RuntimeError) | Unmodelled

  // ---------------------------------------------------------------------------------------
  // Operators

  /** `Math.pow` for a natural exponent. */
  function Power(a: real, k: nat): real {
    if k == 0 then 1.0 else a * Power(a, k - 1)
  }

  /** The switch of `evaluateBinaryExpression`, after both operands are evaluated. Division
      tests the right operand for strict equality with zero before anything else. */
  function ApplyBinary(op: string, left: Value, right: Value): (r: Answer)
    ensures op == "/" && right == Num(0.0) ==> r == Throws(DivisionByZero)
    ensures op != "+" && op != "-" && op != "*" && op != "/" && op != "^" ==>
              r == Throws(UnknownBinaryOperator(op))
    ensures r.Throws? ==> r.error == DivisionByZero || r.error == UnknownBinaryOperator(op)
    ensures r.Gives? ==> r.v.Num? || r.v.Str?
    ensures (op == "+" || op == "-" || op == "*") && left.Num? && right.Num? ==> r.Gives? && r.v.Num?
    ensures op == "/" && left.Num? && right.Num? && right.n != 0.0 ==> r.Gives? && r.v.Num?
    ensures op == "+" && left.Str? && right.Str? ==> r.Gives? && r.v.Str?
    ensures r.Unmodelled? ==> !(left.Num? && right.Num? && op != "^") && !(op == "+" && left.Str? && right.Str?)
  {
    if op == "+" then
      if left.Num? && right.Num? then Gives(Num(left.n + right.n))
      else if left.Str? && right.Str? then Gives(Str(left.s + right.s))
      else Unmodelled
    else if op == "-" then
      if left.Num? && right.Num? then Gives(Num(left.n - right.n)) else Unmodelled
    else if op == "*" then
      if left.Num? && right.Num? then Gives(Num(left.n * right.n)) else Unmodelled
    else if op == "/" then
      if right == Num(0.0) then Throws(DivisionByZero)
      else if left.Num? && right.Num? then Gives(Num(left.n / right.n))
      else Unmodelled
    else if op == "^" then
      if left.Num? && right.Num? && right.n >= 0.0 && right.n == right.n.Floor as real then
        Gives(Num(Power(left.n, right.n.Floor)))
      else Unmodelled
    else
      Throws(UnknownBinaryOperator(op))
  }

  /** JavaScript's `<` on two strings: the first differing character decides, and a proper
      prefix is smaller. */
  predicate StrLess(a: string, b: string) {
    if a == [] then b != []
    else if b == [] then false
    else if a[0] != b[0] then a[0] < b[0]
    else StrLess(a[1..], b[1..])
  }

  /** The four order comparisons of two numbers or of two strings; `None` for other pairs,
      which JavaScript would coerce. */
  function Order(op: string, left: Value, right: Value): (r: Option<bool>)
    requires op == "<" || op == ">" || op == "<=" || op == ">="
    ensures r.Some? <==> (left.Num? && right.Num?) || (left.Str? && right.Str?)
  {
    if left.Num? && right.Num? then
      Some(if op == "<" then left.n < right.n
           else if op == ">" then left.n > right.n
           else if op == "<=" then left.n <= right.n
           else left.n >= right.n)
    else if left.Str? && right.Str? then
      Some(if op == "<" then StrLess(left.s, right.s)
           else if op == ">" then StrLess(right.s, left.s)
           else if op == "<=" then !StrLess(right.s, left.s)
           else !StrLess(left.s, right.s))
    else None
  }

  /** The switch of `evaluateComparisonExpression`: `==` and `!=` are strict (in)equality,
      which on these values is equality of the values themselves. */
  function Compare(op: string, left: Value, right: Value): (r: Answer)
    ensures op == "==" ==> r == Gives(Bool(left == right))
    ensures op == "!=" ==> r == Gives(Bool(left != right))
    ensures r.Gives? ==> r.v.Bool?
    ensures r.Throws? <==> op != "==" && op != "!=" && op != "<" && op != ">" && op != "<=" && op != ">="
    ensures r.Throws? ==> r.error == UnknownComparisonOperator(op)
  {
    if op == "==" then Gives(Bool(left == right))
    else if op == "!=" then Gives(Bool(left != right))
    else if op == "<" || op == ">" || op == "<=" || op == ">=" then
      var o := Order(op, left, right);
      if o.Some? then Gives(Bool(o.value)) else Unmodelled
    else Throws(UnknownComparisonOperator(op))
  }

  // ---------------------------------------------------------------------------------------
  // Arrays

  /** The test `index < 0 || index >= array.length` and what follows it. */
  datatype IndexCheck = InRange(k: nat) | OutOfRange(index: real) | NotAnIndex

  /** An index that passes the bounds test but is not a whole number names a property rather
      than an element, and any value but a number is coerced: both are `NotAnIndex`. */
  function CheckIndex(index: Value, length: nat): (r: IndexCheck)
    ensures r.InRange? <==> index.Num? && 0.0 <= index.n < length as real && index.n == index.n.Floor as real
    ensures r.InRange? ==> r.k < length && r.k as real == index.n
    ensures r.OutOfRange? <==> index.Num? && (index.n < 0.0 || index.n >= length as real)
    ensures r.OutOfRange? ==> r.index == index.n
  {
    if !index.Num? then NotAnIndex
    else if index.n < 0.0 || index.n >= length as real then OutOfRange(index.n)
    else if index.n == index.n.Floor as real then InRange(index.n.Floor)
    else NotAnIndex
  }

  /** A method call on an array: its answer, and the array's contents afterwards. */
  datatype Applied = Applied(answer: Answer, contents: seq<Value>)

  /** The separator of `join`: `args[0] || ","`, when that is a string. */
  function Separator(args: seq<Value>): (r: Option<string>)
    ensures (|args| == 0 || !Truthy(args[0])) ==> r == Some(",")
    ensures |args| > 0 && args[0].Str? && args[0].s != "" ==> r == Some(args[0].s)
  {
    if |args| == 0 || !Truthy(args[0]) then Some(",")
    else if args[0].Str? then Some(args[0].s)
    else None
  }

  /** How `join` writes one element: `null` and `undefined` as nothing, strings as they are;
      `None` for values the model does not spell (arrays, fractions, large numbers). */
  function ElementText(v: Value): (r: Option<string>)
    ensures v.Str? ==> r == Some(v.s)
    ensures v.Null? || v.Undefined? ==> r == Some("")
    ensures v.Bool? ==> r == Some(if v.b then "true" else "false")
    ensures v.Arr? ==> r.None?
    ensures v.Num? ==> (r.Some? <==> Printable(v.n))
    ensures v.Num? && r.Some? && v.n >= 0.0 ==>
              r.value == NatToDecimal(v.n.Floor) && DecimalValue(NatToDecimal(v.n.Floor)) as real == v.n
  {
    match v
    case Str(s) => Some(s)
    case Null => Some("")
    case Undefined => Some("")
    case Bool(b) => Some(if b then "true" else "false")
    case Num(n) =>
      if !Printable(n) then None
      else if n >= 0.0 then DecimalRoundTrip(n.Floor); Some(NatToDecimal(n.Floor))
      else Some(NumberText(n))
    case Arr(_) => None
  }

  /** `join`: the elements' texts with the separator between each two. */
  function Join(a: seq<Value>, sep: string): (r: Option<string>)
    ensures a == [] ==> r == Some("")
    ensures r.Some? && a != [] ==> |r.value| >= (|a| - 1) * |sep|
    decreases |a|
  {
    if a == [] then Some("")
    else
      var init := Join(a[..|a| - 1], sep);
      var last := ElementText(a[|a| - 1]);
      if init.None? || last.None? then None
      else if |a| == 1 then last
      else Some(init.value + sep + last.value)
  }

  /** The switch shared by `evaluateArrayMethodCall` and `evaluateArrayMethodExpression`, on
      the array's contents and the already evaluated arguments. */
  function ArrayMethod(a: seq<Value>, methodName: string, args: seq<Value>): (r: Applied)
    ensures methodName == "push" ==>
              |r.contents| == |a| + |args| && r.contents[..|a|] == a && r.contents[|a|..] == args && r.answer == Gives(Num(|r.contents| as real))
    ensures methodName == "pop" && a == [] ==> r == Applied(Gives(Undefined), a)
    ensures methodName == "pop" && a != [] ==> r.answer.Gives? && r.contents + [r.answer.v] == a
    ensures methodName != "pop" && methodName != "push" ==> r.contents == a
    ensures methodName == "join" ==> r.answer.Gives? ==> r.answer.v.Str?
    ensures methodName == "join" && Separator(args).Some? && Join(a, Separator(args).value).Some? ==>
              r.answer == Gives(Str(Join(a, Separator(args).value).value))
    ensures methodName == "join" && (Separator(args).None? || Join(a, Separator(args).value).None?) ==>
              r.answer == Unmodelled
    ensures methodName != "pop" && methodName != "push" && methodName != "join" ==>
              r.answer == Throws(UnknownArrayMethod(methodName))
  {
    if methodName == "push" then
      Applied(Gives(Num((|a| + |args|) as real)), a + args)
    else if methodName == "pop" then
      if a == [] then Applied(Gives(Undefined), a) else Applied(Gives(a[|a| - 1]), a[..|a| - 1])
    else if methodName == "join" then
      var sep := Separator(args);
      var text := if sep.Some? then Join(a, sep.value) else None;
      Applied(if text.Some? then Gives(Str(text.value)) else Unmodelled, a)
    else
      Applied(Throws(UnknownArrayMethod(methodName)), a)
  }
}
