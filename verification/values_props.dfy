/** Properties of the value-level steps: the arithmetic operators obey the laws of numbers
    and `+` on strings those of concatenation, string order is a strict total order, the
    non-strict comparisons are the strict ones or equality, `push` and `pop` undo each other,
    and `join` reads the array front to back. */
module ValuesProperties {
  import opened Wrappers
  import opened Values

  // ---------------------------------------------------------------------------------------
  // Arithmetic

  /** Subtracting what `+` added gives the left operand back, and `+` on numbers commutes. */
  lemma AddThenSubtract(a: real, b: real)
    ensures ApplyBinary("-", ApplyBinary("+", Num(a), Num(b)).v, Num(b)) == Gives(Num(a))
    ensures ApplyBinary("+", Num(a), Num(b)) == ApplyBinary("+", Num(b), Num(a))
  {
  }

  /** Dividing by a non-zero factor undoes multiplying by it. */
  lemma MultiplyThenDivide(a: real, b: real)
    requires b != 0.0
    ensures ApplyBinary("/", ApplyBinary("*", Num(a), Num(b)).v, Num(b)) == Gives(Num(a))
  {
    var p := a * b;
    assert ApplyBinary("*", Num(a), Num(b)) == Gives(Num(p));
    assert p / b == a;
    assert ApplyBinary("/", Num(p), Num(b)) == Gives(Num(p / b));
  }

  /** `+` on strings is concatenation: associative, with the empty string as identity on
      both sides. */
  lemma ConcatLaws(a: string, b: string, c: string)
    ensures ApplyBinary("+", ApplyBinary("+", Str(a), Str(b)).v, Str(c))
         == ApplyBinary("+", Str(a), ApplyBinary("+", Str(b), Str(c)).v)
    ensures ApplyBinary("+", Str(""), Str(a)) == Gives(Str(a)) == ApplyBinary("+", Str(a), Str(""))
  {
    assert (a + b) + c == a + (b + c);
    assert "" + a == a == a + "";
  }

  /** `^` with a natural exponent is repeated multiplication: the zeroth power is one, and
      one more in the exponent is one more factor of the base. */
  lemma PowerSteps(a: real, k: nat)
    ensures ApplyBinary("^", Num(a), Num(0.0)) == Gives(Num(1.0))
    ensures ApplyBinary("^", Num(a), Num((k + 1) as real)).Gives?
    ensures ApplyBinary("^", Num(a), Num(k as real)).Gives?
    ensures ApplyBinary("^", Num(a), Num((k + 1) as real)).v.n
         == a * ApplyBinary("^", Num(a), Num(k as real)).v.n
  {
    assert ((k + 1) as real).Floor == k + 1;
    assert (k as real).Floor == k;
  }

  // ---------------------------------------------------------------------------------------
  // String order

  lemma {:induction false} StrLessIrreflexive(a: string)
    ensures !StrLess(a, a)
    decreases |a|
  {
    if a != [] {
      StrLessIrreflexive(a[1..]);
    }
  }

  lemma {:induction false} StrLessTransitive(a: string, b: string, c: string)
    requires StrLess(a, b) && StrLess(b, c)
    ensures StrLess(a, c)
    decreases |a|
  {
    if a != [] && b != [] && c != [] && a[0] == b[0] && b[0] == c[0] {
      StrLessTransitive(a[1..], b[1..], c[1..]);
    }
  }

  lemma {:induction false} StrLessTotal(a: string, b: string)
    ensures a == b || StrLess(a, b) || StrLess(b, a)
    decreases |a|
  {
    if a != [] && b != [] && a[0] == b[0] {
      StrLessTotal(a[1..], b[1..]);
      if a[1..] == b[1..] {
        assert a == [a[0]] + a[1..] && b == [b[0]] + b[1..];
      }
    }
  }

  /** Of two strings exactly one is smaller, unless they are equal. */
  lemma StrLessTrichotomy(a: string, b: string)
    ensures StrLess(a, b) <==> a != b && !StrLess(b, a)
  {
    StrLessTotal(a, b);
    if StrLess(a, b) && StrLess(b, a) {
      StrLessTransitive(a, b, a);
      StrLessIrreflexive(a);
    }
    if a == b {
      StrLessIrreflexive(a);
    }
  }

  /** `<=` holds exactly when `<` or `==` does, and `>=` when `>` or `==` does, for two numbers
      and for two strings alike. */
  lemma NonStrictOrder(left: Value, right: Value)
    requires (left.Num? && right.Num?) || (left.Str? && right.Str?)
    ensures Compare("<=", left, right) == Gives(Bool(Compare("<", left, right).v.b || Compare("==", left, right).v.b))
    ensures Compare(">=", left, right) == Gives(Bool(Compare(">", left, right).v.b || Compare("==", left, right).v.b))
  {
    if left.Str? {
      StrLessTrichotomy(left.s, right.s);
    }
  }

  /** `>` is `<` with the operands swapped. */
  lemma GreaterIsSwappedLess(left: Value, right: Value)
    requires (left.Num? && right.Num?) || (left.Str? && right.Str?)
    ensures Compare(">", left, right) == Compare("<", right, left)
  {
  }

  // ---------------------------------------------------------------------------------------
  // Push and pop

  /** Popping right after pushing one value gives that value back and the array as it was. */
  lemma PushThenPop(a: seq<Value>, v: Value)
    ensures ArrayMethod(ArrayMethod(a, "push", [v]).contents, "pop", []) == Applied(Gives(v), a)
  {
    var pushed := ArrayMethod(a, "push", [v]).contents;
    assert pushed == a + [v] by {
      assert pushed == pushed[..|a|] + pushed[|a|..];
    }
    assert pushed[..|pushed| - 1] == a;
  }

  /** Pushing back what `pop` took restores the array. */
  lemma PopThenPush(a: seq<Value>)
    requires a != []
    ensures var popped := ArrayMethod(a, "pop", []);
            ArrayMethod(popped.contents, "push", [popped.answer.v]).contents == a
  {
    var popped := ArrayMethod(a, "pop", []);
    var pushed := ArrayMethod(popped.contents, "push", [popped.answer.v]).contents;
    assert pushed == pushed[..|popped.contents|] + pushed[|popped.contents|..];
  }

  // ---------------------------------------------------------------------------------------
  // Join

  /** `join` has a text exactly when every element has one. */
  lemma {:induction false} JoinDefined(a: seq<Value>, sep: string)
    ensures Join(a, sep).Some? <==> forall i :: 0 <= i < |a| ==> ElementText(a[i]).Some?
    decreases |a|
  {
    if a != [] {
      var init := a[..|a| - 1];
      JoinDefined(init, sep);
      assert forall i :: 0 <= i < |init| ==> init[i] == a[i];
    }
  }

  /** `join` read from the front: the first element's text, then, when more follow, the
      separator and the join of the rest. */
  lemma {:induction false} JoinCons(v: Value, a: seq<Value>, sep: string)
    requires ElementText(v).Some? && Join(a, sep).Some?
    ensures Join([v] + a, sep) == Some(if a == [] then ElementText(v).value else ElementText(v).value + sep + Join(a, sep).value)
    decreases |a|
  {
    if a == [] {
      assert [v] + a == [v];
      JoinSingle(v, sep);
    } else {
      var init := a[..|a| - 1];
      if init != [] {
        JoinCons(v, init, sep);
      }
      JoinConsStep(v, a, sep);
    }
  }

  /** The `join` method, when the separator is absent, falsy or a string: with no separator
      or a falsy one the elements are joined with ",", otherwise with the string; the answer
      is a text exactly when every element has one, and the array is unchanged. */
  lemma JoinMethod(a: seq<Value>, args: seq<Value>)
    requires |args| == 0 || !Truthy(args[0]) || args[0].Str?
    ensures var sep := if |args| == 0 || !Truthy(args[0]) then "," else args[0].s;
            var r := ArrayMethod(a, "join", args);
            && r.contents == a
            && ((forall i :: 0 <= i < |a| ==> ElementText(a[i]).Some?) <==>
                (Join(a, sep).Some? && r.answer == Gives(Str(Join(a, sep).value))))
            && ((exists i :: 0 <= i < |a| && ElementText(a[i]).None?) <==> r.answer == Unmodelled)
  {
    var sep := if |args| == 0 || !Truthy(args[0]) then "," else args[0].s;
    JoinDefined(a, sep);
  }

  /** The step of `JoinCons`: given its statement for all but the last element, it holds for
      the whole array. */
  lemma JoinConsStep(v: Value, a: seq<Value>, sep: string)
    requires ElementText(v).Some? && Join(a, sep).Some? && a != []
    requires var init := a[..|a| - 1];
             init != [] ==> Join([v] + init, sep) == Some(ElementText(v).value + sep + Join(init, sep).value)
    ensures Join([v] + a, sep) == Some(ElementText(v).value + sep + Join(a, sep).value)
  {
    var va := [v] + a;
    var init := a[..|a| - 1];
    assert va[..|va| - 1] == [v] + init;
    assert va[|va| - 1] == a[|a| - 1];
    JoinLast(a, sep);
    JoinLast(va, sep);
    if init == [] {
      JoinPair(v, a, sep);
    } else {
      var t := ElementText(v).value;
      var l := ElementText(a[|a| - 1]).value;
      var j := Join(init, sep).value;
      assert (t + sep + j) + sep + l == t + sep + (j + sep + l);
    }
  }

  /** Two elements: the first's text, the separator, the second's text. */
  lemma JoinPair(v: Value, a: seq<Value>, sep: string)
    requires |a| == 1 && ElementText(v).Some? && ElementText(a[0]).Some?
    ensures Join([v] + a, sep) == Some(ElementText(v).value + sep + ElementText(a[0]).value)
    ensures Join(a, sep) == ElementText(a[0])
  {
    var va := [v] + a;
    assert va[..1] == [v];
    assert a[..0] == [];
    JoinSingle(v, sep);
  }

  /** One unfolding of `Join` on its last element, a proof step for `JoinConsStep` with no
      statement of its own. */
  lemma JoinLast(a: seq<Value>, sep: string)
    requires |a| >= 1
    ensures var init := Join(a[..|a| - 1], sep);
            var last := ElementText(a[|a| - 1]);
            Join(a, sep) == if init.None? || last.None? then None
                            else if |a| == 1 then last
                            else Some(init.value + sep + last.value)
  {
  }

  /** Joining one element gives its text, with no separator. */
  lemma JoinSingle(v: Value, sep: string)
    ensures Join([v], sep) == ElementText(v)
  {
    assert [v][..0] == [];
  }
}
