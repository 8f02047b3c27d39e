/**
  The formula evaluator: a shunting-yard pass over the tokens of a formula with a stack of
  values and a stack of operators. Cell references read the stored value of the referenced
  cell; nothing is re-evaluated.
 */
module Evaluation {
  import opened Wrappers
  import opened GlobalDefinitions
  import opened Numbers
  import opened Cells
  import opened Memory

  // ---------------------------------------------------------------------------
  // Values and the two stacks
  // ---------------------------------------------------------------------------

  /**
    A value on the value stack. Popping an empty stack yields `undefined`, and arithmetic
    on `undefined` yields `NaN`; both behave alike from then on, so one `NaN` stands for both.
   */
  datatype Val = Num(x: real) | NaN

  datatype Stacks = Stacks(values: seq<Val>, ops: seq<string>)

  /** `values.pop()`: the top value and the rest, or `NaN` and the unchanged empty stack. */
  function Pop(values: seq<Val>): (Val, seq<Val>)
  {
    if values == [] then (NaN, values) else (values[|values| - 1], values[..|values| - 1])
  }

  /** `x || 0` on the last value: `NaN`, `undefined` and 0 all give 0. */
  function Truthy(v: Val): real
  {
    if v.Num? then v.x else 0.0
  }

  function Precedence(op: string): (p: nat)
    ensures p <= 2
    ensures p == 1 <==> op == "+" || op == "-"
    ensures p == 2 <==> op == "*" || op == "/"
  {
    if op == "+" || op == "-" then 1
    else if op == "*" || op == "/" then 2
    else 0
  }

  /** One operator on two values; `NaN` is contagious, division by exactly 0 is an error. */
  function Arith(op: string, v1: Val, v2: Val): Result<Val>
  {
    if op == "+" then Success(if v1.Num? && v2.Num? then Num(v1.x + v2.x) else NaN)
    else if op == "-" then Success(if v1.Num? && v2.Num? then Num(v1.x - v2.x) else NaN)
    else if op == "*" then Success(if v1.Num? && v2.Num? then Num(v1.x * v2.x) else NaN)
    else if op == "/" then
      if v2 == Num(0.0) then Failure(DivideByZero)
      else Success(if v1.Num? && v2.Num? then Num(v1.x / v2.x) else NaN)
    else Failure(InvalidOperator)
  }

  /** `applyOp`: pop the right operand, then the left one, push the outcome. */
  function ApplyOpTo(op: string, values: seq<Val>): (r: Result<seq<Val>>)
  {
    var (v2, rest) := Pop(values);
    var (v1, init) := Pop(rest);
    match Arith(op, v1, v2)
    case Failure(e) => Failure(e)
    case Success(v) => Success(init + [v])
  }

  /** Which operators the reduction loops keep applying. */
  datatype Until = ToParen | ToBelow(p: nat) | ToEmpty

  predicate Continues(u: Until, top: string)
  {
    match u
    case ToParen => top != "("
    case ToBelow(p) => Precedence(top) >= p
    case ToEmpty => true
  }

  /** Apply operators from the top of the stack while `u` allows; stop at the first error. */
  function Reduce(st: Stacks, u: Until): (r: Result<Stacks>)
    ensures r.Success? ==> |r.value.ops| <= |st.ops|
    ensures r.Success? && r.value.ops != [] ==> !Continues(u, r.value.ops[|r.value.ops| - 1])
    ensures r.Failure? ==> r.error == DivideByZero || r.error == InvalidOperator
    decreases |st.ops|
  {
    if st.ops == [] || !Continues(u, st.ops[|st.ops| - 1]) then Success(st)
    else
      match ApplyOpTo(st.ops[|st.ops| - 1], st.values)
      case Failure(e) => Failure(e)
      case Success(vs) => Reduce(Stacks(vs, st.ops[..|st.ops| - 1]), u)
  }

  /** `getCellValue`: the stored value with "", or 0 with the reason the reference fails. */
  function CellValue(cell: CellState): (real, string)
  {
    if cell.error != "" && cell.error != EmptyFormula then (0.0, cell.error)
    else if |cell.formula| == 0 then (0.0, InvalidCell)
    else (cell.value, "")
  }

  /** Every token that is a cell reference names a cell of the grid. */
  predicate ReferencesInGrid(s: Sheet, tokens: seq<string>)
  {
    forall t :: t in tokens && IsValidCellLabel(t) ==> HasLabel(s, t)
  }

  /** One pass of the token loop. */
  function Step(token: string, st: Stacks, s: Sheet): Result<Stacks>
    requires WellFormed(s) && (IsValidCellLabel(token) ==> HasLabel(s, token))
  {
    if IsNumber(token) then Success(Stacks(st.values + [Num(NumberValue(token))], st.ops))
    else if IsValidCellLabel(token) then
      var (value, error) := CellValue(Get(s, token));
      if error != "" then Failure(error) else Success(Stacks(st.values + [Num(value)], st.ops))
    else if token == "(" then Success(Stacks(st.values, st.ops + [token]))
    else if token == ")" then
      match Reduce(st, ToParen)
      case Failure(e) => Failure(e)
      case Success(st') => Success(st'.(ops := if st'.ops == [] then [] else st'.ops[..|st'.ops| - 1]))
    else
      match Reduce(st, ToBelow(Precedence(token)))
      case Failure(e) => Failure(e)
      case Success(st') => Success(st'.(ops := st'.ops + [token]))
  }

  /** The token loop over the remaining tokens. */
  function Run(tokens: seq<string>, st: Stacks, s: Sheet): Result<Stacks>
    requires WellFormed(s) && ReferencesInGrid(s, tokens)
    decreases |tokens|
  {
    if tokens == [] then Success(st)
    else
      match Step(tokens[0], st, s)
      case Failure(e) => Failure(e)
      case Success(st') => Run(tokens[1..], st', s)
  }

  /** The remaining operators, the check for a single value, and `values.pop() || 0`. */
  function Finish(st: Stacks): Result<real>
  {
    match Reduce(st, ToEmpty)
    case Failure(e) => Failure(e)
    case Success(st') =>
      if |st'.values| > 1 then Failure(InvalidFormula)
      else Success(Truthy(if st'.values == [] then NaN else st'.values[0]))
  }

  /** What `evaluate` computes: the result, or the error message it stops with. */
  function Eval(formula: seq<string>, s: Sheet): Result<real>
    requires WellFormed(s) && ReferencesInGrid(s, formula)
  {
    match Run(formula, Stacks([], []), s)
    case Failure(e) => Failure(e)
    case Success(st) => Finish(st)
  }

  // ---------------------------------------------------------------------------
  // The evaluator object
  // ---------------------------------------------------------------------------

  class FormulaEvaluator {
    const memory: SheetMemory
    var errorMessage: string
    var result: real

    constructor(memory: SheetMemory)
      ensures this.memory == memory && errorMessage == "" && result == 0.0
    {
      this.memory := memory;
      errorMessage := "";
      result := 0.0;
    }

    /**
      Evaluates a formula against the current sheet. On success the error is "" and the
      result is the formula's value; on an error the result keeps its previous value.
     */
    method Evaluate(formula: seq<string>)
      requires memory.Valid() && ReferencesInGrid(memory.View(), formula)
      modifies this`errorMessage, this`result
      ensures Eval(formula, memory.View()).Success? ==>
        errorMessage == "" && result == Eval(formula, memory.View()).value
      ensures Eval(formula, memory.View()).Failure? ==>
        errorMessage == Eval(formula, memory.View()).error && result == old(result)
    {
      ghost var s := memory.View();
      errorMessage := "";
      assert memory.Valid() && memory.Repr() == old(memory.Repr()) && memory.View() == s;
      var values, ops, ok := RunTokens(formula);
      assert memory.Valid() && memory.Repr() == old(memory.Repr()) && memory.View() == s;
      if !ok {
        return;
      }
      values, ops, ok := ReduceOps(values, ops, ToEmpty);
      assert memory.Valid() && memory.Repr() == old(memory.Repr()) && memory.View() == s;
      if !ok {
        return;
      }
      if |values| > 1 {
        errorMessage := InvalidFormula;
        return;
      }
      result := Truthy(if |values| == 0 then NaN else values[0]);
    }

    /** The token loop of `evaluate`; `ok` is false when it stops with an error. */
    method RunTokens(formula: seq<string>) returns (values: seq<Val>, ops: seq<string>, ok: bool)
      requires memory.Valid() && ReferencesInGrid(memory.View(), formula) && errorMessage == ""
      modifies this`errorMessage
      ensures ok <==> Run(formula, Stacks([], []), memory.View()).Success?
      ensures ok ==> Run(formula, Stacks([], []), memory.View()).value == Stacks(values, ops) && errorMessage == ""
      ensures !ok ==> errorMessage == Run(formula, Stacks([], []), memory.View()).error
    {
      ghost var s := memory.View();
      values, ops := [], [];
      for i := 0 to |formula|
        invariant errorMessage == ""
        invariant memory.Valid() && memory.Repr() == old(memory.Repr()) && memory.View() == s
        invariant Run(formula, Stacks([], []), s) == Run(formula[i..], Stacks(values, ops), s)
      {
        RunUnfold(formula, i, Stacks(values, ops), s);
        values, ops, ok := ProcessToken(formula[i], values, ops);
        if !ok {
          return;
        }
      }
      assert formula[|formula|..] == [];
      ok := true;
    }

    /** The body of the token loop of `evaluate`; `ok` is false when it stops with an error. */
    method ProcessToken(token: string, values: seq<Val>, ops: seq<string>) returns (values': seq<Val>, ops': seq<string>, ok: bool)
      requires memory.Valid() && errorMessage == ""
      requires IsValidCellLabel(token) ==> LabelInGrid(memory.columns, memory.rows, token)
      modifies this`errorMessage
      ensures ok <==> Step(token, Stacks(values, ops), memory.View()).Success?
      ensures ok ==> Step(token, Stacks(values, ops), memory.View()).value == Stacks(values', ops') && errorMessage == ""
      ensures !ok ==> errorMessage == Step(token, Stacks(values, ops), memory.View()).error
    {
      values', ops', ok := values, ops, true;
      if IsNumber(token) {
        values' := values' + [Num(NumberValue(token))];
      } else if IsValidCellLabel(token) {
        var value, error := GetCellValue(token);
        if error != "" {
          errorMessage := error;
          return values', ops', false;
        }
        values' := values' + [Num(value)];
      } else if token == "(" {
        ops' := ops' + [token];
      } else if token == ")" {
        values', ops', ok := ReduceOps(values', ops', ToParen);
        if !ok {
          return;
        }
        if |ops'| > 0 {
          ops' := ops'[..|ops'| - 1];
        }
      } else {
        values', ops', ok := ReduceOps(values', ops', ToBelow(Precedence(token)));
        if !ok {
          return;
        }
        ops' := ops' + [token];
      }
    }

    /**
      The loops of `evaluate` that pop and apply operators while `u` allows; `ok` is false
      when an operator failed, with its message recorded.
     */
    method ReduceOps(values: seq<Val>, ops: seq<string>, u: Until) returns (values': seq<Val>, ops': seq<string>, ok: bool)
      requires errorMessage == ""
      modifies this`errorMessage
      ensures ok <==> Reduce(Stacks(values, ops), u).Success?
      ensures ok ==> Reduce(Stacks(values, ops), u).value == Stacks(values', ops') && errorMessage == ""
      ensures !ok ==> errorMessage == Reduce(Stacks(values, ops), u).error
    {
      values', ops' := values, ops;
      while |ops'| > 0 && Continues(u, ops'[|ops'| - 1])
        invariant errorMessage == ""
        invariant Reduce(Stacks(values, ops), u) == Reduce(Stacks(values', ops'), u)
        decreases |ops'|
      {
        var op := ops'[|ops'| - 1];
        ops' := ops'[..|ops'| - 1];
        values' := ApplyOp(op, values');
        if errorMessage != "" {
          return values', ops', false;
        }
      }
      ok := true;
    }

    /** `applyOp`: on an error it records the message; the popped stack is then abandoned. */
    method ApplyOp(op: string, values: seq<Val>) returns (rest: seq<Val>)
      modifies this`errorMessage
      ensures ApplyOpTo(op, values).Success? ==>
        rest == ApplyOpTo(op, values).value && errorMessage == old(errorMessage)
      ensures ApplyOpTo(op, values).Failure? ==> errorMessage == ApplyOpTo(op, values).error
    {
      var (val2, afterFirst) := Pop(values);
      var (val1, afterSecond) := Pop(afterFirst);
      rest := afterSecond;
      var output := Arith(op, val1, val2);
      if output.Failure? {
        errorMessage := output.error;
        return;
      }
      rest := rest + [output.value];
    }

    method GetCellValue(token: string) returns (value: real, error: string)
      requires memory.Valid() && LabelInGrid(memory.columns, memory.rows, token)
      ensures (value, error) == CellValue(Get(memory.View(), token))
    {
      var cell := memory.GetCellByLabel(token);
      var formula := cell.formula;
      var cellError := cell.error;
      if cellError != "" && cellError != EmptyFormula {
        return 0.0, cellError;
      }
      if |formula| == 0 {
        return 0.0, InvalidCell;
      }
      value := cell.value;
      error := "";
    }
  }

  /** One pass of the token loop, seen from the loop's index. */
  lemma RunUnfold(formula: seq<string>, i: nat, st: Stacks, s: Sheet)
    requires WellFormed(s) && ReferencesInGrid(s, formula) && i < |formula|
    ensures Step(formula[i], st, s).Failure? ==> Run(formula[i..], st, s) == Failure(Step(formula[i], st, s).error)
    ensures Step(formula[i], st, s).Success? ==>
      Run(formula[i..], st, s) == Run(formula[i + 1..], Step(formula[i], st, s).value, s)
  {
    assert formula[i..][0] == formula[i] && formula[i..][1..] == formula[i + 1..];
  }

  // ---------------------------------------------------------------------------
  // A reference semantics: expression trees
  // ---------------------------------------------------------------------------

  datatype Op = Plus | Minus | Times | Divide

  function OpToken(op: Op): string
  {
    match op
    case Plus => "+"
    case Minus => "-"
    case Times => "*"
    case Divide => "/"
  }

  /** An arithmetic expression over number tokens and cell references. */
  datatype Expr = Literal(token: string) | Reference(l: string) | Binary(op: Op, left: Expr, right: Expr)

  /** Literals are numbers and references name grid cells. */
  predicate ExprOk(e: Expr, s: Sheet)
  {
    match e
    case Literal(t) => IsNumber(t)
    case Reference(l) => IsValidCellLabel(l) && HasLabel(s, l)
    case Binary(_, a, b) => ExprOk(a, s) && ExprOk(b, s)
  }

  /** The tokens of an expression with every operation in parentheses. */
  function Tokens(e: Expr): seq<string>
  {
    match e
    case Literal(t) => [t]
    case Reference(l) => [l]
    case Binary(op, a, b) => ["("] + Tokens(a) + [OpToken(op)] + Tokens(b) + [")"]
  }

  function BinaryValue(op: Op, x: real, y: real): Result<real>
  {
    match op
    case Plus => Success(x + y)
    case Minus => Success(x - y)
    case Times => Success(x * y)
    case Divide => if y == 0.0 then Failure(DivideByZero) else Success(x / y)
  }

  /** The value of an expression: left operand first, then right, then the operation. */
  function Value(e: Expr, s: Sheet): Result<real>
    requires WellFormed(s) && ExprOk(e, s)
  {
    match e
    case Literal(t) => Success(NumberValue(t))
    case Reference(l) =>
      var (value, error) := CellValue(Get(s, l));
      if error != "" then Failure(error) else Success(value)
    case Binary(op, a, b) =>
      match Value(a, s)
      case Failure(err) => Failure(err)
      case Success(x) =>
        match Value(b, s)
        case Failure(err) => Failure(err)
        case Success(y) => BinaryValue(op, x, y)
  }

  /** The brackets and the four operators are neither numbers nor cell references. */
  lemma SymbolTokens()
    ensures forall t :: t in ["(", ")", "+", "-", "*", "/"] ==> !IsNumber(t) && !IsValidCellLabel(t)
  {
    forall t | t in ["(", ")", "+", "-", "*", "/"]
      ensures !IsNumber(t) && !IsValidCellLabel(t)
    {
      assert |t| == 1 && !IsDigit(t[0]) && t[0] != '.';
    }
  }

  lemma LabelIsNoNumber(t: string)
    requires IsValidCellLabel(t)
    ensures !IsNumber(t)
  {
    assert !IsDigit(t[0]) && t[0] != '.';
  }

  lemma {:induction false} TokensInGrid(e: Expr, s: Sheet)
    requires ExprOk(e, s)
    ensures ReferencesInGrid(s, Tokens(e))
  {
    match e
    case Literal(t) =>
    case Reference(l) =>
    case Binary(op, a, b) =>
      TokensInGrid(a, s);
      TokensInGrid(b, s);
      SymbolTokens();
  }

  /** On two numbers the evaluator's arithmetic is the reference arithmetic. */
  lemma ArithOnNumbers(op: Op, x: real, y: real)
    ensures BinaryValue(op, x, y).Failure? ==> Arith(OpToken(op), Num(x), Num(y)) == Failure(BinaryValue(op, x, y).error)
    ensures BinaryValue(op, x, y).Success? ==> Arith(OpToken(op), Num(x), Num(y)) == Success(Num(BinaryValue(op, x, y).value))
  {
    match op
    case Plus =>
      assert Arith("+", Num(x), Num(y)) == Success(Num(x + y));
    case Minus =>
      assert Arith("-", Num(x), Num(y)) == Success(Num(x - y));
    case Times =>
      var r := Arith("*", Num(x), Num(y));
      assert r.Success? && r.value.Num? && r.value.x == x * y;
      assert r.value == Num(x * y);
      var v := BinaryValue(Times, x, y);
      assert v.Success? && v.value == x * y;
      assert r == Success(Num(v.value));
    case Divide =>
      if y == 0.0 {
        assert Arith("/", Num(x), Num(y)) == Failure(DivideByZero);
      } else {
        assert Arith("/", Num(x), Num(y)) == Success(Num(x / y));
      }
  }

  /** "(" is pushed onto the operator stack. */
  lemma RunOpen(rest: seq<string>, st: Stacks, s: Sheet)
    requires WellFormed(s) && ReferencesInGrid(s, rest)
    ensures ReferencesInGrid(s, ["("] + rest)
    ensures Run(["("] + rest, st, s) == Run(rest, Stacks(st.values, st.ops + ["("]), s)
  {
    SymbolTokens();
    assert (["("] + rest)[0] == "(" && (["("] + rest)[1..] == rest;
  }

  /** An operator right after "(" applies nothing and is pushed. */
  lemma RunOperatorAfterOpen(op: Op, rest: seq<string>, values: seq<Val>, ops: seq<string>, s: Sheet)
    requires WellFormed(s) && ReferencesInGrid(s, rest)
    ensures ReferencesInGrid(s, [OpToken(op)] + rest)
    ensures Run([OpToken(op)] + rest, Stacks(values, ops + ["("]), s) ==
      Run(rest, Stacks(values, ops + ["(", OpToken(op)]), s)
  {
    SymbolTokens();
    var o := OpToken(op);
    assert ([o] + rest)[0] == o && ([o] + rest)[1..] == rest;
    assert Reduce(Stacks(values, ops + ["("]), ToBelow(Precedence(o))) == Success(Stacks(values, ops + ["("]));
    assert ops + ["("] + [o] == ops + ["(", o];
  }

  /** ")" applies the operator above "(" to the two values on top and drops the "(". */
  lemma RunClose(op: Op, x: real, y: real, rest: seq<string>, values: seq<Val>, ops: seq<string>, s: Sheet)
    requires WellFormed(s) && ReferencesInGrid(s, rest)
    ensures ReferencesInGrid(s, [")"] + rest)
    ensures BinaryValue(op, x, y).Failure? ==>
      Run([")"] + rest, Stacks(values + [Num(x), Num(y)], ops + ["(", OpToken(op)]), s) ==
      Failure(BinaryValue(op, x, y).error)
    ensures BinaryValue(op, x, y).Success? ==>
      Run([")"] + rest, Stacks(values + [Num(x), Num(y)], ops + ["(", OpToken(op)]), s) ==
      Run(rest, Stacks(values + [Num(BinaryValue(op, x, y).value)], ops), s)
  {
    SymbolTokens();
    var o := OpToken(op);
    var st := Stacks(values + [Num(x), Num(y)], ops + ["(", o]);
    assert ([")"] + rest)[0] == ")" && ([")"] + rest)[1..] == rest;
    assert st.values[..|values| + 1] == values + [Num(x)];
    assert Pop(st.values) == (Num(y), values + [Num(x)]);
    assert Pop(values + [Num(x)]) == (Num(x), values);
    assert (ops + ["(", o])[..|ops| + 1] == ops + ["("];
    assert (ops + ["("])[..|ops|] == ops;
    ArithOnNumbers(op, x, y);
    match BinaryValue(op, x, y)
    case Failure(err) =>
      assert Reduce(st, ToParen) == Failure(err);
    case Success(z) =>
      assert ApplyOpTo(o, st.values) == Success(values + [Num(z)]);
      assert Reduce(st, ToParen) == Success(Stacks(values + [Num(z)], ops + ["("]));
  }

  /**
    Running the tokens of an expression pushes its value and leaves the operator stack as it
    was, or stops with the error the expression's value reports.
   */
  lemma {:induction false} RunExpr(e: Expr, rest: seq<string>, st: Stacks, s: Sheet)
    requires WellFormed(s) && ExprOk(e, s) && ReferencesInGrid(s, rest)
    ensures ReferencesInGrid(s, Tokens(e) + rest)
    ensures Value(e, s).Failure? ==> Run(Tokens(e) + rest, st, s) == Failure(Value(e, s).error)
    ensures Value(e, s).Success? ==>
      Run(Tokens(e) + rest, st, s) == Run(rest, Stacks(st.values + [Num(Value(e, s).value)], st.ops), s)
  {
    TokensInGrid(e, s);
    match e
    case Literal(t) =>
      assert (Tokens(e) + rest)[1..] == rest;
    case Reference(l) =>
      assert (Tokens(e) + rest)[1..] == rest;
      LabelIsNoNumber(l);
    case Binary(op, a, b) =>
      var afterB := [")"] + rest;
      var afterO := Tokens(b) + afterB;
      var afterA := [OpToken(op)] + afterO;
      var whole := Tokens(a) + afterA;
      assert Tokens(e) + rest == ["("] + whole;
      SymbolTokens();
      TokensInGrid(a, s);
      TokensInGrid(b, s);
      assert ReferencesInGrid(s, whole);
      RunOpen(whole, st, s);
      var st1 := Stacks(st.values, st.ops + ["("]);
      RunExpr(a, afterA, st1, s);
      if Value(a, s).Success? {
        var x := Value(a, s).value;
        RunOperatorAfterOpen(op, afterO, st.values + [Num(x)], st.ops, s);
        var st3 := Stacks(st.values + [Num(x)], st.ops + ["(", OpToken(op)]);
        RunExpr(b, afterB, st3, s);
        if Value(b, s).Success? {
          var y := Value(b, s).value;
          assert st3.values + [Num(y)] == st.values + [Num(x), Num(y)];
          RunClose(op, x, y, rest, st.values, st.ops, s);
        }
      }
  }

  /** The evaluator agrees with the reference semantics on fully parenthesized expressions. */
  lemma EvalMatchesValue(e: Expr, s: Sheet)
    requires WellFormed(s) && ExprOk(e, s)
    ensures ReferencesInGrid(s, Tokens(e))
    ensures Eval(Tokens(e), s) == Value(e, s)
  {
    RunExpr(e, [], Stacks([], []), s);
    assert Tokens(e) + [] == Tokens(e);
  }

  // ---------------------------------------------------------------------------
  // Precedence and associativity without parentheses
  // ---------------------------------------------------------------------------

  lemma PopPushed(values: seq<Val>, v: Val)
    ensures Pop(values + [v]) == (v, values)
  {
    assert (values + [v])[..|values|] == values;
  }

  /** Popping the two values of a two-value stack. */
  lemma PopTwo(x: Val, y: Val)
    ensures Pop([x, y]) == (y, [x]) && Pop([x]) == (x, [])
  {
    assert [x, y] == [x] + [y] && [x] == [] + [x];
    PopPushed([x], y);
    PopPushed([], x);
  }

  /** An operator token is a symbol of precedence 1 or 2. */
  lemma OpTokenFacts(op: Op)
    ensures !IsNumber(OpToken(op)) && !IsValidCellLabel(OpToken(op))
    ensures OpToken(op) != "(" && OpToken(op) != ")" && Precedence(OpToken(op)) >= 1
  {
    SymbolTokens();
    var t := OpToken(op);
    assert t in ["(", ")", "+", "-", "*", "/"];
    assert t[0] != '(' && t[0] != ')';
  }

  /** A number token is pushed as its value. */
  lemma RunNumber(t: string, rest: seq<string>, st: Stacks, s: Sheet)
    requires WellFormed(s) && IsNumber(t) && ReferencesInGrid(s, rest)
    ensures ReferencesInGrid(s, [t] + rest)
    ensures Run([t] + rest, st, s) == Run(rest, Stacks(st.values + [Num(NumberValue(t))], st.ops), s)
  {
    LabelIsNumberFree(t);
    assert ([t] + rest)[0] == t && ([t] + rest)[1..] == rest;
  }

  lemma LabelIsNumberFree(t: string)
    requires IsNumber(t)
    ensures !IsValidCellLabel(t)
  {
    if IsValidCellLabel(t) {
      LabelIsNoNumber(t);
    }
  }

  /** The end of a pass with two values and one operator left: that operator is applied. */
  lemma FinishOne(op: Op, x: real, y: real)
    ensures Finish(Stacks([Num(x), Num(y)], [OpToken(op)])) == BinaryValue(op, x, y)
  {
    var st := Stacks([Num(x), Num(y)], [OpToken(op)]);
    PopTwo(Num(x), Num(y));
    ArithOnNumbers(op, x, y);
    assert [OpToken(op)][..0] == [];
    match BinaryValue(op, x, y)
    case Failure(err) =>
      assert Reduce(st, ToEmpty) == Failure(err);
    case Success(w) =>
      assert [] + [Num(w)] == [Num(w)];
      assert ApplyOpTo(OpToken(op), st.values) == Success([Num(w)]);
      assert Reduce(st, ToEmpty) == Success(Stacks([Num(w)], []));
      assert Finish(st) == Success(w);
  }

  /** The first three tokens of `a o1 b o2 c` push a and b and stack o1. */
  lemma RunTwoOperatorsPrefix(a: string, o1: Op, b: string, o2: Op, c: string, s: Sheet)
    requires WellFormed(s) && IsNumber(a) && IsNumber(b) && IsNumber(c)
    ensures ReferencesInGrid(s, [a, OpToken(o1), b, OpToken(o2), c]) && ReferencesInGrid(s, [OpToken(o2), c])
    ensures Run([a, OpToken(o1), b, OpToken(o2), c], Stacks([], []), s) ==
      Run([OpToken(o2), c], Stacks([Num(NumberValue(a)), Num(NumberValue(b))], [OpToken(o1)]), s)
  {
    var x, y := NumberValue(a), NumberValue(b);
    var t1, t2 := OpToken(o1), OpToken(o2);
    OpTokenFacts(o2);
    LabelIsNumberFree(c);
    assert ReferencesInGrid(s, [t2, c]);
    RunNumber(b, [t2, c], Stacks([Num(x)], [t1]), s);
    RunFirstOperator(o1, [b] + [t2, c], Num(x), s);
    RunNumber(a, [t1] + ([b] + [t2, c]), Stacks([], []), s);
    assert [a, t1, b, t2, c] == [a] + ([t1] + ([b] + [t2, c]));
    assert [] + [Num(x)] == [Num(x)] && [Num(x)] + [Num(y)] == [Num(x), Num(y)];
  }

  /** An operator met with an empty operator stack is stacked. */
  lemma RunFirstOperator(op: Op, rest: seq<string>, v: Val, s: Sheet)
    requires WellFormed(s) && ReferencesInGrid(s, rest)
    ensures ReferencesInGrid(s, [OpToken(op)] + rest)
    ensures Run([OpToken(op)] + rest, Stacks([v], []), s) == Run(rest, Stacks([v], [OpToken(op)]), s)
  {
    OpTokenFacts(op);
    var t := OpToken(op);
    assert ([t] + rest)[0] == t && ([t] + rest)[1..] == rest;
    assert [] + [t] == [t];
    assert Step(t, Stacks([v], []), s) == Success(Stacks([v], [t]));
  }

  /** When o2 binds tighter, it is stacked above o1 and applied first, at the end. */
  lemma RunRightGrouping(o1: Op, o2: Op, x: real, y: real, c: string, s: Sheet)
    requires WellFormed(s) && IsNumber(c) && Precedence(OpToken(o2)) > Precedence(OpToken(o1))
    ensures ReferencesInGrid(s, [OpToken(o2), c])
    ensures Run([OpToken(o2), c], Stacks([Num(x), Num(y)], [OpToken(o1)]), s).Success?
    ensures Finish(Run([OpToken(o2), c], Stacks([Num(x), Num(y)], [OpToken(o1)]), s).value) ==
      match BinaryValue(o2, y, NumberValue(c))
      case Failure(err) => Failure(err)
      case Success(yz) => BinaryValue(o1, x, yz)
  {
    OpTokenFacts(o1);
    OpTokenFacts(o2);
    LabelIsNumberFree(c);
    var z := NumberValue(c);
    var t1, t2 := OpToken(o1), OpToken(o2);
    var st := Stacks([Num(x), Num(y)], [t1]);
    assert [t2, c] == [t2] + [c] && [c] + [] == [c];
    assert Reduce(st, ToBelow(Precedence(t2))) == Success(st);
    assert [t1] + [t2] == [t1, t2];
    assert Step(t2, st, s) == Success(Stacks([Num(x), Num(y)], [t1, t2]));
    RunNumber(c, [], Stacks([Num(x), Num(y)], [t1, t2]), s);
    var end := Stacks([Num(x), Num(y), Num(z)], [t1, t2]);
    assert [Num(x), Num(y)] + [Num(z)] == end.values;
    assert Run([t2, c], st, s) == Success(end);
    ArithOnNumbers(o2, y, z);
    PopPushed([Num(x), Num(y)], Num(z));
    PopTwo(Num(x), Num(y));
    assert [t1, t2][..1] == [t1];
    if BinaryValue(o2, y, z).Success? {
      var yz := BinaryValue(o2, y, z).value;
      assert [Num(x)] + [Num(yz)] == [Num(x), Num(yz)];
      assert Reduce(end, ToEmpty) == Reduce(Stacks([Num(x), Num(yz)], [t1]), ToEmpty);
      FinishOne(o1, x, yz);
    }
  }

  /** Otherwise o1 is applied as soon as o2 arrives, and o2 at the end. */
  lemma RunLeftGrouping(o1: Op, o2: Op, x: real, y: real, c: string, s: Sheet)
    requires WellFormed(s) && IsNumber(c) && Precedence(OpToken(o2)) <= Precedence(OpToken(o1))
    ensures ReferencesInGrid(s, [OpToken(o2), c])
    ensures BinaryValue(o1, x, y).Failure? ==>
      Run([OpToken(o2), c], Stacks([Num(x), Num(y)], [OpToken(o1)]), s) == Failure(BinaryValue(o1, x, y).error)
    ensures BinaryValue(o1, x, y).Success? ==>
      Run([OpToken(o2), c], Stacks([Num(x), Num(y)], [OpToken(o1)]), s).Success? &&
      Finish(Run([OpToken(o2), c], Stacks([Num(x), Num(y)], [OpToken(o1)]), s).value) ==
        BinaryValue(o2, BinaryValue(o1, x, y).value, NumberValue(c))
  {
    OpTokenFacts(o1);
    OpTokenFacts(o2);
    LabelIsNumberFree(c);
    var z := NumberValue(c);
    var t1, t2 := OpToken(o1), OpToken(o2);
    var st := Stacks([Num(x), Num(y)], [t1]);
    assert [t2, c] == [t2] + [c] && [c] + [] == [c];
    ArithOnNumbers(o1, x, y);
    PopTwo(Num(x), Num(y));
    assert [t1][..0] == [];
    if BinaryValue(o1, x, y).Success? {
      var xy := BinaryValue(o1, x, y).value;
      assert [] + [Num(xy)] == [Num(xy)];
      assert ApplyOpTo(t1, st.values) == Success([Num(xy)]);
      assert Reduce(st, ToBelow(Precedence(t2))) == Success(Stacks([Num(xy)], []));
      assert [] + [t2] == [t2] && [Num(xy)] + [Num(z)] == [Num(xy), Num(z)];
      assert Step(t2, st, s) == Success(Stacks([Num(xy)], [t2]));
      RunNumber(c, [], Stacks([Num(xy)], [t2]), s);
      var end := Stacks([Num(xy), Num(z)], [t2]);
      assert Run([t2, c], st, s) == Success(end);
      FinishOne(o2, xy, z);
    } else {
      assert Reduce(st, ToBelow(Precedence(t2))) == Failure(BinaryValue(o1, x, y).error);
    }
  }

  /** Without parentheses, `a o1 b o2 c` groups to the right when o2 binds tighter than o1. */
  lemma EvalTighterRight(a: string, o1: Op, b: string, o2: Op, c: string, s: Sheet)
    requires WellFormed(s) && IsNumber(a) && IsNumber(b) && IsNumber(c)
    requires Precedence(OpToken(o2)) > Precedence(OpToken(o1))
    ensures ReferencesInGrid(s, [a, OpToken(o1), b, OpToken(o2), c])
    ensures ExprOk(Binary(o1, Literal(a), Binary(o2, Literal(b), Literal(c))), s)
    ensures Eval([a, OpToken(o1), b, OpToken(o2), c], s) == Value(Binary(o1, Literal(a), Binary(o2, Literal(b), Literal(c))), s)
  {
    assert ExprOk(Literal(b), s);
    assert ExprOk(Literal(c), s);
    var inner := Binary(o2, Literal(b), Literal(c));
    assert ExprOk(inner, s);
    var x, y, z := NumberValue(a), NumberValue(b), NumberValue(c);
    RunTwoOperatorsPrefix(a, o1, b, o2, c, s);
    RunRightGrouping(o1, o2, x, y, c, s);
    assert Value(Literal(a), s) == Success(x);
    assert Value(inner, s) == BinaryValue(o2, y, z);
  }

  /** Otherwise it groups to the left: operators of equal precedence associate to the left. */
  lemma EvalLeftAssociative(a: string, o1: Op, b: string, o2: Op, c: string, s: Sheet)
    requires WellFormed(s) && IsNumber(a) && IsNumber(b) && IsNumber(c)
    requires Precedence(OpToken(o2)) <= Precedence(OpToken(o1))
    ensures ReferencesInGrid(s, [a, OpToken(o1), b, OpToken(o2), c])
    ensures ExprOk(Binary(o2, Binary(o1, Literal(a), Literal(b)), Literal(c)), s)
    ensures Eval([a, OpToken(o1), b, OpToken(o2), c], s) == Value(Binary(o2, Binary(o1, Literal(a), Literal(b)), Literal(c)), s)
  {
    assert ExprOk(Literal(a), s) && ExprOk(Literal(b), s) && ExprOk(Literal(c), s);
    assert ExprOk(Binary(o1, Literal(a), Literal(b)), s);
    RunTwoOperatorsPrefix(a, o1, b, o2, c, s);
    var x, y := NumberValue(a), NumberValue(b);
    RunLeftGrouping(o1, o2, x, y, c, s);
    var inner := Binary(o1, Literal(a), Literal(b));
    assert Value(inner, s) == BinaryValue(o1, x, y);
  }

  // ---------------------------------------------------------------------------
  // Chains of any length without parentheses
  // ---------------------------------------------------------------------------

  predicate IsMultiplicative(op: Op)
  {
    op == Times || op == Divide
  }

  lemma PrecedenceOfOp(op: Op)
    ensures Precedence(OpToken(op)) == if IsMultiplicative(op) then 2 else 1
  {
  }

  /** A chain operand: a number token, or a cell reference into the grid. */
  predicate Operand(a: string, s: Sheet)
  {
    IsNumber(a) || (IsValidCellLabel(a) && HasLabel(s, a))
  }

  predicate Operands(rest: seq<(Op, string)>, s: Sheet)
  {
    forall i :: 0 <= i < |rest| ==> Operand(rest[i].1, s)
  }

  /** The tree leaf an operand stands for. */
  function Leaf(a: string): Expr
  {
    if IsNumber(a) then Literal(a) else Reference(a)
  }

  /** The tokens of the operator-operand pairs that follow the first operand of a chain. */
  function ChainTokens(rest: seq<(Op, string)>): seq<string>
    decreases |rest|
  {
    if rest == [] then [] else [OpToken(rest[0].0), rest[0].1] + ChainTokens(rest[1..])
  }

  /** The sum read so far: nothing yet, or a left operand and the additive operator after it. */
  datatype Pending = NoSum | Sum(left: Expr, op: Op)

  function Close(sum: Pending, term: Expr): Expr
  {
    match sum
    case NoSum => term
    case Sum(e, op) => Binary(op, e, term)
  }

  /**
    The precedence-correct tree of a chain: `*` and `/` group the operands on their left
    into a term, and `+` and `-` group the terms to the left.
   */
  function ParseFrom(sum: Pending, term: Expr, rest: seq<(Op, string)>): Expr
    decreases |rest|
  {
    if rest == [] then Close(sum, term)
    else if IsMultiplicative(rest[0].0) then ParseFrom(sum, Binary(rest[0].0, term, Leaf(rest[0].1)), rest[1..])
    else ParseFrom(Sum(Close(sum, term), rest[0].0), Leaf(rest[0].1), rest[1..])
  }

  function Parse(first: string, rest: seq<(Op, string)>): Expr
  {
    ParseFrom(NoSum, Leaf(first), rest)
  }

  /** The two-operator chains group as `EvalTighterRight` and `EvalLeftAssociative` state. */
  lemma ParseTwoOperators(a: string, o1: Op, b: string, o2: Op, c: string)
    requires IsNumber(a) && IsNumber(b) && IsNumber(c)
    ensures Precedence(OpToken(o2)) > Precedence(OpToken(o1)) ==>
      Parse(a, [(o1, b), (o2, c)]) == Binary(o1, Literal(a), Binary(o2, Literal(b), Literal(c)))
    ensures Precedence(OpToken(o2)) <= Precedence(OpToken(o1)) ==>
      Parse(a, [(o1, b), (o2, c)]) == Binary(o2, Binary(o1, Literal(a), Literal(b)), Literal(c))
  {
    var rest := [(o1, b), (o2, c)];
    assert rest[1..] == [(o2, c)] && rest[1..][1..] == [];
    PrecedenceOfOp(o1);
    PrecedenceOfOp(o2);
    var A, B, C := Literal(a), Literal(b), Literal(c);
    if IsMultiplicative(o1) {
      assert Parse(a, rest) == ParseFrom(NoSum, Binary(o1, A, B), [(o2, c)]);
      if IsMultiplicative(o2) {
        assert ParseFrom(NoSum, Binary(o1, A, B), [(o2, c)]) == ParseFrom(NoSum, Binary(o2, Binary(o1, A, B), C), []);
      } else {
        assert ParseFrom(NoSum, Binary(o1, A, B), [(o2, c)]) == ParseFrom(Sum(Binary(o1, A, B), o2), C, []);
      }
    } else {
      assert Parse(a, rest) == ParseFrom(Sum(A, o1), B, [(o2, c)]);
      if IsMultiplicative(o2) {
        assert ParseFrom(Sum(A, o1), B, [(o2, c)]) == ParseFrom(Sum(A, o1), Binary(o2, B, C), []);
      } else {
        assert ParseFrom(Sum(A, o1), B, [(o2, c)]) == ParseFrom(Sum(Binary(o1, A, B), o2), C, []);
      }
    }
  }

  predicate SumOk(sum: Pending, s: Sheet)
  {
    sum.Sum? ==> ExprOk(sum.left, s) && !IsMultiplicative(sum.op)
  }

  lemma OperandsTail(rest: seq<(Op, string)>, s: Sheet)
    requires Operands(rest, s) && rest != []
    ensures Operand(rest[0].1, s) && Operands(rest[1..], s)
  {
    forall i | 0 <= i < |rest[1..]|
      ensures Operand(rest[1..][i].1, s)
    {
      assert rest[1..][i] == rest[i + 1];
    }
  }

  lemma {:induction false} ChainTokensInGrid(rest: seq<(Op, string)>, s: Sheet)
    requires Operands(rest, s)
    ensures ReferencesInGrid(s, ChainTokens(rest))
    decreases |rest|
  {
    if rest != [] {
      OperandsTail(rest, s);
      OpTokenFacts(rest[0].0);
      ChainTokensInGrid(rest[1..], s);
      var a := rest[0].1;
      if IsNumber(a) {
        LabelIsNumberFree(a);
      }
    }
  }

  lemma {:induction false} ParseFromOk(sum: Pending, term: Expr, rest: seq<(Op, string)>, s: Sheet)
    requires SumOk(sum, s) && ExprOk(term, s) && Operands(rest, s)
    ensures ExprOk(ParseFrom(sum, term, rest), s)
    decreases |rest|
  {
    if rest != [] {
      OperandsTail(rest, s);
      var (op, a) := rest[0];
      if IsMultiplicative(op) {
        ParseFromOk(sum, Binary(op, term, Leaf(a)), rest[1..], s);
      } else {
        ParseFromOk(Sum(Close(sum, term), op), Leaf(a), rest[1..], s);
      }
    }
  }

  /** Once the sum read so far has failed, the whole chain fails with its error. */
  lemma {:induction false} ParseFromSumFails(e: Expr, op: Op, term: Expr, rest: seq<(Op, string)>, s: Sheet)
    requires WellFormed(s) && SumOk(Sum(e, op), s) && ExprOk(term, s) && Operands(rest, s) && Value(e, s).Failure?
    ensures ExprOk(ParseFrom(Sum(e, op), term, rest), s)
    ensures Value(ParseFrom(Sum(e, op), term, rest), s) == Failure(Value(e, s).error)
    decreases |rest|
  {
    ParseFromOk(Sum(e, op), term, rest, s);
    if rest != [] {
      OperandsTail(rest, s);
      var (o, a) := rest[0];
      if IsMultiplicative(o) {
        ParseFromSumFails(e, op, Binary(o, term, Leaf(a)), rest[1..], s);
      } else {
        ParseFromSumFails(Binary(op, e, term), o, Leaf(a), rest[1..], s);
      }
    }
  }

  /** Once the current term has failed, the whole chain fails with its error. */
  lemma {:induction false} ParseFromTermFails(sum: Pending, term: Expr, rest: seq<(Op, string)>, s: Sheet)
    requires WellFormed(s) && SumOk(sum, s) && ExprOk(term, s) && Operands(rest, s)
    requires (sum.Sum? ==> Value(sum.left, s).Success?) && Value(term, s).Failure?
    ensures ExprOk(ParseFrom(sum, term, rest), s)
    ensures Value(ParseFrom(sum, term, rest), s) == Failure(Value(term, s).error)
    decreases |rest|
  {
    ParseFromOk(sum, term, rest, s);
    if rest != [] {
      OperandsTail(rest, s);
      var (o, a) := rest[0];
      if IsMultiplicative(o) {
        ParseFromTermFails(sum, Binary(o, term, Leaf(a)), rest[1..], s);
      } else {
        ParseFromSumFails(Close(sum, term), o, Leaf(a), rest[1..], s);
      }
    }
  }

  /** `evaluate` from the given stacks on: the token loop, then the final reduction. */
  function RunToEnd(tokens: seq<string>, st: Stacks, s: Sheet): Result<real>
    requires WellFormed(s) && ReferencesInGrid(s, tokens)
  {
    match Run(tokens, st, s)
    case Failure(e) => Failure(e)
    case Success(st') => Finish(st')
  }

  /** An operand is pushed as its value, or stops the run with the error its value reports. */
  lemma RunLeaf(a: string, rest: seq<string>, st: Stacks, s: Sheet)
    requires WellFormed(s) && Operand(a, s) && ReferencesInGrid(s, rest)
    ensures ExprOk(Leaf(a), s) && ReferencesInGrid(s, [a] + rest)
    ensures Value(Leaf(a), s).Failure? ==> Run([a] + rest, st, s) == Failure(Value(Leaf(a), s).error)
    ensures Value(Leaf(a), s).Success? ==>
      Run([a] + rest, st, s) == Run(rest, Stacks(st.values + [Num(Value(Leaf(a), s).value)], st.ops), s)
  {
    assert ([a] + rest)[0] == a && ([a] + rest)[1..] == rest;
    if IsNumber(a) {
      LabelIsNumberFree(a);
    }
  }

  /** The stacks that hold a sum read so far whose value is u. */
  function SumValues(sum: Pending, u: real): seq<Val>
  {
    if sum.Sum? then [Num(u)] else []
  }

  function SumOps(sum: Pending): seq<string>
  {
    if sum.Sum? then [OpToken(sum.op)] else []
  }

  /** A stacked `*` or `/` is applied by any reduction other than the one of ")". */
  lemma ReducePending(sum: Pending, u: real, m: Op, w: real, z: real, until: Until)
    requires IsMultiplicative(m) && !until.ToParen? && (until.ToBelow? ==> until.p <= 2)
    ensures BinaryValue(m, w, z).Failure? ==>
      Reduce(Stacks(SumValues(sum, u) + [Num(w), Num(z)], SumOps(sum) + [OpToken(m)]), until) ==
      Failure(BinaryValue(m, w, z).error)
    ensures BinaryValue(m, w, z).Success? ==>
      Reduce(Stacks(SumValues(sum, u) + [Num(w), Num(z)], SumOps(sum) + [OpToken(m)]), until) ==
      Reduce(Stacks(SumValues(sum, u) + [Num(BinaryValue(m, w, z).value)], SumOps(sum)), until)
  {
    var vs := SumValues(sum, u);
    var P := Stacks(vs + [Num(w), Num(z)], SumOps(sum) + [OpToken(m)]);
    assert P.values == vs + [Num(w)] + [Num(z)];
    assert P.ops[..|P.ops| - 1] == SumOps(sum);
    PopPushed(vs + [Num(w)], Num(z));
    PopPushed(vs, Num(w));
    ArithOnNumbers(m, w, z);
    assert Continues(until, OpToken(m));
  }

  /**
    A stacked `*` or `/` is applied as soon as the next operator or the end of the chain
    arrives, so from then on the run is the one from its result.
   */
  lemma PendingApplied(sum: Pending, u: real, m: Op, w: real, z: real, rest: seq<(Op, string)>, s: Sheet)
    requires WellFormed(s) && IsMultiplicative(m) && Operands(rest, s)
    ensures ReferencesInGrid(s, ChainTokens(rest))
    ensures BinaryValue(m, w, z).Failure? ==>
      RunToEnd(ChainTokens(rest), Stacks(SumValues(sum, u) + [Num(w), Num(z)], SumOps(sum) + [OpToken(m)]), s) ==
      Failure(BinaryValue(m, w, z).error)
    ensures BinaryValue(m, w, z).Success? ==>
      RunToEnd(ChainTokens(rest), Stacks(SumValues(sum, u) + [Num(w), Num(z)], SumOps(sum) + [OpToken(m)]), s) ==
      RunToEnd(ChainTokens(rest), Stacks(SumValues(sum, u) + [Num(BinaryValue(m, w, z).value)], SumOps(sum)), s)
  {
    ChainTokensInGrid(rest, s);
    var P := Stacks(SumValues(sum, u) + [Num(w), Num(z)], SumOps(sum) + [OpToken(m)]);
    if rest == [] {
      ReducePending(sum, u, m, w, z, ToEmpty);
    } else {
      var o := OpToken(rest[0].0);
      OpTokenFacts(rest[0].0);
      ReducePending(sum, u, m, w, z, ToBelow(Precedence(o)));
      assert ChainTokens(rest)[0] == o;
    }
  }

  /**
    From the stacks of a sum read so far (value u) and a finished term (value w), the rest
    of the chain evaluates to the value of its precedence-correct tree.
   */
  lemma {:induction false} ChainRun(sum: Pending, u: real, term: Expr, w: real, rest: seq<(Op, string)>, s: Sheet)
    requires WellFormed(s) && SumOk(sum, s) && ExprOk(term, s) && Operands(rest, s)
    requires (sum.Sum? ==> Value(sum.left, s) == Success(u)) && Value(term, s) == Success(w)
    ensures ReferencesInGrid(s, ChainTokens(rest)) && ExprOk(ParseFrom(sum, term, rest), s)
    ensures RunToEnd(ChainTokens(rest), Stacks(SumValues(sum, u) + [Num(w)], SumOps(sum)), s) ==
      Value(ParseFrom(sum, term, rest), s)
    decreases |rest|, 1
  {
    ChainTokensInGrid(rest, s);
    ParseFromOk(sum, term, rest, s);
    if rest == [] {
      var N := Stacks(SumValues(sum, u) + [Num(w)], SumOps(sum));
      match sum
      case NoSum =>
        assert N == Stacks([Num(w)], []);
        assert Reduce(N, ToEmpty) == Success(N);
      case Sum(e, p) =>
        assert N == Stacks([Num(u), Num(w)], [OpToken(p)]);
        FinishOne(p, u, w);
    } else if IsMultiplicative(rest[0].0) {
      ChainProduct(sum, u, term, w, rest, s);
    } else {
      ChainSum(sum, u, term, w, rest, s);
    }
  }

  /** The tokens of a chain that goes on: its next operator, its next operand, the rest. */
  lemma ChainTokensCons(rest: seq<(Op, string)>)
    requires rest != []
    ensures ChainTokens(rest) == [OpToken(rest[0].0)] + ([rest[0].1] + ChainTokens(rest[1..]))
  {
  }

  /** A `*` or `/` and its operand: the operator is stacked above the sum, the operand pushed. */
  lemma RunProductStep(sum: Pending, u: real, w: real, o: Op, a: string, tail: seq<string>, s: Sheet)
    requires WellFormed(s) && IsMultiplicative(o) && Operand(a, s) && ReferencesInGrid(s, tail)
    requires sum.Sum? ==> !IsMultiplicative(sum.op)
    ensures ExprOk(Leaf(a), s) && ReferencesInGrid(s, [OpToken(o)] + ([a] + tail))
    ensures Value(Leaf(a), s).Failure? ==>
      Run([OpToken(o)] + ([a] + tail), Stacks(SumValues(sum, u) + [Num(w)], SumOps(sum)), s) ==
      Failure(Value(Leaf(a), s).error)
    ensures Value(Leaf(a), s).Success? ==>
      Run([OpToken(o)] + ([a] + tail), Stacks(SumValues(sum, u) + [Num(w)], SumOps(sum)), s) ==
      Run(tail, Stacks(SumValues(sum, u) + [Num(w), Num(Value(Leaf(a), s).value)], SumOps(sum) + [OpToken(o)]), s)
  {
    var t := OpToken(o);
    OpTokenFacts(o);
    var N := Stacks(SumValues(sum, u) + [Num(w)], SumOps(sum));
    RunLeaf(a, tail, Stacks(N.values, N.ops + [t]), s);
    assert ([t] + ([a] + tail))[0] == t && ([t] + ([a] + tail))[1..] == [a] + tail;
    if sum.Sum? {
      OpTokenFacts(sum.op);
      assert N.ops[|N.ops| - 1] == OpToken(sum.op);
    }
    assert Reduce(N, ToBelow(Precedence(t))) == Success(N);
    assert Step(t, N, s) == Success(Stacks(N.values, N.ops + [t]));
    if Value(Leaf(a), s).Success? {
      var z := Value(Leaf(a), s).value;
      assert N.values + [Num(z)] == SumValues(sum, u) + [Num(w), Num(z)];
    }
  }

  /** A `+` or `-` and its operand: the sum read so far is applied, then the operator stacked, the operand pushed. */
  lemma RunSumStep(sum: Pending, u: real, term: Expr, w: real, o: Op, a: string, tail: seq<string>, s: Sheet)
    returns (v: real)
    requires WellFormed(s) && SumOk(sum, s) && ExprOk(term, s) && !IsMultiplicative(o)
    requires (sum.Sum? ==> Value(sum.left, s) == Success(u)) && Value(term, s) == Success(w)
    requires Operand(a, s) && ReferencesInGrid(s, tail)
    ensures ExprOk(Close(sum, term), s) && Value(Close(sum, term), s) == Success(v)
    ensures ExprOk(Leaf(a), s) && ReferencesInGrid(s, [OpToken(o)] + ([a] + tail))
    ensures Value(Leaf(a), s).Failure? ==>
      Run([OpToken(o)] + ([a] + tail), Stacks(SumValues(sum, u) + [Num(w)], SumOps(sum)), s) ==
      Failure(Value(Leaf(a), s).error)
    ensures Value(Leaf(a), s).Success? ==>
      Run([OpToken(o)] + ([a] + tail), Stacks(SumValues(sum, u) + [Num(w)], SumOps(sum)), s) ==
      Run(tail, Stacks([Num(v), Num(Value(Leaf(a), s).value)], [OpToken(o)]), s)
  {
    var t := OpToken(o);
    OpTokenFacts(o);
    PrecedenceOfOp(o);
    var N := Stacks(SumValues(sum, u) + [Num(w)], SumOps(sum));
    v := ApplySum(sum, u, term, w, t, s);
    var N1 := Stacks([Num(v)], [t]);
    RunLeaf(a, tail, N1, s);
    assert ([t] + ([a] + tail))[0] == t && ([t] + ([a] + tail))[1..] == [a] + tail;
    assert [] + [t] == [t];
    assert Step(t, N, s) == Success(N1);
    if Value(Leaf(a), s).Success? {
      var z := Value(Leaf(a), s).value;
      assert N1.values + [Num(z)] == [Num(v), Num(z)];
    }
  }

  /** A `*` or `/` is stacked above the sum and applied when the next operator arrives. */
  lemma {:induction false} ChainProduct(sum: Pending, u: real, term: Expr, w: real, rest: seq<(Op, string)>, s: Sheet)
    requires WellFormed(s) && SumOk(sum, s) && ExprOk(term, s) && Operands(rest, s)
    requires (sum.Sum? ==> Value(sum.left, s) == Success(u)) && Value(term, s) == Success(w)
    requires rest != [] && IsMultiplicative(rest[0].0)
    ensures ReferencesInGrid(s, ChainTokens(rest)) && ExprOk(ParseFrom(sum, term, rest), s)
    ensures RunToEnd(ChainTokens(rest), Stacks(SumValues(sum, u) + [Num(w)], SumOps(sum)), s) ==
      Value(ParseFrom(sum, term, rest), s)
    decreases |rest|, 0
  {
    ChainTokensInGrid(rest, s);
    ParseFromOk(sum, term, rest, s);
    OperandsTail(rest, s);
    var (o, a) := rest[0];
    var more := rest[1..];
    ChainTokensInGrid(more, s);
    ChainTokensCons(rest);
    RunProductStep(sum, u, w, o, a, ChainTokens(more), s);
    var term' := Binary(o, term, Leaf(a));
    assert ParseFrom(sum, term, rest) == ParseFrom(sum, term', more);
    if Value(Leaf(a), s).Failure? {
      ParseFromTermFails(sum, term', more, s);
    } else {
      var z := Value(Leaf(a), s).value;
      PendingApplied(sum, u, o, w, z, more, s);
      if BinaryValue(o, w, z).Failure? {
        ParseFromTermFails(sum, term', more, s);
      } else {
        ChainRun(sum, u, term', BinaryValue(o, w, z).value, more, s);
      }
    }
  }

  /** A `+` or `-` first applies the sum read so far, then starts a new term. */
  lemma {:induction false} ChainSum(sum: Pending, u: real, term: Expr, w: real, rest: seq<(Op, string)>, s: Sheet)
    requires WellFormed(s) && SumOk(sum, s) && ExprOk(term, s) && Operands(rest, s)
    requires (sum.Sum? ==> Value(sum.left, s) == Success(u)) && Value(term, s) == Success(w)
    requires rest != [] && !IsMultiplicative(rest[0].0)
    ensures ReferencesInGrid(s, ChainTokens(rest)) && ExprOk(ParseFrom(sum, term, rest), s)
    ensures RunToEnd(ChainTokens(rest), Stacks(SumValues(sum, u) + [Num(w)], SumOps(sum)), s) ==
      Value(ParseFrom(sum, term, rest), s)
    decreases |rest|, 0
  {
    ChainTokensInGrid(rest, s);
    ParseFromOk(sum, term, rest, s);
    OperandsTail(rest, s);
    var (o, a) := rest[0];
    var more := rest[1..];
    ChainTokensInGrid(more, s);
    ChainTokensCons(rest);
    var v := RunSumStep(sum, u, term, w, o, a, ChainTokens(more), s);
    var sum' := Sum(Close(sum, term), o);
    assert ParseFrom(sum, term, rest) == ParseFrom(sum', Leaf(a), more);
    if Value(Leaf(a), s).Failure? {
      ParseFromTermFails(sum', Leaf(a), more, s);
    } else {
      var z := Value(Leaf(a), s).value;
      assert SumValues(sum', v) + [Num(z)] == [Num(v), Num(z)];
      ChainRun(sum', v, Leaf(a), z, more, s);
    }
  }


  /** Reducing for a `+` or `-` applies the additive operator of the sum, which cannot fail. */
  lemma ApplySum(sum: Pending, u: real, term: Expr, w: real, t: string, s: Sheet) returns (v: real)
    requires WellFormed(s) && SumOk(sum, s) && ExprOk(term, s) && Precedence(t) == 1
    requires (sum.Sum? ==> Value(sum.left, s) == Success(u)) && Value(term, s) == Success(w)
    ensures ExprOk(Close(sum, term), s) && Value(Close(sum, term), s) == Success(v)
    ensures Reduce(Stacks(SumValues(sum, u) + [Num(w)], SumOps(sum)), ToBelow(Precedence(t))) == Success(Stacks([Num(v)], []))
  {
    var N := Stacks(SumValues(sum, u) + [Num(w)], SumOps(sum));
    if sum.Sum? {
      var p := sum.op;
      assert p == Plus || p == Minus;
      ArithOnNumbers(p, u, w);
      v := BinaryValue(p, u, w).value;
      assert N == Stacks([Num(u), Num(w)], [OpToken(p)]);
      OpTokenFacts(p);
      PopTwo(Num(u), Num(w));
      assert [OpToken(p)][..0] == [] && [] + [Num(v)] == [Num(v)];
      assert ApplyOpTo(OpToken(p), N.values) == Success([Num(v)]);
    } else {
      v := w;
      assert N == Stacks([Num(w)], []);
    }
  }

  /**
    Without parentheses, a chain of number tokens and cell references of any length
    evaluates as its precedence-correct tree: `*` and `/` before `+` and `-`, and operators
    of the same precedence from the left, with the tree's first error as the error.
   */
  lemma EvalChain(first: string, rest: seq<(Op, string)>, s: Sheet)
    requires WellFormed(s) && Operand(first, s) && Operands(rest, s)
    ensures ReferencesInGrid(s, [first] + ChainTokens(rest)) && ExprOk(Parse(first, rest), s)
    ensures Eval([first] + ChainTokens(rest), s) == Value(Parse(first, rest), s)
  {
    ChainTokensInGrid(rest, s);
    RunLeaf(first, ChainTokens(rest), Stacks([], []), s);
    ParseFromOk(NoSum, Leaf(first), rest, s);
    if Value(Leaf(first), s).Failure? {
      ParseFromTermFails(NoSum, Leaf(first), rest, s);
    } else {
      var w := Value(Leaf(first), s).value;
      assert [] + [Num(w)] == [Num(w)];
      ChainRun(NoSum, 0.0, Leaf(first), w, rest, s);
    }
  }

  // ---------------------------------------------------------------------------
  // Where errors come from, and what an evaluation depends on
  // ---------------------------------------------------------------------------

  /**
    The messages an evaluation can stop with: one of the evaluator's own messages, or the
    error stored in a cell the tokens refer to.
   */
  predicate ErrorFrom(err: string, tokens: seq<string>, s: Sheet)
    requires WellFormed(s) && ReferencesInGrid(s, tokens)
  {
    err == DivideByZero || err == InvalidOperator || err == InvalidCell || err == InvalidFormula ||
    exists l :: l in tokens && IsValidCellLabel(l) && err == Get(s, l).error && err != "" && err != EmptyFormula
  }

  lemma {:induction false} RunErrorOrigin(tokens: seq<string>, st: Stacks, s: Sheet)
    requires WellFormed(s) && ReferencesInGrid(s, tokens)
    ensures Run(tokens, st, s).Failure? ==> ErrorFrom(Run(tokens, st, s).error, tokens, s)
  {
    if tokens != [] {
      var t := tokens[0];
      assert t in tokens;
      match Step(t, st, s)
      case Failure(e) =>
      case Success(st') =>
        assert ReferencesInGrid(s, tokens[1..]) by {
          forall l | l in tokens[1..] ensures l in tokens { }
        }
        RunErrorOrigin(tokens[1..], st', s);
        if Run(tokens, st, s).Failure? {
          var e := Run(tokens, st, s).error;
          if !(e == DivideByZero || e == InvalidOperator || e == InvalidCell || e == InvalidFormula) {
            var l :| l in tokens[1..] && IsValidCellLabel(l) && e == Get(s, l).error && e != "" && e != EmptyFormula;
            assert l in tokens;
          }
        }
    }
  }

  /**
    An evaluation that fails reports a non-empty message other than `#EMPTY!`: one of the
    evaluator's own messages or the error of a referenced cell.
   */
  lemma EvalErrorOrigin(formula: seq<string>, s: Sheet)
    requires WellFormed(s) && ReferencesInGrid(s, formula)
    ensures Eval(formula, s).Failure? ==> ErrorFrom(Eval(formula, s).error, formula, s)
    ensures Eval(formula, s).Failure? ==> Eval(formula, s).error != "" && Eval(formula, s).error != EmptyFormula
  {
    RunErrorOrigin(formula, Stacks([], []), s);
  }

  /** Two sheets that agree on what every referenced cell yields to `getCellValue`. */
  predicate SameReferencedValues(tokens: seq<string>, s1: Sheet, s2: Sheet)
    requires WellFormed(s1) && ReferencesInGrid(s1, tokens)
    requires WellFormed(s2) && ReferencesInGrid(s2, tokens)
  {
    forall l :: l in tokens && IsValidCellLabel(l) ==> CellValue(Get(s1, l)) == CellValue(Get(s2, l))
  }

  lemma {:induction false} RunLocal(tokens: seq<string>, st: Stacks, s1: Sheet, s2: Sheet)
    requires WellFormed(s1) && ReferencesInGrid(s1, tokens)
    requires WellFormed(s2) && ReferencesInGrid(s2, tokens)
    requires SameReferencedValues(tokens, s1, s2)
    ensures Run(tokens, st, s1) == Run(tokens, st, s2)
  {
    if tokens != [] {
      var t := tokens[0];
      assert t in tokens;
      assert Step(t, st, s1) == Step(t, st, s2);
      match Step(t, st, s1)
      case Failure(e) =>
      case Success(st') =>
        forall l | l in tokens[1..] ensures l in tokens { }
        RunLocal(tokens[1..], st', s1, s2);
    }
  }

  /**
    A formula's value depends on nothing but the value and error of the cells it refers to:
    every other cell, and the sheet's size, may differ.
   */
  lemma EvalLocal(formula: seq<string>, s1: Sheet, s2: Sheet)
    requires WellFormed(s1) && ReferencesInGrid(s1, formula)
    requires WellFormed(s2) && ReferencesInGrid(s2, formula)
    requires SameReferencedValues(formula, s1, s2)
    ensures Eval(formula, s1) == Eval(formula, s2)
  {
    RunLocal(formula, Stacks([], []), s1, s2);
  }

  // ---------------------------------------------------------------------------
  // Malformed formulas
  // ---------------------------------------------------------------------------

  /**
    The formula `a b` leaves two values and is an invalid formula; no tokens give 0. An
    operator after both values still combines them (`EvalTrailingOperatorExample`).
   */
  lemma EvalTooManyValues(a: string, b: string, s: Sheet)
    requires WellFormed(s) && IsNumber(a) && IsNumber(b)
    ensures ReferencesInGrid(s, [a, b]) && ReferencesInGrid(s, [])
    ensures Eval([a, b], s) == Failure(InvalidFormula)
    ensures Eval([], s) == Success(0.0)
  {
    RunNumber(b, [], Stacks([Num(NumberValue(a))], []), s);
    assert [b] + [] == [b] && [a, b] == [a] + [b];
    RunNumber(a, [b], Stacks([], []), s);
    assert [] + [Num(NumberValue(a))] + [Num(NumberValue(b))] == [Num(NumberValue(a)), Num(NumberValue(b))];
  }

  /**
    An operator with no right operand is applied to the missing value: the outcome is `NaN`,
    which the final `|| 0` turns into 0, except that dividing by a missing 0 is `#DIV/0!`.
   */
  lemma EvalDanglingOperator(a: string, op: Op, s: Sheet)
    requires WellFormed(s) && IsNumber(a)
    ensures ReferencesInGrid(s, [a, OpToken(op)])
    ensures Eval([a, OpToken(op)], s) ==
      if op == Divide && NumberValue(a) == 0.0 then Failure(DivideByZero) else Success(0.0)
  {
    OpTokenFacts(op);
    var x := NumberValue(a);
    var t := OpToken(op);
    assert [t] + [] == [t] && [a, t] == [a] + [t] && [t][1..] == [];
    assert Reduce(Stacks([Num(x)], []), ToBelow(Precedence(t))) == Success(Stacks([Num(x)], []));
    assert [] + [t] == [t];
    assert Step(t, Stacks([Num(x)], []), s) == Success(Stacks([Num(x)], [t]));
    assert Run([t], Stacks([Num(x)], []), s) == Success(Stacks([Num(x)], [t]));
    RunNumber(a, [t], Stacks([], []), s);
    assert [] + [Num(x)] == [Num(x)];
    PopTwo(NaN, Num(x));
    assert Pop([Num(x)]) == (Num(x), []);
    assert [t][..0] == [];
    if !(op == Divide && x == 0.0) {
      assert Arith(t, NaN, Num(x)) == Success(NaN);
      assert [] + [NaN] == [NaN];
      assert ApplyOpTo(t, [Num(x)]) == Success([NaN]);
      assert Reduce(Stacks([Num(x)], [t]), ToEmpty) == Success(Stacks([NaN], []));
    }
  }

  /** A "(" that is never closed is applied as an operator at the end: `#ERR`. */
  lemma EvalUnclosedParen(a: string, s: Sheet)
    requires WellFormed(s) && IsNumber(a)
    ensures ReferencesInGrid(s, ["(", a])
    ensures Eval(["(", a], s) == Failure(InvalidOperator)
  {
    var x := NumberValue(a);
    RunNumber(a, [], Stacks([], ["("]), s);
    assert [a] + [] == [a];
    RunOpen([a], Stacks([], []), s);
    assert ["("] + [a] == ["(", a] && [] + ["("] == ["("] && [] + [Num(x)] == [Num(x)];
    assert Pop([Num(x)]) == (Num(x), []);
    assert ApplyOpTo("(", [Num(x)]) == Failure(InvalidOperator);
  }

  /** A "(" after a value is also applied at the end, as in `8 (`: `#ERR`. */
  lemma EvalTrailingParen(a: string, s: Sheet)
    requires WellFormed(s) && IsNumber(a)
    ensures ReferencesInGrid(s, [a, "("])
    ensures Eval([a, "("], s) == Failure(InvalidOperator)
  {
    var x := NumberValue(a);
    SymbolTokens();
    RunOpen([], Stacks([Num(x)], []), s);
    assert ["("] + [] == ["("] && [] + ["("] == ["("];
    RunNumber(a, ["("], Stacks([], []), s);
    assert [a] + ["("] == [a, "("] && [] + [Num(x)] == [Num(x)];
    assert Pop([Num(x)]) == (Num(x), []);
    assert ApplyOpTo("(", [Num(x)]) == Failure(InvalidOperator);
  }

  /** `( )` stacks "(", drops it again and leaves no value: the result is 0 with no error. */
  lemma EvalEmptyParens(s: Sheet)
    requires WellFormed(s)
    ensures ReferencesInGrid(s, ["(", ")"])
    ensures Eval(["(", ")"], s) == Success(0.0)
  {
    SymbolTokens();
    RunOpen([")"], Stacks([], []), s);
    assert ["("] + [")"] == ["(", ")"] && [] + ["("] == ["("];
    assert [")"][1..] == [];
    assert Reduce(Stacks([], ["("]), ToParen) == Success(Stacks([], ["("]));
    assert Run([")"], Stacks([], ["("]), s) == Success(Stacks([], []));
  }

  /**
    A ")" without its "(" applies every operator stacked before it; after a single value
    there is none, so `a )` is a (`EvalStrayCloseExample` shows one that applies).
   */
  lemma EvalStrayClose(a: string, s: Sheet)
    requires WellFormed(s) && IsNumber(a)
    ensures ReferencesInGrid(s, [a, ")"])
    ensures Eval([a, ")"], s) == Success(NumberValue(a))
  {
    SymbolTokens();
    var x := NumberValue(a);
    assert [")"][1..] == [] && [a, ")"] == [a] + [")"];
    assert Run([")"], Stacks([Num(x)], []), s) == Success(Stacks([Num(x)], []));
    RunNumber(a, [")"], Stacks([], []), s);
    assert [] + [Num(x)] == [Num(x)];
  }

  /** The one-digit numbers the examples below use. */
  lemma DigitNumbers()
    ensures IsNumber("1") && IsNumber("2") && IsNumber("3") && IsNumber("8")
    ensures NumberValue("1") == 1.0 && NumberValue("2") == 2.0 && NumberValue("3") == 3.0 && NumberValue("8") == 8.0
  {
    assert "1"[..0] == "" && "2"[..0] == "" && "3"[..0] == "" && "8"[..0] == "";
    assert "1"[1..] == "" && "2"[1..] == "" && "3"[1..] == "" && "8"[1..] == "";
  }

  /** The token loop over `a b o` ends with both values stacked under o. */
  lemma RunTrailingOperator(a: string, b: string, op: Op, s: Sheet)
    requires WellFormed(s) && IsNumber(a) && IsNumber(b)
    ensures ReferencesInGrid(s, [a, b, OpToken(op)])
    ensures Run([a, b, OpToken(op)], Stacks([], []), s) ==
      Success(Stacks([Num(NumberValue(a)), Num(NumberValue(b))], [OpToken(op)]))
  {
    var x, y, t := NumberValue(a), NumberValue(b), OpToken(op);
    OpTokenFacts(op);
    assert [t][1..] == [] && [] + [t] == [t];
    assert Step(t, Stacks([Num(x), Num(y)], []), s) == Success(Stacks([Num(x), Num(y)], [t]));
    RunNumber(b, [t], Stacks([Num(x)], []), s);
    RunNumber(a, [b] + [t], Stacks([], []), s);
    assert [a, b, t] == [a] + ([b] + [t]);
    assert [] + [Num(x)] == [Num(x)] && [Num(x)] + [Num(y)] == [Num(x), Num(y)];
  }

  /** `a b o` evaluates as `a o b`: the final loop applies o to the two values. */
  lemma EvalTrailingOperator(a: string, b: string, op: Op, s: Sheet)
    requires WellFormed(s) && IsNumber(a) && IsNumber(b)
    ensures ReferencesInGrid(s, [a, b, OpToken(op)])
    ensures ExprOk(Binary(op, Literal(a), Literal(b)), s)
    ensures Eval([a, b, OpToken(op)], s) == Value(Binary(op, Literal(a), Literal(b)), s)
  {
    assert ExprOk(Literal(a), s) && ExprOk(Literal(b), s);
    assert Value(Literal(a), s) == Success(NumberValue(a)) && Value(Literal(b), s) == Success(NumberValue(b));
    RunTrailingOperator(a, b, op, s);
    FinishOne(op, NumberValue(a), NumberValue(b));
  }

  /** `1 2 *` is 2: the final loop applies the operator to the two values before it. */
  lemma EvalTrailingOperatorExample(s: Sheet)
    requires WellFormed(s)
    ensures ReferencesInGrid(s, ["1", "2", "*"]) && Eval(["1", "2", "*"], s) == Success(2.0)
  {
    DigitNumbers();
    EvalTrailingOperator("1", "2", Times, s);
    var r := Arith("*", Num(1.0), Num(2.0));
    assert r.Success? && r.value == Num(2.0);
  }

  /** A ")" with no "(" below applies the one stacked operator to the two values. */
  lemma RunStrayClose(op: Op, x: real, y: real, rest: seq<string>, s: Sheet)
    requires WellFormed(s) && ReferencesInGrid(s, rest)
    ensures ReferencesInGrid(s, [")"] + rest)
    ensures BinaryValue(op, x, y).Failure? ==>
      Run([")"] + rest, Stacks([Num(x), Num(y)], [OpToken(op)]), s) == Failure(BinaryValue(op, x, y).error)
    ensures BinaryValue(op, x, y).Success? ==>
      Run([")"] + rest, Stacks([Num(x), Num(y)], [OpToken(op)]), s) ==
      Run(rest, Stacks([Num(BinaryValue(op, x, y).value)], []), s)
  {
    SymbolTokens();
    OpTokenFacts(op);
    var st := Stacks([Num(x), Num(y)], [OpToken(op)]);
    PopTwo(Num(x), Num(y));
    ArithOnNumbers(op, x, y);
    assert [OpToken(op)][..0] == [];
    assert ([")"] + rest)[0] == ")" && ([")"] + rest)[1..] == rest;
    match BinaryValue(op, x, y)
    case Failure(err) =>
      assert Reduce(st, ToParen) == Failure(err);
    case Success(w) =>
      assert [] + [Num(w)] == [Num(w)];
      assert ApplyOpTo(OpToken(op), st.values) == Success([Num(w)]);
      assert Reduce(st, ToParen) == Success(Stacks([Num(w)], []));
      assert Step(")", st, s) == Success(Stacks([Num(w)], []));
  }

  /** After a stray ")" has reduced `x o1 y` to one value, `o2 c` applies o2 to it at the end. */
  lemma RunStrayCloseSuffix(o1: Op, o2: Op, x: real, y: real, c: string, s: Sheet)
    requires WellFormed(s) && IsNumber(c)
    ensures ReferencesInGrid(s, [")", OpToken(o2), c])
    ensures BinaryValue(o1, x, y).Failure? ==>
      Run([")", OpToken(o2), c], Stacks([Num(x), Num(y)], [OpToken(o1)]), s) == Failure(BinaryValue(o1, x, y).error)
    ensures BinaryValue(o1, x, y).Success? ==>
      Run([")", OpToken(o2), c], Stacks([Num(x), Num(y)], [OpToken(o1)]), s).Success? &&
      Finish(Run([")", OpToken(o2), c], Stacks([Num(x), Num(y)], [OpToken(o1)]), s).value) ==
        BinaryValue(o2, BinaryValue(o1, x, y).value, NumberValue(c))
  {
    var z, t2 := NumberValue(c), OpToken(o2);
    OpTokenFacts(o2);
    LabelIsNumberFree(c);
    var tail := [t2, c];
    assert ReferencesInGrid(s, tail);
    assert [")"] + tail == [")", t2, c];
    RunStrayClose(o1, x, y, tail, s);
    if BinaryValue(o1, x, y).Success? {
      var w := BinaryValue(o1, x, y).value;
      RunNumber(c, [], Stacks([Num(w)], [t2]), s);
      assert [c] + [] == [c] && [Num(w)] + [Num(z)] == [Num(w), Num(z)];
      RunFirstOperator(o2, [c], Num(w), s);
      assert [t2] + [c] == tail;
      FinishOne(o2, w, z);
    }
  }

  /** The first three tokens of `a o1 b` followed by anything push a and b and stack o1. */
  lemma RunOneOperatorPrefix(a: string, o1: Op, b: string, rest: seq<string>, s: Sheet)
    requires WellFormed(s) && IsNumber(a) && IsNumber(b) && ReferencesInGrid(s, rest)
    ensures ReferencesInGrid(s, [a, OpToken(o1), b] + rest)
    ensures Run([a, OpToken(o1), b] + rest, Stacks([], []), s) ==
      Run(rest, Stacks([Num(NumberValue(a)), Num(NumberValue(b))], [OpToken(o1)]), s)
  {
    var x, y, t1 := NumberValue(a), NumberValue(b), OpToken(o1);
    RunNumber(b, rest, Stacks([Num(x)], [t1]), s);
    RunFirstOperator(o1, [b] + rest, Num(x), s);
    RunNumber(a, [t1] + ([b] + rest), Stacks([], []), s);
    assert [a, t1, b] + rest == [a] + ([t1] + ([b] + rest));
    assert [] + [Num(x)] == [Num(x)] && [Num(x)] + [Num(y)] == [Num(x), Num(y)];
  }

  /** In `a o1 b ) o2 c` the stray ")" closes `a o1 b` as if it had been opened first. */
  lemma EvalStrayCloseGroups(a: string, o1: Op, b: string, o2: Op, c: string, s: Sheet)
    requires WellFormed(s) && IsNumber(a) && IsNumber(b) && IsNumber(c)
    ensures ReferencesInGrid(s, [a, OpToken(o1), b, ")", OpToken(o2), c])
    ensures ExprOk(Binary(o2, Binary(o1, Literal(a), Literal(b)), Literal(c)), s)
    ensures Eval([a, OpToken(o1), b, ")", OpToken(o2), c], s) ==
      Value(Binary(o2, Binary(o1, Literal(a), Literal(b)), Literal(c)), s)
  {
    assert ExprOk(Literal(a), s) && ExprOk(Literal(b), s) && ExprOk(Literal(c), s);
    assert ExprOk(Binary(o1, Literal(a), Literal(b)), s);
    var x, y := NumberValue(a), NumberValue(b);
    var tail := [")", OpToken(o2), c];
    RunStrayCloseSuffix(o1, o2, x, y, c, s);
    RunOneOperatorPrefix(a, o1, b, tail, s);
    assert [a, OpToken(o1), b] + tail == [a, OpToken(o1), b, ")", OpToken(o2), c];
    var inner := Binary(o1, Literal(a), Literal(b));
    assert Value(inner, s) == BinaryValue(o1, x, y);
  }

  /** `1 + 2 ) * 3` is 9: the stray ")" applies the `+`, and the `*` then takes its sum. */
  lemma EvalStrayCloseExample(s: Sheet)
    requires WellFormed(s)
    ensures ReferencesInGrid(s, ["1", "+", "2", ")", "*", "3"]) && Eval(["1", "+", "2", ")", "*", "3"], s) == Success(9.0)
  {
    DigitNumbers();
    EvalStrayCloseGroups("1", Plus, "2", Times, "3", s);
    assert Value(Binary(Plus, Literal("1"), Literal("2")), s) == Success(3.0);
    var r := Arith("*", Num(3.0), Num(3.0));
    assert r.Success? && r.value == Num(9.0);
  }

  /** `1 + 2 * 3` is 7: multiplication binds tighter. */
  lemma EvalPrecedenceExample(s: Sheet)
    requires WellFormed(s)
    ensures ReferencesInGrid(s, ["1", "+", "2", "*", "3"]) && Eval(["1", "+", "2", "*", "3"], s) == Success(7.0)
  {
    DigitNumbers();
    EvalTighterRight("1", Plus, "2", Times, "3", s);
    var r := Arith("*", Num(2.0), Num(3.0));
    assert r.Success? && r.value == Num(6.0);
    assert Value(Binary(Times, Literal("2"), Literal("3")), s) == Success(6.0);
  }

  /** `8 / 2 / 2` is 2: division associates to the left. */
  lemma EvalAssociativityExample(s: Sheet)
    requires WellFormed(s)
    ensures ReferencesInGrid(s, ["8", "/", "2", "/", "2"]) && Eval(["8", "/", "2", "/", "2"], s) == Success(2.0)
  {
    DigitNumbers();
    EvalLeftAssociative("8", Divide, "2", Divide, "2", s);
    assert Value(Binary(Divide, Literal("8"), Literal("2")), s) == Success(4.0);
  }
}
