/**
  The earlier, arithmetic-only step of the interpreter (error_handling.c):
  values are plain structs passed by value, holding either a number or a
  numeric error code; `eval` walks the parse tree and folds `eval_op` over
  the operands of each operator node.
 */
module ErrorHandling {
  import opened CRuntime
  import opened ParseTree

  /** LERR_DIV_ZERO, LERR_BAD_OP, LERR_BAD_NUM. */
  datatype ErrCode = DivZero | BadOp | BadNum

  /** The by-value `lval`: LVAL_NUM with its `num`, or LVAL_ERR with its `err` code. */
  datatype Lval = Num(num: int) | Err(err: ErrCode)

  // ---------------------------------------------------------------------------
  // lval_print

  function ErrorMessage(e: ErrCode): string {
    match e
    case DivZero => "Error: Division By Zero!"
    case BadOp => "Error: Invalid Operator!"
    case BadNum => "Error: Invalid Number!"
  }

  function Print(v: Lval): string {
    match v
    case Num(n) => LongToString(n)
    case Err(e) => ErrorMessage(e)
  }

  /** Each error code prints as its own fixed message, and no message reads as a number. */
  lemma PrintedErrorsDistinct(e1: ErrCode, e2: ErrCode, n: int)
    ensures e1 != e2 ==> Print(Err(e1)) != Print(Err(e2))
    ensures Print(Err(e1)) != Print(Num(n))
  {
    var m1, m2 := ErrorMessage(e1), ErrorMessage(e2);
    if e1 != e2 {
      assert m1[7] != m2[7] || m1[15] != m2[15];
    }
    assert !IsDigit(m1[0]) && m1[0] != '-';
    assert IsNumeral(Print(Num(n)));
  }

  // ---------------------------------------------------------------------------
  // eval_op

  function EvalOp(x: Lval, op: string, y: Lval): Lval {
    if x.Err? then x
    else if y.Err? then y
    else if op == "+" then Num(x.num + y.num)
    else if op == "-" then Num(x.num - y.num)
    else if op == "*" then Num(x.num * y.num)
    else if op == "/" then (if y.num == 0 then Err(DivZero) else Num(TruncDiv(x.num, y.num)))
    else Err(BadOp)
  }

  predicate IsOperator(op: string) {
    op == "+" || op == "-" || op == "*" || op == "/"
  }

  /**
    What `eval_op` yields: an error operand is passed through, the left one
    first; otherwise an error exactly for an unknown operator or a zero
    divisor, and the number computed by the operator in every other case.
   */
  lemma EvalOpCases(x: Lval, op: string, y: Lval)
    ensures x.Err? ==> EvalOp(x, op, y) == x
    ensures !x.Err? && y.Err? ==> EvalOp(x, op, y) == y
    ensures x.Num? && y.Num? ==>
      (EvalOp(x, op, y).Err? <==> !IsOperator(op) || (op == "/" && y.num == 0))
    ensures x.Num? && y.Num? && !IsOperator(op) ==> EvalOp(x, op, y) == Err(BadOp)
    ensures x.Num? && y.Num? && op == "/" && y.num == 0 ==> EvalOp(x, op, y) == Err(DivZero)
    ensures x.Num? && y.Num? && op == "+" ==> EvalOp(x, op, y) == Num(x.num + y.num)
    ensures x.Num? && y.Num? && op == "-" ==> EvalOp(x, op, y) == Num(x.num - y.num)
    ensures x.Num? && y.Num? && op == "*" ==> EvalOp(x, op, y) == Num(x.num * y.num)
  {
  }

  /** A quotient from `/` is C's truncated quotient: its remainder is smaller than the divisor and follows the dividend's sign. */
  lemma EvalOpDivision(x: int, y: int)
    requires y != 0
    ensures EvalOp(Num(x), "/", Num(y)).Num?
    ensures var r := x - EvalOp(Num(x), "/", Num(y)).num * y;
      Abs(r) < Abs(y) && (r == 0 || (r < 0 <==> x < 0))
  {
    TruncDivRemainder(x, y);
  }

  // ---------------------------------------------------------------------------
  // Number literals (lines 107-111)

  function ReadNumber(s: string): (v: Lval)
    requires IsNumeral(s)
  {
    match StrToLong(s)
    case Some(x) => Num(x)
    case None => Err(BadNum)
  }

  /** A literal a `long` holds reads as its value, any other as LERR_BAD_NUM; a printed number a `long` holds reads back as itself. */
  lemma ReadNumberRange(s: string, n: int)
    requires IsNumeral(s)
    ensures InLong(DecimalValue(s)) ==> ReadNumber(s) == Num(DecimalValue(s))
    ensures !InLong(DecimalValue(s)) ==> ReadNumber(s) == Err(BadNum)
    ensures InLong(n) ==> ReadNumber(Print(Num(n))) == Num(n)
  {
  }

  // ---------------------------------------------------------------------------
  // eval over the parse tree

  /** The loop guard `strstr(t->children[i]->tag, "expr")`: the child is an operand. */
  predicate IsOperand(t: Node) {
    HasTag(t, "expr")
  }

  /** The index at which the operand loop starting at `i` stops: the first child from `i` on that is not an operand. */
  function OperandsEnd(cs: seq<Node>, i: nat): (j: nat)
    requires i <= |cs|
    ensures i <= j <= |cs|
    ensures forall k :: i <= k < j ==> IsOperand(cs[k])
    ensures j < |cs| ==> !IsOperand(cs[j])
    decreases |cs| - i
  {
    if i == |cs| || !IsOperand(cs[i]) then i else OperandsEnd(cs, i + 1)
  }

  /**
    A tree `eval` can walk without reading past the children: a number leaf
    whose text is a numeral, or an operator node with the operator at child 1,
    a first operand at child 2, further operands from child 3 on, and a
    closing child (a ')' or the end-of-input marker) after them.
   */
  predicate WellFormed(t: Node)
    decreases t
  {
    if HasTag(t, "number") then IsNumeral(t.contents)
    else
      && |t.children| >= 3
      && WellFormed(t.children[2])
      && OperandsEnd(t.children, 3) < |t.children|
      && forall k :: 3 <= k < OperandsEnd(t.children, 3) ==> WellFormed(t.children[k])
  }

  /** The left fold of `eval_op` with operator `op`, from accumulator `x`, over `ys`. */
  function FoldOps(x: Lval, op: string, ys: seq<Lval>): Lval
    decreases |ys|
  {
    if ys == [] then x else FoldOps(EvalOp(x, op, ys[0]), op, ys[1..])
  }

  /** What `eval` computes: a literal's value, or the fold of the operator over the values of the operands. */
  function Value(t: Node): Lval
    requires WellFormed(t)
    decreases t, 1, 0
  {
    if HasTag(t, "number") then ReadNumber(t.contents)
    else FoldOps(Value(t.children[2]), t.children[1].contents, OperandValues(t, 3))
  }

  /** The values of the operands of `t` from child `i` up to where the operand loop stops. */
  function OperandValues(t: Node, i: nat): (vs: seq<Lval>)
    requires WellFormed(t) && !HasTag(t, "number") && 3 <= i <= OperandsEnd(t.children, 3)
    ensures |vs| == OperandsEnd(t.children, 3) - i
    decreases t, 0, OperandsEnd(t.children, 3) - i
  {
    if i == OperandsEnd(t.children, 3) then []
    else [Value(t.children[i])] + OperandValues(t, i + 1)
  }

  /** `eval`: the operand loop of lines 117-121, proved to compute `Value`. */
  method Eval(t: Node) returns (x: Lval)
    requires WellFormed(t)
    ensures x == Value(t)
    decreases t
  {
    if HasTag(t, "number") {
      return ReadNumber(t.contents);
    }
    var op := t.children[1].contents;
    x := Eval(t.children[2]);
    var i := 3;
    while IsOperand(t.children[i])
      invariant 3 <= i <= OperandsEnd(t.children, 3)
      invariant FoldOps(x, op, OperandValues(t, i)) == Value(t)
      decreases |t.children| - i
    {
      var y := Eval(t.children[i]);
      x := EvalOp(x, op, y);
      i := i + 1;
    }
  }

  // ---------------------------------------------------------------------------
  // Error propagation through the fold

  /** Once the accumulator is an error, no later operand changes it. */
  lemma {:induction false} FoldOpsKeepsError(x: Lval, op: string, ys: seq<Lval>)
    requires x.Err?
    ensures FoldOps(x, op, ys) == x
    decreases |ys|
  {
    if ys != [] {
      FoldOpsKeepsError(EvalOp(x, op, ys[0]), op, ys[1..]);
    }
  }

  /**
    The first error operand `ys[k]` decides the result unless the fold of
    the operands before it has already failed (a zero divisor or an unknown
    operator), in which case that earlier error is kept.
   */
  lemma {:induction false} FoldOpsFirstErrorOperand(x: Lval, op: string, ys: seq<Lval>, k: nat)
    requires x.Num? && k < |ys| && ys[k].Err?
    requires forall j :: 0 <= j < k ==> ys[j].Num?
    ensures var p := FoldOps(x, op, ys[..k]);
      FoldOps(x, op, ys) == if p.Err? then p else ys[k]
    decreases k
  {
    var x' := EvalOp(x, op, ys[0]);
    if k == 0 {
      assert x' == ys[0];
      FoldOpsKeepsError(x', op, ys[1..]);
    } else {
      assert ys[..k][0] == ys[0] && ys[..k][1..] == ys[1..][..k - 1];
      if x'.Err? {
        FoldOpsKeepsError(x', op, ys[1..]);
        FoldOpsKeepsError(x', op, ys[..k][1..]);
      } else {
        FoldOpsFirstErrorOperand(x', op, ys[1..], k - 1);
      }
    }
  }

  /** `+`, `-` and `*` never fail on numbers. */
  lemma {:induction false} FoldArithmeticOfNumbers(x: Lval, op: string, ys: seq<Lval>)
    requires op == "+" || op == "-" || op == "*"
    requires x.Num? && forall j :: 0 <= j < |ys| ==> ys[j].Num?
    ensures FoldOps(x, op, ys).Num?
    decreases |ys|
  {
    if ys != [] {
      FoldArithmeticOfNumbers(EvalOp(x, op, ys[0]), op, ys[1..]);
    }
  }

  /**
    For `+`, `-` and `*` the result is the leftmost error among all the
    operands (the first operand included) when there is one.
   */
  lemma ArithmeticLeftmostError(op: string, operands: seq<Lval>, k: nat)
    requires op == "+" || op == "-" || op == "*"
    requires k < |operands| && operands[k].Err?
    requires forall j :: 0 <= j < k ==> operands[j].Num?
    ensures FoldOps(operands[0], op, operands[1..]) == operands[k]
  {
    if k == 0 {
      FoldOpsKeepsError(operands[0], op, operands[1..]);
    } else {
      var ys := operands[1..];
      FoldOpsFirstErrorOperand(operands[0], op, ys, k - 1);
      FoldArithmeticOfNumbers(operands[0], op, ys[..k - 1]);
    }
  }

  /**
    For `/` the leftmost error operand does not always win: in `/ 1 0 N`
    with an out-of-range literal N, the division by zero comes first.
   */
  lemma DivisionByZeroBeforeBadNumber()
    ensures FoldOps(Num(1), "/", [Num(0), Err(BadNum)]) == Err(DivZero)
  {
    FoldOpsKeepsError(Err(DivZero), "/", [Err(BadNum)]);
  }

  // ---------------------------------------------------------------------------
  // The fold on numbers against independent definitions

  function Sum(ys: seq<Lval>): int
    requires forall j :: 0 <= j < |ys| ==> ys[j].Num?
  {
    if ys == [] then 0 else ys[0].num + Sum(ys[1..])
  }

  function Product(ys: seq<Lval>): int
    requires forall j :: 0 <= j < |ys| ==> ys[j].Num?
  {
    if ys == [] then 1 else ys[0].num * Product(ys[1..])
  }

  /** `+` adds all the operands, `-` subtracts the rest from the first, `*` multiplies them. */
  lemma {:induction false} FoldArithmetic(a: int, ys: seq<Lval>)
    requires forall j :: 0 <= j < |ys| ==> ys[j].Num?
    ensures FoldOps(Num(a), "+", ys) == Num(a + Sum(ys))
    ensures FoldOps(Num(a), "-", ys) == Num(a - Sum(ys))
    ensures FoldOps(Num(a), "*", ys) == Num(a * Product(ys))
    decreases |ys|
  {
    if ys != [] {
      var y := ys[0].num;
      FoldArithmetic(a + y, ys[1..]);
      FoldArithmetic(a - y, ys[1..]);
      FoldArithmetic(a * y, ys[1..]);
      assert a * y * Product(ys[1..]) == a * (y * Product(ys[1..]));
    }
  }
}
