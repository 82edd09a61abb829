/**
  The evaluator of q_expression.c: `lval_eval`, `lval_eval_sexpr`, the
  dispatch `builtin` and the one builtin that re-enters the evaluator,
  `eval`. The functions state the value an expression evaluates to; the
  methods do the source's in-place work on the S-expression container
  and are proved to compute those functions.

  Evaluation terminates because no step makes a value larger: a child
  evaluates to a value no larger than itself, and a builtin's result is no
  larger than its argument list plus one container (`Values.Size`).
 */
module Evaluator {
  import opened Wrappers
  import opened CRuntime
  import opened Values
  import opened Builtins

  const EvalTooMany := "Function 'eval' passed too many arguments!"
  const EvalBadType := "Function 'eval' passed incorrect type!"
  const UnknownFunction := "Unknown Function!"
  const NotSymbol := "S-expression does not start with symbol!"

  // `strstr("+-*/", func) != NULL`: the name is a substring of "+-*/".
  predicate IsOperatorName(name: string) {
    Contains("+-*/", name)
  }

  /** A value in normal form is anything but a non-empty S-expression. */
  predicate Normal(v: Lval) {
    v.Sexpr? ==> v.cell == []
  }

  /** The index of the leftmost error among `es`, if there is one. */
  function FirstErr(es: seq<Lval>): (r: Option<nat>)
    ensures r.Some? ==> r.value < |es| && es[r.value].Err? && forall j :: 0 <= j < r.value ==> !es[j].Err?
    ensures r.None? ==> forall j :: 0 <= j < |es| ==> !es[j].Err?
    decreases |es|
  {
    if es == [] then None
    else if es[0].Err? then Some(0)
    else
      match FirstErr(es[1..])
      case None => None
      case Some(i) => Some(i + 1)
  }

  // ---------------------------------------------------------------------------
  // Specifications

  /**
    `lval_eval`: an S-expression is reduced; every other value is already
    in normal form and is returned as it is.
   */
  function Eval(v: Lval): (r: Lval)
    ensures Size(r) <= Size(v)
    ensures !v.Sexpr? ==> r == v
    decreases Size(v), 4
  {
    if v.Sexpr? then EvalSexpr(v.cell) else v
  }

  /** The children of an S-expression, each one evaluated, in order. */
  function EvalAll(cs: seq<Lval>): (r: seq<Lval>)
    ensures |r| == |cs| && SizeAll(r) <= SizeAll(cs)
    decreases SizeAll(cs), 5
  {
    if cs == [] then []
    else
      var r := [Eval(cs[0])] + EvalAll(cs[1..]);
      assert r[1..] == EvalAll(cs[1..]);
      r
  }

  /** Element `i` of the evaluated children is the value of child `i`. */
  lemma {:induction false} EvalAllAt(cs: seq<Lval>, i: nat)
    requires i < |cs|
    ensures EvalAll(cs)[i] == Eval(cs[i])
    decreases |cs|
  {
    if i > 0 {
      EvalAllAt(cs[1..], i - 1);
    }
  }

  /** `lval_eval_sexpr`: evaluate the children, then reduce the expression they form. */
  function EvalSexpr(cs: seq<Lval>): (r: Lval)
    ensures Size(r) <= 1 + SizeAll(cs)
    decreases 1 + SizeAll(cs), 3
  {
    Reduce(EvalAll(cs))
  }

  /**
    The rest of `lval_eval_sexpr`, on the evaluated children `es`: the
    leftmost error wins; an empty expression is itself; a single child is
    unwrapped; otherwise the first child must be a symbol naming the
    builtin the others are passed to.
   */
  function Reduce(es: seq<Lval>): (r: Lval)
    ensures Size(r) <= 1 + SizeAll(es)
    decreases 1 + SizeAll(es), 2
  {
    match FirstErr(es)
    case Some(i) => SizeAllBounds(es, i); es[i]
    case None =>
      if |es| == 0 then Sexpr([])
      else if |es| == 1 then es[0]
      else if !es[0].Sym? then Err(NotSymbol)
      else Builtin(es[0].sym, es[1..])
  }

  // `builtin`: the first name that matches, in the source's order; the
  // operators are recognised by `strstr`, so any substring of "+-*/"
  // reaches `builtin_op`. `join` and the operators pop their first
  // argument unchecked, so they need one.
  function Builtin(name: string, args: seq<Lval>): (r: Lval)
    requires name == "join" || IsOperatorName(name) ==> |args| >= 1
    ensures Size(r) <= 1 + SizeAll(args)
    decreases SizeAll(args) + 1, 1
  {
    HeadTailSize(args);
    if name == "list" then List(args)
    else if name == "head" then Head(args)
    else if name == "tail" then Tail(args)
    else if name == "join" then JoinSize(args); Join(args)
    else if name == "eval" then EvalBuiltin(args)
    else if IsOperatorName(name) then Op(name, args)
    else Err(UnknownFunction)
  }

  /** `builtin_eval`: the single Q-expression argument, retagged as an S-expression and evaluated. */
  function EvalBuiltin(args: seq<Lval>): (r: Lval)
    ensures Size(r) <= SizeAll(args) + 1
    decreases SizeAll(args) + 1, 0
  {
    if |args| != 1 then Err(EvalTooMany)
    else if !args[0].Qexpr? then Err(EvalBadType)
    else SizeAllBounds(args, 0); Eval(Sexpr(args[0].cell))
  }

  // ---------------------------------------------------------------------------
  // The in-place implementations

  /** `lval_eval`: an S-expression is opened as a container and reduced in place. */
  method LvalEval(v: Lval) returns (r: Lval)
    ensures r == Eval(v)
    decreases Size(v), 4
  {
    if v.Sexpr? {
      var e := new Expr.Of(v);
      r := LvalEvalSexpr(e);
    } else {
      r := v;
    }
  }

  /** `lval_eval_sexpr`: overwrite each cell with its value, then reduce the container. */
  method LvalEvalSexpr(v: Expr) returns (r: Lval)
    requires v.Valid() && v.kind == SexprType
    modifies v, v.cell
    ensures r == EvalSexpr(old(v.Elements()))
    decreases 1 + SizeAll(v.Elements()), 3
  {
    EvalCells(v);
    r := ReduceCells(v);
  }

  /**
    The rest of `lval_eval_sexpr`: take the first error, unwrap zero or one
    element, then pop the leading symbol and hand the container to the
    builtin it names.
   */
  method ReduceCells(v: Expr) returns (r: Lval)
    requires v.Valid() && v.kind == SexprType
    modifies v, v.cell
    ensures r == Reduce(old(v.Elements()))
    decreases 1 + SizeAll(v.Elements()), 2
  {
    ghost var es := v.Elements();
    for i := 0 to v.count
      invariant forall k :: 0 <= k < i ==> !v.cell[k].Err?
    {
      if v.cell[i].Err? {
        r := v.Take(i);
        return;
      }
    }
    if v.count == 0 {
      return v.ToLval();
    }
    if v.count == 1 {
      r := v.Take(0);
      return;
    }
    var f := v.Pop(0);
    if !f.Sym? {
      return Err(NotSymbol);
    }
    assert v.Elements() == es[1..];
    assert SizeAll(es) == Size(es[0]) + SizeAll(es[1..]);
    r := CallBuiltin(v, f.sym);
  }

  /** The first loop of `lval_eval_sexpr`: replace each cell, left to right, by its value. */
  method EvalCells(v: Expr)
    requires v.Valid()
    modifies v.cell
    ensures v.Valid() && v.kind == old(v.kind) && v.Elements() == EvalAll(old(v.Elements()))
    decreases SizeAll(v.Elements()), 6
  {
    ghost var cs := v.Elements();
    for i := 0 to v.count
      invariant forall k :: 0 <= k < i ==> v.cell[k] == Eval(cs[k])
      invariant forall k :: i <= k < v.count ==> v.cell[k] == cs[k]
    {
      SizeAllBounds(cs, i);
      var e := LvalEval(v.cell[i]);
      v.cell[i] := e;
    }
    forall k | 0 <= k < |cs| {
      EvalAllAt(cs, k);
    }
  }

  /** `builtin`: compare the name with each builtin's in turn and call the first that matches. */
  method CallBuiltin(a: Expr, func: string) returns (r: Lval)
    requires a.Valid()
    requires func == "join" || IsOperatorName(func) ==> a.count >= 1
    modifies a, a.cell
    ensures r == Builtin(func, old(a.Elements()))
    decreases SizeAll(a.Elements()) + 1, 1
  {
    if func == "list" {
      r := BuiltinList(a);
    } else if func == "head" {
      r := BuiltinHead(a);
    } else if func == "tail" {
      r := BuiltinTail(a);
    } else if func == "join" {
      r := BuiltinJoin(a);
    } else if func == "eval" {
      r := BuiltinEval(a);
    } else if IsOperatorName(func) {
      r := BuiltinOp(a, func);
    } else {
      r := Err(UnknownFunction);
    }
  }

  /**
    `builtin_eval`: check the argument, take it, retag it as an
    S-expression in place and evaluate it (`lval_eval` on an S-expression
    goes straight to `lval_eval_sexpr`).
   */
  method BuiltinEval(a: Expr) returns (r: Lval)
    requires a.Valid()
    modifies a, a.cell
    ensures r == EvalBuiltin(old(a.Elements()))
    decreases SizeAll(a.Elements()) + 1, 0
  {
    if a.count != 1 {
      return Err(EvalTooMany);
    }
    if !a.cell[0].Qexpr? {
      return Err(EvalBadType);
    }
    ghost var args := a.Elements();
    var q := a.Take(0);
    var x := new Expr.Of(q);
    x.kind := SexprType;
    assert x.Elements() == q.cell;
    SizeAllBounds(args, 0);
    r := LvalEvalSexpr(x);
  }

  // ---------------------------------------------------------------------------
  // Properties of evaluation

  /** The result of evaluation is never a non-empty S-expression. */
  lemma {:induction false} EvalNormal(v: Lval)
    ensures Normal(Eval(v))
    decreases Size(v)
  {
    if v.Sexpr? {
      var es := EvalAll(v.cell);
      assert Eval(v) == Reduce(es);
      if FirstErr(es).None? && |es| == 1 {
        EvalAllAt(v.cell, 0);
        SizeAllBounds(v.cell, 0);
        EvalNormal(v.cell[0]);
      } else if FirstErr(es).None? && |es| >= 2 && es[0].Sym? {
        var name, args := es[0].sym, es[1..];
        assert Reduce(es) == Builtin(name, args);
        if name == "eval" && |args| == 1 && args[0].Qexpr? {
          assert SizeAll(es) == Size(es[0]) + SizeAll(args);
          SizeAllBounds(args, 0);
          EvalNormal(Sexpr(args[0].cell));
          assert Builtin(name, args) == Eval(Sexpr(args[0].cell));
        } else {
          BuiltinNormal(name, args);
        }
      }
    }
  }

  /** Every builtin but a successful `eval` returns something other than an S-expression. */
  lemma BuiltinNormal(name: string, args: seq<Lval>)
    requires name == "join" || IsOperatorName(name) ==> |args| >= 1
    requires !(name == "eval" && |args| == 1 && args[0].Qexpr?)
    ensures !Builtin(name, args).Sexpr?
  {
  }

  /**
    `eval` checks, in this order, that there is exactly one argument and
    that it is a Q-expression; it then evaluates that argument's elements
    as an S-expression.
   */
  lemma EvalBuiltinChecks(a: seq<Lval>)
    ensures |a| != 1 ==> EvalBuiltin(a) == Err(EvalTooMany)
    ensures |a| == 1 && !a[0].Qexpr? ==> EvalBuiltin(a) == Err(EvalBadType)
    ensures |a| == 1 && a[0].Qexpr? ==> EvalBuiltin(a) == EvalSexpr(a[0].cell)
    ensures !EvalBuiltin(a).Err? ==> |a| == 1 && a[0].Qexpr?
  {
  }

  /** Evaluation reaches a normal form: evaluating a result again changes nothing. */
  lemma EvalIdempotent(v: Lval)
    ensures Eval(Eval(v)) == Eval(v)
  {
    EvalNormal(v);
    var r := Eval(v);
    if r.Sexpr? {
      assert r == Sexpr([]);
      assert EvalAll([]) == [];
    }
  }

  /** When some child evaluates to an error, the leftmost such error is the result. */
  lemma EvalSexprLeftmostError(cs: seq<Lval>, i: nat)
    requires i < |cs| && Eval(cs[i]).Err?
    requires forall j :: 0 <= j < i ==> !Eval(cs[j]).Err?
    ensures EvalSexpr(cs) == Eval(cs[i])
  {
    EvalAllFirstErr(cs, i);
  }

  /** The leftmost child whose value is an error gives the leftmost error among the evaluated children. */
  lemma EvalAllFirstErr(cs: seq<Lval>, i: nat)
    requires i < |cs| && Eval(cs[i]).Err?
    requires forall j :: 0 <= j < i ==> !Eval(cs[j]).Err?
    ensures FirstErr(EvalAll(cs)) == Some(i) && EvalAll(cs)[i] == Eval(cs[i])
  {
    EvalAllNoError(cs, i);
    EvalAllAt(cs, i);
    FirstErrAt(EvalAll(cs), i);
  }

  /** An error with no error before it is the one `FirstErr` finds. */
  lemma FirstErrAt(es: seq<Lval>, i: nat)
    requires i < |es| && es[i].Err?
    requires forall j :: 0 <= j < i ==> !es[j].Err?
    ensures FirstErr(es) == Some(i)
  {
  }

  lemma ReduceLeftmostError(es: seq<Lval>, i: nat)
    requires i < |es| && es[i].Err?
    requires forall j :: 0 <= j < i ==> !es[j].Err?
    ensures Reduce(es) == es[i]
  {
    FirstErrAt(es, i);
  }

  /**
    When no child evaluates to an error, the empty expression is itself and
    a single child is unwrapped to its value.
   */
  lemma EvalSexprUnwrap(cs: seq<Lval>)
    requires |cs| <= 1 && forall j :: 0 <= j < |cs| ==> !Eval(cs[j]).Err?
    ensures |cs| == 0 ==> EvalSexpr(cs) == Sexpr([])
    ensures |cs| == 1 ==> EvalSexpr(cs) == Eval(cs[0])
  {
    EvalAllNoError(cs, |cs|);
    ReduceNoError(EvalAll(cs));
    if |cs| == 1 {
      EvalAllAt(cs, 0);
    }
  }

  /**
    When there are at least two children and none evaluates to an error, a
    first child whose value is not a symbol is an error, and otherwise the
    symbol's builtin is applied to the values of the other children.
   */
  lemma EvalSexprCall(cs: seq<Lval>)
    requires |cs| >= 2 && forall j :: 0 <= j < |cs| ==> !Eval(cs[j]).Err?
    ensures !Eval(cs[0]).Sym? ==> EvalSexpr(cs) == Err(NotSymbol)
    ensures Eval(cs[0]).Sym? ==> EvalSexpr(cs) == Builtin(Eval(cs[0]).sym, EvalAll(cs[1..]))
  {
    var es := EvalAll(cs);
    EvalAllNoError(cs, |cs|);
    ReduceNoError(es);
    assert es[0] == Eval(cs[0]) && es[1..] == EvalAll(cs[1..]);
  }

  /** No error among the values of the first `n` children means no error among the first `n` evaluated children. */
  lemma {:induction false} EvalAllNoError(cs: seq<Lval>, n: nat)
    requires n <= |cs| && forall j :: 0 <= j < n ==> !Eval(cs[j]).Err?
    ensures forall j :: 0 <= j < n ==> !EvalAll(cs)[j].Err?
    decreases |cs|
  {
    if n > 0 {
      assert forall j :: 1 <= j < n ==> cs[1..][j - 1] == cs[j];
      EvalAllNoError(cs[1..], n - 1);
    }
  }

  lemma ReduceNoError(es: seq<Lval>)
    requires forall j :: 0 <= j < |es| ==> !es[j].Err?
    ensures |es| == 0 ==> Reduce(es) == Sexpr([])
    ensures |es| == 1 ==> Reduce(es) == es[0]
    ensures |es| >= 2 && !es[0].Sym? ==> Reduce(es) == Err(NotSymbol)
    ensures |es| >= 2 && es[0].Sym? ==> Reduce(es) == Builtin(es[0].sym, es[1..])
  {
    assert FirstErr(es) == None;
  }

  /**
    The grammar's symbols reach their own builtins: each of `+ - * /` is
    recognised as an operator, and a name that is neither a builtin's name
    nor a substring of "+-*" + "/" is an unknown function.
   */
  lemma GrammarDispatch(name: string, args: seq<Lval>)
    requires |args| >= 1
    ensures name in ["+", "-", "*", "/"] ==> Builtin(name, args) == Op(name, args)
    ensures name !in ["list", "head", "tail", "join", "eval"] && !IsOperatorName(name) ==>
      Builtin(name, args) == Err(UnknownFunction)
  {
    var ops := "+-*/";
    assert OccursAt(ops, "+", 0) && OccursAt(ops, "-", 1) && OccursAt(ops, "*", 2) && OccursAt(ops, "/", 3);
  }

  /**
    Because `builtin` matches operators with `strstr`, a name such as "+-"
    also reaches `builtin_op`; as it equals none of the four operators,
    the fold leaves the first argument as it is.
   */
  lemma OperatorSubstring()
    ensures IsOperatorName("+-") && Builtin("+-", [Num(5), Num(3)]) == Num(5)
  {
    assert OccursAt("+-*/", "+-", 0);
    assert Fold("+-", 5, [Num(3)]) == Fold("+-", 5, []);
  }
}
