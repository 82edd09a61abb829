/**
  The builtins of q_expression.c that do not re-enter the evaluator:
  `list`, `head`, `tail`, `join` and the arithmetic operators. Each one is
  a function stating its result on the argument list and a method doing
  the source's in-place work on the argument container, proved to compute
  that function. Every builtin checks its arguments before it acts and
  returns an `Err` value when a check fails.
 */
module Builtins {
  import opened CRuntime
  import opened Values

  const HeadTooMany := "Function 'head' passed too many arguments!"
  const HeadBadType := "Function 'head' passed incorrect type!"
  const HeadEmpty := "Function 'head' passed {}!"
  const TailTooMany := "Function 'tail' passed too many arguments!"
  const TailBadType := "Function 'tail' passed incorrect type!"
  const TailEmpty := "Function 'tail' passed {}!"
  const JoinBadType := "Function 'join' passed incorrect type!"
  const NotNumber := "Cannot operate on non-number!"
  const DivisionByZero := "Division by Zero!"

  predicate AllQexpr(a: seq<Lval>) {
    forall i :: 0 <= i < |a| ==> a[i].Qexpr?
  }

  predicate AllNum(a: seq<Lval>) {
    forall i :: 0 <= i < |a| ==> a[i].Num?
  }

  // ---------------------------------------------------------------------------
  // Specifications

  /** `list`: the arguments, retagged as a Q-expression. */
  function List(a: seq<Lval>): Lval {
    Qexpr(a)
  }

  /** `head`: a Q-expression holding only the first element of the single Q-expression argument. */
  function Head(a: seq<Lval>): Lval {
    if |a| != 1 then Err(HeadTooMany)
    else if !a[0].Qexpr? then Err(HeadBadType)
    else if a[0].cell == [] then Err(HeadEmpty)
    else Qexpr(a[0].cell[..1])
  }

  /** `tail`: the single Q-expression argument without its first element. */
  function Tail(a: seq<Lval>): Lval {
    if |a| != 1 then Err(TailTooMany)
    else if !a[0].Qexpr? then Err(TailBadType)
    else if a[0].cell == [] then Err(TailEmpty)
    else Qexpr(a[0].cell[1..])
  }

  /** The elements of the Q-expressions `qs`, one Q-expression after another. */
  function Concat(qs: seq<Lval>): seq<Lval>
    requires AllQexpr(qs)
  {
    if qs == [] then [] else qs[0].cell + Concat(qs[1..])
  }

  /** `join`: all the elements of the Q-expression arguments, in argument order. */
  function Join(a: seq<Lval>): Lval
    requires |a| >= 1
  {
    if AllQexpr(a) then Qexpr(Concat(a)) else Err(JoinBadType)
  }

  /** One pass of the fold's body: the four `strcmp` tests of the source, in order. */
  function Step(op: string, x: int, y: int): int
    requires op == "/" ==> y != 0
  {
    var x := if op == "+" then x + y else x;
    var x := if op == "-" then x - y else x;
    var x := if op == "*" then x * y else x;
    if op == "/" then TruncDiv(x, y) else x
  }

  /** The fold from accumulator `x` over the numbers `ys`, stopping at the first zero divisor of `/`. */
  function Fold(op: string, x: int, ys: seq<Lval>): (r: Lval)
    requires AllNum(ys)
    ensures r.Num? || r == Err(DivisionByZero)
    decreases |ys|
  {
    if ys == [] then Num(x)
    else if op == "/" && ys[0].num == 0 then Err(DivisionByZero)
    else Fold(op, Step(op, x, ys[0].num), ys[1..])
  }

  /** `builtin_op`: every argument must be a number; `-` with one argument negates it; otherwise a left fold from the first argument. */
  function Op(op: string, a: seq<Lval>): (r: Lval)
    requires |a| >= 1
    ensures r.Num? || r == Err(NotNumber) || r == Err(DivisionByZero)
  {
    if !AllNum(a) then Err(NotNumber)
    else
      var x := if op == "-" && |a| == 1 then -a[0].num else a[0].num;
      Fold(op, x, a[1..])
  }

  // ---------------------------------------------------------------------------
  // The in-place implementations

  /** `builtin_list`: retag the argument container as a Q-expression. */
  method BuiltinList(a: Expr) returns (r: Lval)
    requires a.Valid()
    modifies a
    ensures a.Valid() && a.kind == QexprType && a.cell == old(a.cell) && a.Elements() == old(a.Elements())
    ensures r == List(old(a.Elements()))
  {
    a.kind := QexprType;
    r := a.ToLval();
  }

  /** `builtin_head`: take the argument, then pop its second element until only the first is left. */
  method BuiltinHead(a: Expr) returns (r: Lval)
    requires a.Valid()
    modifies a, a.cell
    ensures r == Head(old(a.Elements()))
  {
    if a.count != 1 {
      return Err(HeadTooMany);
    }
    if !a.cell[0].Qexpr? {
      return Err(HeadBadType);
    }
    if |a.cell[0].cell| == 0 {
      return Err(HeadEmpty);
    }
    var q := a.Take(0);
    var v := new Expr.Of(q);
    while v.count > 1
      invariant v.Valid() && fresh(v.cell) && v.kind == QexprType
      invariant 1 <= v.count && v.Elements()[0] == q.cell[0]
      decreases v.count
    {
      var _ := v.Pop(1);
    }
    assert v.Elements() == q.cell[..1];
    r := v.ToLval();
  }

  /** `builtin_tail`: take the argument and pop its first element. */
  method BuiltinTail(a: Expr) returns (r: Lval)
    requires a.Valid()
    modifies a, a.cell
    ensures r == Tail(old(a.Elements()))
  {
    if a.count != 1 {
      return Err(TailTooMany);
    }
    if !a.cell[0].Qexpr? {
      return Err(TailBadType);
    }
    if |a.cell[0].cell| == 0 {
      return Err(TailEmpty);
    }
    var q := a.Take(0);
    var v := new Expr.Of(q);
    var _ := v.Pop(0);
    r := v.ToLval();
  }

  /** `lval_join`: move the elements of `y` one at a time, from the front, onto the end of `x`. */
  method LvalJoin(x: Expr, y: Lval)
    requires x.Valid() && y.Qexpr?
    modifies x
    ensures x.Valid() && x.kind == old(x.kind) && (x.cell == old(x.cell) || fresh(x.cell))
    ensures x.Elements() == old(x.Elements()) + y.cell
  {
    ghost var start := x.Elements();
    ghost var k0 := x.kind;
    var ys := new Expr.Of(y);
    assert ys.Elements() == y.cell;
    while ys.count > 0
      invariant x.Valid() && ys.Valid() && fresh(ys.cell) && x.kind == k0
      invariant x.cell == old(x.cell) || fresh(x.cell)
      invariant x.cell != ys.cell
      invariant x.Elements() + ys.Elements() == start + y.cell
      decreases ys.count
    {
      var e := ys.Pop(0);
      x.Add(e);
    }
    assert ys.Elements() == [];
  }

  /** `builtin_join`: check every argument, pop the first, then join each remaining argument into it. */
  method BuiltinJoin(a: Expr) returns (r: Lval)
    requires a.Valid() && a.count >= 1
    modifies a, a.cell
    ensures r == Join(old(a.Elements()))
  {
    ghost var args := a.Elements();
    for i := 0 to a.count
      invariant forall k :: 0 <= k < i ==> a.cell[k].Qexpr?
    {
      if !a.cell[i].Qexpr? {
        return Err(JoinBadType);
      }
    }
    assert AllQexpr(args);
    var first := a.Pop(0);
    assert a.Elements() == args[1..];
    var x := new Expr.Of(first);
    JoinEach(x, a);
    r := x.ToLval();
  }

  /** The loop of `builtin_join`: pop the arguments of `a` from the front and join each one into `x`. */
  method JoinEach(x: Expr, a: Expr)
    requires x.Valid() && a.Valid() && x != a && x.cell != a.cell
    requires AllQexpr(a.Elements())
    modifies x, a, a.cell
    ensures x.Valid() && x.kind == old(x.kind)
    ensures x.Elements() == old(x.Elements()) + Concat(old(a.Elements()))
  {
    ghost var start, k0 := x.Elements() + Concat(a.Elements()), x.kind;
    while a.count > 0
      invariant a.Valid() && x.Valid() && x.cell != a.cell && x.kind == k0
      invariant a.cell == old(a.cell) || fresh(a.cell)
      invariant AllQexpr(a.Elements())
      invariant x.Elements() + Concat(a.Elements()) == start
      decreases a.count
    {
      JoinFirst(x, a);
    }
  }

  /** One pass of that loop: `x = lval_join(x, lval_pop(a, 0))`. */
  method JoinFirst(x: Expr, a: Expr)
    requires x.Valid() && a.Valid() && x != a && x.cell != a.cell && a.count > 0
    requires AllQexpr(a.Elements())
    modifies x, a, a.cell
    ensures a.Valid() && x.Valid() && x.cell != a.cell && x.kind == old(x.kind)
    ensures fresh(a.cell) && a.count == old(a.count) - 1 && AllQexpr(a.Elements())
    ensures x.Elements() + Concat(a.Elements()) == old(x.Elements() + Concat(a.Elements()))
  {
    ghost var rest := a.Elements();
    assert Concat(rest) == rest[0].cell + Concat(rest[1..]);
    var y := a.Pop(0);
    assert a.Elements() == rest[1..];
    LvalJoin(x, y);
  }

  /** `builtin_op`: check every argument, pop the first, then fold the others into it one at a time. */
  method BuiltinOp(a: Expr, op: string) returns (r: Lval)
    requires a.Valid() && a.count >= 1
    modifies a, a.cell
    ensures r == Op(op, old(a.Elements()))
  {
    ghost var args := a.Elements();
    for i := 0 to a.count
      invariant forall k :: 0 <= k < i ==> a.cell[k].Num?
    {
      if !a.cell[i].Num? {
        return Err(NotNumber);
      }
    }
    assert AllNum(args);
    var x := a.Pop(0);
    assert a.Elements() == args[1..];
    if op == "-" && a.count == 0 {
      x := Num(-x.num);
    }
    while a.count > 0
      invariant a.Valid() && fresh(a.cell)
      invariant x.Num? && AllNum(a.Elements())
      invariant Fold(op, x.num, a.Elements()) == Op(op, args)
      decreases a.count
    {
      ghost var rest := a.Elements();
      var y := a.Pop(0);
      assert rest == [y] + a.Elements();
      if op == "+" {
        x := Num(x.num + y.num);
      }
      if op == "-" {
        x := Num(x.num - y.num);
      }
      if op == "*" {
        x := Num(x.num * y.num);
      }
      if op == "/" {
        if y.num == 0 {
          x := Err(DivisionByZero);
          break;
        }
        x := Num(TruncDiv(x.num, y.num));
      }
    }
    r := x;
  }

  // ---------------------------------------------------------------------------
  // Properties of head and tail

  /**
    `head` and `tail` check, in this order, that there is exactly one
    argument, that it is a Q-expression and that it is not empty, and they
    succeed exactly when all three hold.
   */
  lemma HeadTailChecks(a: seq<Lval>)
    ensures |a| != 1 ==> Head(a) == Err(HeadTooMany) && Tail(a) == Err(TailTooMany)
    ensures |a| == 1 && !a[0].Qexpr? ==> Head(a) == Err(HeadBadType) && Tail(a) == Err(TailBadType)
    ensures |a| == 1 && a[0].Qexpr? && a[0].cell == [] ==> Head(a) == Err(HeadEmpty) && Tail(a) == Err(TailEmpty)
    ensures Head(a).Qexpr? <==> |a| == 1 && a[0].Qexpr? && a[0].cell != []
    ensures Tail(a).Qexpr? <==> |a| == 1 && a[0].Qexpr? && a[0].cell != []
  {
  }

  /**
    On one non-empty Q-expression, `head` keeps only the first element and
    `tail` the others in order, so joining the two gives the argument back.
   */
  lemma HeadTailJoin(q: Lval)
    requires q.Qexpr? && q.cell != []
    ensures Head([q]) == Qexpr([q.cell[0]])
    ensures Tail([q]) == Qexpr(q.cell[1..])
    ensures Join([Head([q]), Tail([q])]) == q
  {
    var h, t := Head([q]), Tail([q]);
    assert [h, t][1..] == [t];
    assert Concat([t]) == t.cell + Concat([]);
    assert Concat([h, t]) == h.cell + t.cell;
    assert h.cell + t.cell == q.cell;
  }

  // ---------------------------------------------------------------------------
  // Properties of join

  lemma {:induction false} ConcatAppend(xs: seq<Lval>, ys: seq<Lval>)
    requires AllQexpr(xs) && AllQexpr(ys)
    ensures AllQexpr(xs + ys) && Concat(xs + ys) == Concat(xs) + Concat(ys)
    decreases |xs|
  {
    if xs == [] {
      assert xs + ys == ys;
    } else {
      assert (xs + ys)[1..] == xs[1..] + ys;
      ConcatAppend(xs[1..], ys);
    }
  }

  /** `join` succeeds exactly when every argument is a Q-expression. */
  lemma JoinChecks(a: seq<Lval>)
    requires |a| >= 1
    ensures Join(a).Qexpr? <==> AllQexpr(a)
    ensures !AllQexpr(a) ==> Join(a) == Err(JoinBadType)
  {
  }

  /**
    `join` keeps argument order: element `k` of argument `i` sits in the
    result after all the elements of the arguments before `i` and after the
    first `k` elements of argument `i`.
   */
  lemma JoinInOrder(a: seq<Lval>, i: nat, k: nat)
    requires |a| >= 1 && AllQexpr(a) && i < |a| && k < |a[i].cell|
    ensures var at := |Concat(a[..i])| + k;
      at < |Join(a).cell| && Join(a).cell[at] == a[i].cell[k]
  {
    ConcatAppend(a[..i], a[i..]);
    assert a[..i] + a[i..] == a;
    assert Concat(a[i..]) == a[i].cell + Concat(a[i + 1..]) by {
      assert a[i..][1..] == a[i + 1..];
    }
  }

  /** Joining the joins of two argument lists is joining their concatenation. */
  lemma JoinAssociative(xs: seq<Lval>, ys: seq<Lval>)
    requires |xs| >= 1 && |ys| >= 1 && AllQexpr(xs) && AllQexpr(ys)
    ensures Join([Join(xs), Join(ys)]) == Join(xs + ys)
  {
    ConcatAppend(xs, ys);
    var j1, j2 := Join(xs), Join(ys);
    assert [j1, j2][1..] == [j2];
    assert Concat([j2]) == j2.cell + Concat([]);
  }

  // ---------------------------------------------------------------------------
  // Properties of the arithmetic operators

  function Sum(ys: seq<Lval>): int
    requires AllNum(ys)
  {
    if ys == [] then 0 else ys[0].num + Sum(ys[1..])
  }

  function Product(ys: seq<Lval>): int
    requires AllNum(ys)
  {
    if ys == [] then 1 else ys[0].num * Product(ys[1..])
  }

  lemma {:induction false} FoldSum(x: int, ys: seq<Lval>)
    requires AllNum(ys)
    ensures Fold("+", x, ys) == Num(x + Sum(ys))
    decreases |ys|
  {
    if ys != [] {
      FoldSum(x + ys[0].num, ys[1..]);
    }
  }

  lemma {:induction false} FoldDifference(x: int, ys: seq<Lval>)
    requires AllNum(ys)
    ensures Fold("-", x, ys) == Num(x - Sum(ys))
    decreases |ys|
  {
    if ys != [] {
      FoldDifference(x - ys[0].num, ys[1..]);
    }
  }

  lemma {:induction false} FoldProduct(x: int, ys: seq<Lval>)
    requires AllNum(ys)
    ensures Fold("*", x, ys) == Num(x * Product(ys))
    decreases |ys|
  {
    if ys != [] {
      var y, p := ys[0].num, Product(ys[1..]);
      FoldProduct(x * y, ys[1..]);
      assert Step("*", x, y) == x * y;
      assert x * y * p == x * (y * p);
    }
  }

  /** On numbers, `+` gives the sum of all the arguments. */
  lemma OpSum(a: seq<Lval>)
    requires |a| >= 1 && AllNum(a)
    ensures Op("+", a) == Num(Sum(a))
  {
    assert Op("+", a) == Fold("+", a[0].num, a[1..]);
    assert Sum(a) == a[0].num + Sum(a[1..]);
    FoldSum(a[0].num, a[1..]);
  }

  /** On numbers, `*` gives the product of all the arguments. */
  lemma OpProduct(a: seq<Lval>)
    requires |a| >= 1 && AllNum(a)
    ensures Op("*", a) == Num(Product(a))
  {
    FoldProduct(a[0].num, a[1..]);
  }

  /** On numbers, `-` gives the first argument minus the sum of the others, or the negation of a single argument. */
  lemma OpDifference(a: seq<Lval>)
    requires |a| >= 1 && AllNum(a)
    ensures |a| >= 2 ==> Op("-", a) == Num(a[0].num - Sum(a[1..]))
    ensures |a| == 1 ==> Op("-", a) == Num(-a[0].num)
  {
    if |a| >= 2 {
      FoldDifference(a[0].num, a[1..]);
    } else {
      assert a[1..] == [];
    }
  }

  /** The fold fails exactly when a divisor of `/` is zero, and only `/` can fail. */
  lemma {:induction false} FoldFails(op: string, x: int, ys: seq<Lval>)
    requires AllNum(ys)
    ensures Fold(op, x, ys).Err? <==> op == "/" && exists k :: 0 <= k < |ys| && ys[k].num == 0
    ensures Fold(op, x, ys).Err? ==> Fold(op, x, ys) == Err(DivisionByZero)
    decreases |ys|
  {
    if ys != [] && !(op == "/" && ys[0].num == 0) {
      FoldFails(op, Step(op, x, ys[0].num), ys[1..]);
      assert forall k :: 1 <= k < |ys| ==> ys[k] == ys[1..][k - 1];
    }
  }

  /**
    An arithmetic operator fails exactly when some argument is not a
    number, or when it is `/` and some argument after the first is zero;
    the non-number check comes first.
   */
  lemma OpErrors(op: string, a: seq<Lval>)
    requires |a| >= 1
    ensures Op(op, a).Err? <==> !AllNum(a) || (op == "/" && exists k :: 1 <= k < |a| && a[k].num == 0)
    ensures !AllNum(a) ==> Op(op, a) == Err(NotNumber)
    ensures AllNum(a) && Op(op, a).Err? ==> Op(op, a) == Err(DivisionByZero)
  {
    if AllNum(a) {
      var x := if op == "-" && |a| == 1 then -a[0].num else a[0].num;
      FoldFails(op, x, a[1..]);
      assert forall k :: 1 <= k < |a| ==> a[k] == a[1..][k - 1];
    }
  }

  // ---------------------------------------------------------------------------
  // No builtin grows the value it is given

  lemma {:induction false} ConcatSize(qs: seq<Lval>)
    requires AllQexpr(qs)
    ensures SizeAll(Concat(qs)) + |qs| == SizeAll(qs)
    decreases |qs|
  {
    if qs != [] {
      ConcatSize(qs[1..]);
      SizeAllAppend(qs[0].cell, Concat(qs[1..]));
    }
  }

  /**
    `head`, `tail` and `join` hold no more `lval` records than the argument
    list plus one container: they only move or drop the values they receive.
   */
  lemma HeadTailSize(a: seq<Lval>)
    ensures Size(Head(a)) <= 1 + SizeAll(a) && Size(Tail(a)) <= 1 + SizeAll(a)
  {
    if |a| == 1 && a[0].Qexpr? && a[0].cell != [] {
      var c := a[0].cell;
      assert SizeAll(a) == Size(a[0]) == 1 + Size(c[0]) + SizeAll(c[1..]);
      assert SizeAll(c[..1]) == Size(c[0]);
    }
  }

  lemma JoinSize(a: seq<Lval>)
    requires |a| >= 1
    ensures Size(Join(a)) <= 1 + SizeAll(a)
  {
    if AllQexpr(a) {
      ConcatSize(a);
    }
  }
}
