/**
  The value model of q_expression.c. A Lisp value (`lval`) is a datatype
  with the five kinds LVAL_ERR, LVAL_NUM, LVAL_SYM, LVAL_SEXPR and
  LVAL_QEXPR; a container owns its elements, so a value is a tree without
  sharing. A container that the interpreter updates in place (its `type`,
  its `cell` pointer array and `count`) is an object of class `Expr`.
 */
module Values {

  datatype Lval =
    | Err(err: string)
    | Num(num: int)
    | Sym(sym: string)
    | Sexpr(cell: seq<Lval>)
    | Qexpr(cell: seq<Lval>)

  /** The number of `lval` records in a value: 1 for the value itself plus those of its elements. */
  function Size(v: Lval): (n: nat)
    ensures n >= 1
    decreases v
  {
    match v
    case Sexpr(cs) => 1 + SizeAll(cs)
    case Qexpr(cs) => 1 + SizeAll(cs)
    case _ => 1
  }

  function SizeAll(cs: seq<Lval>): nat
    decreases cs
  {
    if cs == [] then 0 else Size(cs[0]) + SizeAll(cs[1..])
  }

  lemma {:induction false} SizeAllAppend(a: seq<Lval>, b: seq<Lval>)
    ensures SizeAll(a + b) == SizeAll(a) + SizeAll(b)
    decreases |a|
  {
    if a != [] {
      assert (a + b)[1..] == a[1..] + b;
      SizeAllAppend(a[1..], b);
    } else {
      assert a + b == b;
    }
  }

  lemma {:induction false} SizeAllBounds(cs: seq<Lval>, i: nat)
    requires i < |cs|
    ensures Size(cs[i]) <= SizeAll(cs)
    ensures SizeAll(cs) >= |cs|
    decreases |cs|
  {
    if i > 0 {
      SizeAllBounds(cs[1..], i - 1);
    } else if |cs| > 1 {
      SizeAllBounds(cs[1..], 0);
    }
  }

  // ---------------------------------------------------------------------------
  // A container updated in place

  /** The two container tags, LVAL_SEXPR and LVAL_QEXPR. */
  datatype ExprType = SexprType | QexprType

  /** The container whose tag is `kind`, holding `cs`. */
  function MakeExpr(kind: ExprType, cs: seq<Lval>): Lval {
    if kind == SexprType then Sexpr(cs) else Qexpr(cs)
  }

  /**
    `realloc(a, n * sizeof(lval*))`: a fresh array of `n` cells holding the
    first elements of `a`; a cell past the old end holds `fill` (C leaves it
    uninitialised).
   */
  method Realloc(a: array<Lval>, n: nat, fill: Lval) returns (b: array<Lval>)
    ensures fresh(b) && b.Length == n
    ensures n <= a.Length ==> b[..] == a[..n]
    ensures n > a.Length ==> b[..a.Length] == a[..]
  {
    b := new Lval[n](_ => fill);
    var i := 0;
    while i < n && i < a.Length
      invariant 0 <= i <= n && i <= a.Length
      invariant b[..i] == a[..i]
    {
      b[i] := a[i];
      i := i + 1;
    }
    assert n <= a.Length ==> i == n;
    assert n > a.Length ==> i == a.Length;
  }

  /**
    A Sexpr or Qexpr `lval` being built or taken apart in place: its tag,
    its `cell` array and its element `count`. The array always has exactly
    `count` cells, as the source reallocates it on every insertion and removal.
   */
  class Expr {
    var kind: ExprType
    var cell: array<Lval>
    var count: nat

    ghost predicate Valid()
      reads this
    {
      cell.Length == count
    }

    /** The elements, in order. */
    function Elements(): (cs: seq<Lval>)
      reads this, cell
      requires Valid()
      ensures |cs| == count
    {
      cell[..]
    }

    /** The container as a value. */
    function ToLval(): (v: Lval)
      reads this, cell
      requires Valid()
      ensures v == MakeExpr(kind, Elements())
    {
      MakeExpr(kind, cell[..])
    }

    /** `lval_sexpr()` and `lval_qexpr()`: an empty container with the given tag. */
    constructor Empty(k: ExprType)
      ensures Valid() && fresh(cell)
      ensures kind == k && Elements() == []
    {
      kind := k;
      cell := new Lval[0];
      count := 0;
    }

    /** The container a pointer to the value `v` refers to, opened for update in place. */
    constructor Of(v: Lval)
      requires v.Sexpr? || v.Qexpr?
      ensures Valid() && fresh(cell)
      ensures ToLval() == v
    {
      kind := if v.Sexpr? then SexprType else QexprType;
      cell := new Lval[|v.cell|](i requires 0 <= i < |v.cell| => v.cell[i]);
      count := |v.cell|;
    }

    /** `lval_add`: grow the array by one cell and put `x` last. */
    method Add(x: Lval)
      requires Valid()
      modifies this
      ensures Valid() && fresh(cell) && kind == old(kind)
      ensures Elements() == old(Elements()) + [x]
    {
      var grown := Realloc(cell, count + 1, x);
      grown[count] := x;
      cell, count := grown, count + 1;
    }

    /**
      `lval_pop`: remove and return element `i`, shift the elements after it
      one cell to the left (the `memmove`), then shrink the array by one cell.
     */
    method Pop(i: nat) returns (x: Lval)
      requires Valid() && i < count
      modifies this, cell
      ensures Valid() && fresh(cell) && kind == old(kind)
      ensures x == old(Elements())[i]
      ensures Elements() == old(Elements())[..i] + old(Elements())[i + 1..]
    {
      ghost var before := cell[..];
      x := cell[i];
      var j := i;
      while j < count - 1
        modifies cell
        invariant i <= j <= count - 1 && |before| == count
        invariant cell[..j] == before[..i] + before[i + 1..j + 1]
        invariant cell[j + 1..] == before[j + 1..]
      {
        cell[j] := cell[j + 1];
        j := j + 1;
        assert cell[..j] == cell[..j - 1] + [before[j]];
      }
      assert j == count - 1 && before[i + 1..j + 1] == before[i + 1..];
      assert cell[..count - 1] == before[..i] + before[i + 1..];
      count := count - 1;
      cell := Realloc(cell, count, x);
    }

    /**
      `lval_take`: pop element `i` and end the container's life; the caller
      keeps only the element.
     */
    method Take(i: nat) returns (x: Lval)
      requires Valid() && i < count
      modifies this, cell
      ensures x == old(Elements())[i]
    {
      x := Pop(i);
    }
  }
}
