/**
  `lval_read` and `lval_read_num` of q_expression.c: turning the parse tree
  into a value.
 */
module Reader {
  import opened CRuntime
  import opened ParseTree
  import opened Values
  import Printer

  const InvalidNumber := "invalid number"

  /** `lval_read_num`: the literal's value, or an error when `strtol` reports it out of range. */
  function ReadNum(s: string): Lval
    requires IsNumeral(s)
  {
    match StrToLong(s)
    case Some(x) => Num(x)
    case None => Err(InvalidNumber)
  }

  /** A child the reader passes over: a bracket character or a raw regex marker. */
  predicate Skipped(c: Node) {
    c.contents == "(" || c.contents == ")" || c.contents == "{" || c.contents == "}" || c.tag == "regex"
  }

  /** A tag for which `lval_read` allocates a container: the root ">", or one naming sexpr or qexpr. */
  predicate IsContainerTag(t: Node) {
    t.tag == ">" || HasTag(t, "sexpr") || HasTag(t, "qexpr")
  }

  /** The container allocated for `t`: the last of the three tests that matches wins. */
  function ContainerKind(t: Node): ExprType {
    if HasTag(t, "qexpr") then QexprType else SexprType
  }

  /**
    A tree the reader can convert: number leaves hold numerals, and every
    other node that is read is a symbol or has a container tag. (For any
    other tag `lval_read` would add children to a NULL container.)
   */
  predicate Readable(t: Node)
    decreases t
  {
    if HasTag(t, "number") then IsNumeral(t.contents)
    else if HasTag(t, "symbol") then true
    else
      && IsContainerTag(t)
      && forall i :: 0 <= i < |t.children| ==> Skipped(t.children[i]) || Readable(t.children[i])
  }

  /** The value of a parse tree. */
  function Read(t: Node): Lval
    requires Readable(t)
    decreases t, |t.children| + 1
  {
    if HasTag(t, "number") then ReadNum(t.contents)
    else if HasTag(t, "symbol") then Sym(t.contents)
    else MakeExpr(ContainerKind(t), ReadChildren(t, |t.children|))
  }

  /** The values of the children of `t` before index `i` that the reader does not skip, in order. */
  function ReadChildren(t: Node, i: nat): (r: seq<Lval>)
    requires Readable(t) && !HasTag(t, "number") && !HasTag(t, "symbol") && i <= |t.children|
    ensures |r| == Kept(t, i)
    decreases t, i
  {
    if i == 0 then []
    else
      var c := t.children[i - 1];
      ReadChildren(t, i - 1) + if Skipped(c) then [] else [Read(c)]
  }

  /** `lval_read`: allocate the container, then read and add the children one at a time. */
  method LvalRead(t: Node) returns (v: Lval)
    requires Readable(t)
    ensures v == Read(t)
    decreases t
  {
    if HasTag(t, "number") {
      return ReadNum(t.contents);
    }
    if HasTag(t, "symbol") {
      return Sym(t.contents);
    }
    var x := new Expr.Empty(ContainerKind(t));
    for i := 0 to |t.children|
      invariant x.Valid() && fresh(x.cell) && x.kind == ContainerKind(t)
      invariant x.Elements() == ReadChildren(t, i)
    {
      var c := t.children[i];
      if Skipped(c) {
        continue;
      }
      var e := LvalRead(c);
      x.Add(e);
    }
    v := x.ToLval();
  }

  /**
    A literal a `long` holds reads as its value, any other becomes the
    "invalid number" error; and a number a `long` holds, once printed,
    reads back as itself.
   */
  lemma ReadNumRange(s: string, n: int)
    requires IsNumeral(s)
    ensures InLong(DecimalValue(s)) ==> ReadNum(s) == Num(DecimalValue(s))
    ensures !InLong(DecimalValue(s)) ==> ReadNum(s) == Err(InvalidNumber)
    ensures InLong(n) ==> ReadNum(Printer.Print(Num(n))) == Num(n)
  {
  }

  /** The number of children of `t` before index `i` that the reader does not skip. */
  function Kept(t: Node, i: nat): nat
    requires i <= |t.children|
  {
    if i == 0 then 0 else Kept(t, i - 1) + if Skipped(t.children[i - 1]) then 0 else 1
  }

  /**
    The children keep their order: a child at index `k` that is not skipped
    gives the element whose position is the number of kept children before it.
   */
  lemma {:induction false} ReadChildrenAt(t: Node, i: nat, k: nat)
    requires Readable(t) && !HasTag(t, "number") && !HasTag(t, "symbol") && i <= |t.children|
    requires k < i && !Skipped(t.children[k])
    ensures Kept(t, k) < Kept(t, i) && ReadChildren(t, i)[Kept(t, k)] == Read(t.children[k])
    decreases i
  {
    if k < i - 1 {
      ReadChildrenAt(t, i - 1, k);
      ReadChildrenStable(t, i, Kept(t, k));
    } else {
      assert ReadChildren(t, i) == ReadChildren(t, i - 1) + [Read(t.children[k])];
    }
  }

  /** Reading one more child leaves the elements already read where they are. */
  lemma ReadChildrenStable(t: Node, i: nat, j: nat)
    requires Readable(t) && !HasTag(t, "number") && !HasTag(t, "symbol") && 0 < i <= |t.children|
    requires j < Kept(t, i - 1)
    ensures j < Kept(t, i) && ReadChildren(t, i)[j] == ReadChildren(t, i - 1)[j]
  {
  }
}
