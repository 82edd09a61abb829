/**
  The interpreter's behaviour on a few complete inputs: a literal read from
  the parse tree and evaluated, and each builtin applied to the arguments
  of a typical call.
 */
module Scenarios {
  import opened CRuntime
  import opened ParseTree
  import opened Values
  import Reader
  import opened Builtins
  import opened Evaluator

  /**
    A line holding one numeric literal parses to a root node whose children
    are the literal between two regex markers; reading and evaluating it
    gives the literal's value, or the "invalid number" error when a `long`
    cannot hold it.
   */
  lemma ReadEvalLiteral(n: Node)
    requires HasTag(n, "number") && IsNumeral(n.contents)
    ensures var marker := Node("regex", "", []);
      var root := Node(">", "", [marker, n, marker]);
      && Reader.Readable(root)
      && (InLong(DecimalValue(n.contents)) ==> Eval(Reader.Read(root)) == Num(DecimalValue(n.contents)))
      && (!InLong(DecimalValue(n.contents)) ==> Eval(Reader.Read(root)) == Err(Reader.InvalidNumber))
  {
    var marker := Node("regex", "", []);
    var root := Node(">", "", [marker, n, marker]);
    ReadRootLiteral(n, root);
    var x := Reader.ReadNum(n.contents);
    assert EvalAll([x]) == [x];
    if x.Err? {
      ReduceLeftmostError([x], 0);
    } else {
      ReduceNoError([x]);
    }
  }

  /** The root node around one literal reads as the S-expression holding the literal's value. */
  lemma ReadRootLiteral(n: Node, root: Node)
    requires HasTag(n, "number") && IsNumeral(n.contents)
    requires root == Node(">", "", [Node("regex", "", []), n, Node("regex", "", [])])
    ensures Reader.Readable(root) && Reader.Read(root) == Sexpr([Reader.ReadNum(n.contents)])
  {
    assert !HasTag(root, "number") && !HasTag(root, "symbol") && !HasTag(root, "qexpr");
    assert n.tag != "regex";
    assert !Reader.Skipped(n);
    assert Reader.ReadChildren(root, 1) == [];
    assert Reader.ReadChildren(root, 2) == [Reader.ReadNum(n.contents)];
  }

  lemma AddExample()
    ensures Eval(Sexpr([Sym("+"), Num(1), Num(2), Num(3)])) == Num(6)
  {
  }

  lemma NegateExample()
    ensures Eval(Sexpr([Sym("-"), Num(5)])) == Num(-5)
  {
  }

  lemma DivideByZeroExample()
    ensures Eval(Sexpr([Sym("/"), Num(1), Num(0)])) == Err(DivisionByZero)
  {
  }

  lemma ListExample()
    ensures Eval(Sexpr([Sym("list"), Num(1), Num(2), Num(3)])) == Qexpr([Num(1), Num(2), Num(3)])
  {
  }

  lemma HeadTailExample()
    ensures Eval(Sexpr([Sym("head"), Qexpr([Num(1), Num(2), Num(3)])])) == Qexpr([Num(1)])
    ensures Eval(Sexpr([Sym("tail"), Qexpr([Num(1), Num(2), Num(3)])])) == Qexpr([Num(2), Num(3)])
    ensures Eval(Sexpr([Sym("head"), Qexpr([])])) == Err(HeadEmpty)
  {
  }

  lemma JoinExample()
    ensures Eval(Sexpr([Sym("join"), Qexpr([Num(1), Num(2)]), Qexpr([Num(3), Num(4)])])) == Qexpr([Num(1), Num(2), Num(3), Num(4)])
  {
  }

  lemma JoinTypeErrorExample()
    ensures Eval(Sexpr([Sym("join"), Qexpr([Num(1), Num(2)]), Num(3)])) == Err(JoinBadType)
  {
  }

  lemma EvalListExample()
    ensures Eval(Sexpr([Sym("eval"), Sexpr([Sym("list"), Num(1), Num(2), Num(3)])])) == Err(NotSymbol)
  {
  }
}
