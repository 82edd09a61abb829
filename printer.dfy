/**
  `lval_print` and `lval_expr_print` of q_expression.c, as functions that
  return the text the source writes to standard output.
 */
module Printer {
  import opened CRuntime
  import opened Values

  function Print(v: Lval): string
    decreases v, 2
  {
    match v
    case Num(n) => LongToString(n)
    case Err(e) => "Error: " + e
    case Sym(s) => s
    case Sexpr(cs) => ExprPrint(cs, '(', ')')
    case Qexpr(cs) => ExprPrint(cs, '{', '}')
  }

  /** `lval_expr_print`: the opening character, the elements separated by single spaces, the closing character. */
  function ExprPrint(cs: seq<Lval>, open: char, close: char): string
    decreases cs, 1
  {
    [open] + PrintCells(cs) + [close]
  }

  function PrintCells(cs: seq<Lval>): string
    decreases cs, 0
  {
    if cs == [] then ""
    else if |cs| == 1 then Print(cs[0])
    else Print(cs[0]) + " " + PrintCells(cs[1..])
  }

  /**
    The loop of `lval_expr_print` writes the elements left to right, with a
    space before every element but the first: the text for `cs + [x]` is the
    text for `cs`, a space, then the text of `x`.
   */
  lemma {:induction false} PrintCellsAppend(cs: seq<Lval>, x: Lval)
    requires cs != []
    ensures PrintCells(cs + [x]) == PrintCells(cs) + " " + Print(x)
    decreases |cs|
  {
    var ys := cs + [x];
    assert ys[0] == cs[0] && |ys| >= 2;
    if |cs| == 1 {
      assert ys[1..] == [x];
    } else {
      assert ys[1..] == cs[1..] + [x];
      PrintCellsAppend(cs[1..], x);
      var a, b, c := Print(cs[0]), PrintCells(cs[1..]), Print(x);
      calc {
        PrintCells(ys);
        a + " " + PrintCells(cs[1..] + [x]);
        a + " " + (b + " " + c);
        (a + " " + b) + " " + c;
      }
    }
  }

  /**
    What each kind prints as: a number as a decimal numeral of its value, an
    error as "Error: " and the message, a symbol as its name; an S-expression
    and a Q-expression print the same elements, between ( ) and { }
    respectively.
   */
  lemma PrintShape(v: Lval)
    ensures v.Num? ==> IsNumeral(Print(v)) && DecimalValue(Print(v)) == v.num
    ensures v.Err? ==> Print(v) == "Error: " + v.err
    ensures v.Sym? ==> Print(v) == v.sym
    ensures v.Sexpr? ==> Print(v) == "(" + PrintCells(v.cell) + ")"
    ensures v.Qexpr? ==> Print(v) == "{" + PrintCells(v.cell) + "}"
  {
  }
}
