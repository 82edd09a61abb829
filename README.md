# A verified model of a small Lisp interpreter's value model and evaluator

This project models the core of a small Lisp interpreter written in C, in
two of its stages.

`q_expression.c` is the Q-expression stage. Its value `lval` is a tagged
value of five kinds: error, number, symbol, S-expression and Q-expression.
The two container kinds own a pointer array `cell` of `count` elements. The
stage reads a parse tree into a value, evaluates it, and prints it. The
builtins are `list`, `head`, `tail`, `join`, `eval` and the arithmetic
operators `+ - * /`.

`error_handling.c` is the earlier arithmetic-only stage. Its values are
structs passed by value, holding a number or a numeric error code. It
evaluates the parse tree by folding `eval_op` over an operator's operands.

How the model is built:

- Values are a Dafny datatype (`Values.Lval`, `ErrorHandling.Lval`).
- A container that the C code updates in place is an object of class
  `Values.Expr`. It holds the tag, an `array<Lval>` that is reallocated to
  exactly `count` cells on every insertion and removal, and `count`.
- `lval_add`, `lval_pop`, `lval_take` and the loops of `builtin_head`,
  `lval_join`, `builtin_join`, `builtin_op`, `lval_read` and
  `lval_eval_sexpr` are methods on such objects.
- The operand loop of `error_handling.c`'s `eval` is a method with a `while`
  loop over the parse tree's children. It updates an accumulator and an
  index held in local variables.
- The buffer operations (`Add`, `Pop`, `Take`, `Realloc`) state their effect
  on the container's elements. So do the inner loops of `join` (`LvalJoin`,
  `JoinEach`, `JoinFirst`) and the in-place evaluation of the cells
  (`EvalCells`).
- The other methods are proved to compute a pure specification function:
  - `list`: `List`;
  - `head`: `Head`;
  - `tail`: `Tail`;
  - `join`: `Join`;
  - the arithmetic operators: `Op`;
  - the evaluator: `Eval`, `EvalSexpr`, `Reduce`, `Builtin` and
    `EvalBuiltin`;
  - the reader: `Read`;
  - `error_handling.c`'s `eval`: `Value`.
- Lemmas then state what the source promises about those functions:
  - the check order and error results of each builtin;
  - element order under `join` and `lval_read`;
  - the arithmetic folds against sums and products;
  - the leftmost-error rule;
  - normal forms and the idempotence of evaluation.
- The parse tree that the mpc library would build is the abstract record
  `ParseTree.Node`: a tag, the matched text and the children. `strstr` on tags
  is a substring test (`CRuntime.Contains`).
- `strtol` with its `ERANGE` test is a range check against a 64-bit `long`
  (`CRuntime.StrToLong`).
- `printf` output is a function returning the text (`Printer.Print`,
  `ErrorHandling.Print`).
- C's truncating division is `CRuntime.TruncDiv`.
- Numbers are mathematical integers (see "Left out").

The model follows the code:

- The messages are the code's own: "Division by Zero!", "Unknown Function!",
  "S-expression does not start with symbol!", and so on.
- `builtin` recognises operators with `strstr("+-*/", func)`
  (q_expression.c:321), so any substring of that text reaches `builtin_op`,
  not only the four operator names. The model keeps this substring test.
  - `Evaluator.GrammarDispatch` shows that the four names the grammar produces
    (q_expression.c:373-374) reach the operator builtin.
  - `Evaluator.OperatorSubstring` shows the effect on a name such as `+-`.

## Model

| member | source | states |
|---|---|---|
| `CRuntime.Contains` | q_expression.c:141-147 | the result is true exactly when `sub` occurs in `s` at some index (the `strstr` test) |
| `CRuntime.StrToLongOfPrinted` | q_expression.c:126-130 | a number printed with `%li` converts back with `strtol` exactly when a 64-bit `long` holds it, and then to itself |
| `CRuntime.Digits` | q_expression.c:173-175 | the digits of a natural number are a non-empty digit string without a leading zero |
| `CRuntime.DigitsRoundTrip` | q_expression.c:173-175 | reading the printed digits of `n` back gives `n` |
| `CRuntime.LongToString` | q_expression.c:173-175 | `%li` output is a numeral whose decimal value is the printed number |
| `CRuntime.TruncDivRemainder` | q_expression.c:305 | C's quotient leaves a remainder smaller in magnitude than the divisor that never has the dividend's opposite sign (truncation toward zero) |
| `ErrorHandling.PrintedErrorsDistinct` | error_handling.c:60-77 | each of the three error codes prints its own message, distinct from the others and from any printed number |
| `ErrorHandling.EvalOpCases` | error_handling.c:85-102 | an error `x` is returned whatever `y` is; for a number `x`, an error `y` is returned; on two numbers `+ - *` give the sum, difference and product; the result is an error exactly for an unknown operator (`LERR_BAD_OP`) or a zero divisor (`LERR_DIV_ZERO`) |
| `ErrorHandling.EvalOpDivision` | error_handling.c:98-100 | `/` with a non-zero divisor gives a number, and that number is the truncated quotient |
| `ErrorHandling.ReadNumberRange` | error_handling.c:107-111 | an in-range literal gives its value, an out-of-range one gives `LERR_BAD_NUM`, and a printed in-range number reads back as itself |
| `ErrorHandling.OperandsEnd` | error_handling.c:117-121 | the operand loop stops at the first child from index 3 on that is not tagged `expr`; every child before that index is an operand |
| `ErrorHandling.OperandValues` | error_handling.c:117-121 | one value per operand child the loop visits |
| `ErrorHandling.Eval` | error_handling.c:105-124 | the loop over the children computes `Value`: a literal's value, or the left fold of `eval_op` over the operator's operand values |
| `ErrorHandling.FoldOpsKeepsError` | error_handling.c:86 | once the accumulator is an error, no later operand changes the result |
| `ErrorHandling.FoldOpsFirstErrorOperand` | error_handling.c:114-123 | the first error operand is the result unless the fold of the operands before it already failed, in which case that earlier error is kept |
| `ErrorHandling.FoldArithmeticOfNumbers` | error_handling.c:89-97 | `+`, `-` and `*` never produce an error from numbers |
| `ErrorHandling.ArithmeticLeftmostError` | error_handling.c:114-123 | for `+ - *`, the result is the leftmost error among all operands, the first one included |
| `ErrorHandling.DivisionByZeroBeforeBadNumber` | error_handling.c:98-100 | for `/`, a zero divisor before an out-of-range literal wins: `/ 1 0 N` gives `LERR_DIV_ZERO` |
| `ErrorHandling.FoldArithmetic` | error_handling.c:117-121 | on numbers the fold of `+` adds all operands, of `-` subtracts the rest from the first, of `*` multiplies them |
| `Values.Realloc` | q_expression.c:135 | a fresh array of the new length that keeps the old cells up to the shorter of the two lengths |
| `Values.Expr.Empty` | q_expression.c:85-101 | a fresh container with the given tag and no elements |
| `Values.Expr.Add` | q_expression.c:133-138 | the elements become the old elements followed by `x` (so `count` rises by one); the tag is unchanged |
| `Values.Expr.Pop` | q_expression.c:196-203 | returns old element `i`; the elements become the old ones before `i` followed by those after it, in order |
| `Values.Expr.Take` | q_expression.c:205-209 | returns old element `i`; the container is not used again |
| `Printer.PrintCellsAppend` | q_expression.c:160-169 | the elements print left to right, each after a single space except the first |
| `Printer.PrintShape` | q_expression.c:171-189 | a number prints as a numeral of its value, an error as "Error: " and its message, a symbol as its name, an S-expression as its elements in `( )`, a Q-expression as its elements in `{ }` |
| `Reader.ReadChildren` | q_expression.c:149-156 | one element per child that is not a bracket or a regex marker |
| `Reader.LvalRead` | q_expression.c:140-158 | building the container child by child computes `Read`: a number leaf's value, a symbol, or a container of the kind its tag names holding the read children |
| `Reader.ReadNumRange` | q_expression.c:126-130 | an in-range literal reads as its value, any other as the "invalid number" error; a printed in-range number reads back as itself |
| `Reader.ReadChildrenAt` | q_expression.c:149-156 | a child that is not skipped becomes the element at index "number of kept children before it", so children keep their order |
| `Builtins.Fold` | q_expression.c:292-309 | the fold yields a number, or the "Division by Zero!" error |
| `Builtins.Op` | q_expression.c:276-313 | the operator yields a number, the non-number error or the division-by-zero error |
| `Builtins.BuiltinList` | q_expression.c:234-237 | the same container, with the same cell array and elements, retagged as a Q-expression |
| `Builtins.BuiltinHead` | q_expression.c:212-220 | the pop loop computes `Head`: the three checks in order, then a Q-expression of only the first element |
| `Builtins.BuiltinTail` | q_expression.c:223-231 | computes `Tail`: the three checks in order, then the Q-expression without its first element |
| `Builtins.LvalJoin` | q_expression.c:240-247 | the elements of `x` become its old elements followed by all of `y`'s, in order; the tag is unchanged |
| `Builtins.BuiltinJoin` | q_expression.c:250-263 | computes `Join`: an error if any argument is not a Q-expression, or else the concatenation of all arguments' elements |
| `Builtins.JoinEach` | q_expression.c:257-259 | the loop appends the concatenation of the remaining arguments to `x` |
| `Builtins.JoinFirst` | q_expression.c:258 | one pass moves the first remaining argument's elements onto `x`; the elements of `x` plus the concatenation of the remaining arguments stay the same |
| `Builtins.BuiltinOp` | q_expression.c:276-313 | the check loop, the unary negation and the pop-and-fold loop compute `Op` |
| `Builtins.HeadTailChecks` | q_expression.c:213-226 | `head` and `tail` fail on a count other than one, then on a non-Q-expression, then on an empty one, each with its own message; they succeed exactly when none applies |
| `Builtins.HeadTailJoin` | q_expression.c:212-231 | on a non-empty Q-expression, `head` keeps the first element and `tail` the rest, and joining the two gives the argument back |
| `Builtins.JoinChecks` | q_expression.c:251-253 | `join` succeeds exactly when every argument is a Q-expression, and otherwise gives the incorrect-type error |
| `Builtins.JoinInOrder` | q_expression.c:240-263 | element `k` of argument `i` sits in the result after all elements of earlier arguments and after the first `k` of its own |
| `Builtins.JoinAssociative` | q_expression.c:240-263 | joining the joins of two argument lists equals joining their concatenation |
| `Builtins.FoldSum` | q_expression.c:295 | the fold of `+` adds every number to the accumulator |
| `Builtins.FoldDifference` | q_expression.c:296 | the fold of `-` subtracts every number from the accumulator |
| `Builtins.FoldProduct` | q_expression.c:297 | the fold of `*` multiplies the accumulator by every number |
| `Builtins.OpSum` | q_expression.c:285-309 | `+` on numbers gives the sum of all arguments |
| `Builtins.OpProduct` | q_expression.c:285-309 | `*` on numbers gives the product of all arguments |
| `Builtins.OpDifference` | q_expression.c:285-309 | `-` on numbers gives the first argument minus the sum of the others, or the negation of a single argument |
| `Builtins.FoldFails` | q_expression.c:298-304 | the fold fails exactly when the operator is `/` and some divisor is zero, and then with the division-by-zero error |
| `Builtins.OpErrors` | q_expression.c:278-304 | an operator fails exactly when some argument is not a number or, for `/`, some argument after the first is zero; the non-number check comes first |
| `Evaluator.FirstErr` | q_expression.c:339-341 | the index of the leftmost error, with no error before it; none when no element is an error |
| `Evaluator.Eval` | q_expression.c:326-330 | a value that is not an S-expression evaluates to itself; no result holds more records than its input |
| `Evaluator.EvalAll` | q_expression.c:334-336 | one result per child |
| `Evaluator.EvalAllAt` | q_expression.c:334-336 | element `i` of the evaluated children is the value of child `i` |
| `Evaluator.EvalSexpr` | q_expression.c:332-359 | the result holds no more records than the S-expression it reduces |
| `Evaluator.Reduce` | q_expression.c:338-359 | the result holds no more records than the evaluated children plus one container |
| `Evaluator.Builtin` | q_expression.c:315-324 | no builtin result holds more records than its arguments plus one container |
| `Evaluator.EvalBuiltin` | q_expression.c:266-273 | the result of `eval` holds no more records than its arguments plus one container |
| `Evaluator.LvalEval` | q_expression.c:326-330 | computes `Eval` |
| `Evaluator.LvalEvalSexpr` | q_expression.c:332-359 | evaluating the cells in place and then reducing the container computes `EvalSexpr` of the original elements |
| `Evaluator.ReduceCells` | q_expression.c:338-359 | the error scan, the zero- and one-element cases, the symbol pop and the dispatch compute `Reduce` |
| `Evaluator.EvalCells` | q_expression.c:334-336 | after the loop the cells are the evaluated children, in order; tag and count are kept |
| `Evaluator.CallBuiltin` | q_expression.c:315-324 | the chain of name tests computes `Builtin` |
| `Evaluator.BuiltinEval` | q_expression.c:266-273 | taking the argument, retagging it and reducing it in place computes `EvalBuiltin` |
| `Evaluator.EvalNormal` | q_expression.c:326-359 | evaluation never yields a non-empty S-expression |
| `Evaluator.BuiltinNormal` | q_expression.c:315-324 | every builtin except a successful `eval` yields something other than an S-expression |
| `Evaluator.EvalBuiltinChecks` | q_expression.c:267-272 | `eval` fails on a count other than one, then on a non-Q-expression; otherwise it reduces the argument's elements as an S-expression |
| `Evaluator.EvalIdempotent` | q_expression.c:326-359 | evaluating a result again changes nothing |
| `Evaluator.EvalSexprLeftmostError` | q_expression.c:338-341 | when some child evaluates to an error, the S-expression evaluates to the leftmost such error |
| `Evaluator.EvalAllFirstErr` | q_expression.c:334-341 | the leftmost child whose value is an error is where the scan of the evaluated children stops, and that element is the child's value |
| `Evaluator.FirstErrAt` | q_expression.c:339-341 | an error with no error before it is the one the scan finds |
| `Evaluator.ReduceLeftmostError` | q_expression.c:339-341 | among the evaluated children, the leftmost error is the result |
| `Evaluator.EvalSexprUnwrap` | q_expression.c:343-346 | with no error, zero children give the empty S-expression and one child gives that child's value |
| `Evaluator.EvalSexprCall` | q_expression.c:348-356 | with no error and two or more children, a first value that is not a symbol gives the not-a-symbol error; otherwise the named builtin gets the other children's values |
| `Evaluator.ReduceNoError` | q_expression.c:343-356 | with no error among the evaluated children: empty stays empty, a singleton is unwrapped, a non-symbol head is an error, and otherwise the rest goes to the named builtin |
| `Evaluator.GrammarDispatch` | q_expression.c:315-324 | each of `+ - * /` reaches the operator builtin; a name that is no builtin's and no substring of the operator text gives "Unknown Function!" |
| `Evaluator.OperatorSubstring` | q_expression.c:321 | the name `+-` also reaches the operator builtin, which then folds no operator at all |
| `Scenarios.ReadEvalLiteral` | q_expression.c:393 | a line holding one literal reads and evaluates to the literal's value, or to the "invalid number" error when a `long` cannot hold it |
| `Scenarios.ReadRootLiteral` | q_expression.c:140-158 | the root around one literal reads as the S-expression holding that literal's value |
| `Scenarios.AddExample` | q_expression.c:276-313 | `(+ 1 2 3)` evaluates to 6 |
| `Scenarios.NegateExample` | q_expression.c:287-290 | `(- 5)` evaluates to -5 |
| `Scenarios.DivideByZeroExample` | q_expression.c:298-304 | `(/ 1 0)` evaluates to the division-by-zero error |
| `Scenarios.ListExample` | q_expression.c:234-237 | `(list 1 2 3)` evaluates to `{1 2 3}` |
| `Scenarios.HeadTailExample` | q_expression.c:212-231 | `head` and `tail` of `{1 2 3}` are `{1}` and `{2 3}`; `head` of `{}` is the empty-argument error |
| `Scenarios.JoinExample` | q_expression.c:250-263 | joining `{1 2}` and `{3 4}` gives `{1 2 3 4}` |
| `Scenarios.JoinTypeErrorExample` | q_expression.c:251-253 | joining a number gives the incorrect-type error |
| `Scenarios.EvalListExample` | q_expression.c:266-273 | `(eval (list 1 2 3))` reduces `(1 2 3)` and gives the not-a-symbol error |

## Left out

- The terminal front end is not modelled: `readline`, `add_history`, the
  `main` loops and the mpc grammar construction and parsing. They are I/O
  and calls into a library. `parsing.c` is not part of this model because it
  has no logic of its own. Parse trees are given as `ParseTree.Node` values.
- Memory management is not modelled. `malloc`, `realloc` and `free` byte
  accounting, and `lval_del` itself, become the end of a value's life: a
  value that is deleted is simply no longer used. Pointer identity and
  aliasing between values are not modelled; values are trees.
- The model does not prove that every path frees or hands on each container
  (no leak, no double free). This ownership rule needs the heap model
  described above.
- Numbers are mathematical integers. C's signed overflow in `+ - *` and
  `LONG_MIN / -1`, which are undefined behaviour, are not modelled; results
  stay exact.
- `Reader.LvalRead` requires a `Readable` tree: every node that is read is a
  number, a symbol, the root `>` or tagged `sexpr`/`qexpr`. For any other tag,
  the C code adds children to a NULL container.
- `Builtins.BuiltinJoin`, `Builtins.BuiltinOp`, `Evaluator.Builtin` and
  `Evaluator.CallBuiltin` require at least one argument for `join` and the
  operators. The C code pops element 0 unchecked there. The evaluator always
  meets this requirement, because it dispatches only with two or more
  elements before popping the symbol.
- `ErrorHandling.Eval` requires a `WellFormed` tree: the operator at child 1,
  an operand at child 2 and a closing child after the operands, as the
  grammar produces. For other shapes the C code reads past the children.
- `Values.Expr.Take`: does not state the container's state afterwards,
  because the source deletes the container and no caller uses it again.
- `Values.Realloc`: cells past the old length hold a given filler value,
  where C leaves them uninitialised; every caller overwrites them.
