/**
  The operator table of `ExpressionParser` and the two helpers that use it:
  `isOperator` (table membership) and `calculate` (operator dispatch).
*/
module Operators {
  import opened Wrappers
  import opened Numbers

  const Addition: string := "+"
  const Subtraction: string := "-"
  const Multiplication: string := "*"
  const Division: string := "/"
  const Exponent: string := "^"

  /** The table of accepted operator symbols, in the source's order. */
  const OperatorTable: seq<string> := [Addition, Subtraction, Multiplication, Division, Exponent]

  /** The five binary operations named by the table. */
  datatype BinOp = Add | Sub | Mul | Div | Pow

  /** The table symbol of an operation. */
  function Symbol(op: BinOp): string
  {
    match op
    case Add => Addition
    case Sub => Subtraction
    case Mul => Multiplication
    case Div => Division
    case Pow => Exponent
  }

  /** Decodes a token into the operation it names, if any. */
  function OperatorOf(token: string): (r: Option<BinOp>)
    ensures r.Some? <==> token in OperatorTable
    ensures r.Some? ==> Symbol(r.value) == token
    ensures forall op :: Symbol(op) == token ==> r == Some(op)
  {
    if token == Addition then Some(Add)
    else if token == Subtraction then Some(Sub)
    else if token == Multiplication then Some(Mul)
    else if token == Division then Some(Div)
    else if token == Exponent then Some(Pow)
    else None
  }

  /** `x op y`, with `x` the left operand. */
  function Apply<N>(ar: Arithmetic<N>, op: BinOp, x: N, y: N): N
  {
    match op
    case Add => ar.add(x, y)
    case Sub => ar.sub(x, y)
    case Mul => ar.mul(x, y)
    case Div => ar.div(x, y)
    case Pow => ar.pow(x, y)
  }

  /** Linear scan of the table with an early return on the first match. */
  method IsOperator(token: string) returns (b: bool)
    ensures b <==> token in OperatorTable
    ensures b <==> token == "+" || token == "-" || token == "*" || token == "/" || token == "^"
  {
    for i := 0 to |OperatorTable|
      invariant forall j :: 0 <= j < i ==> OperatorTable[j] != token
    {
      if token == OperatorTable[i] {
        return true;
      }
    }
    return false;
  }

  /** Applies `operator` to the two operands. The parameters come in the
      source's order: `operand2` is the right operand (the value popped
      first) and `operand1` the left one. A symbol outside the table gives
      `None`, the source's `null`. */
  function Calculate<N>(ar: Arithmetic<N>, operator: string, operand2: N, operand1: N): (r: Option<N>)
    ensures r.Some? <==> operator in OperatorTable
    ensures forall op :: Symbol(op) == operator ==> r == Some(Apply(ar, op, operand1, operand2))
  {
    if operator == Addition then Some(ar.add(operand1, operand2))
    else if operator == Subtraction then Some(ar.sub(operand1, operand2))
    else if operator == Multiplication then Some(ar.mul(operand1, operand2))
    else if operator == Division then Some(ar.div(operand1, operand2))
    else if operator == Exponent then Some(ar.pow(operand1, operand2))
    else None
  }
}
