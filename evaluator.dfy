/**
  `ExpressionParser.evaluate`: a loop that drains the caller's token queue in
  place, pushing numbers onto a local stack and replacing the top two values
  by their combination at each operator.
*/
module Evaluator {
  import opened Wrappers
  import opened Numbers
  import opened Operators
  import opened Postfix

  /** The `ArrayDeque<String>` the caller hands in: `items[0]` is its head. */
  class TokenQueue {
    var items: seq<string>

    constructor (tokens: seq<string>)
      ensures items == tokens
    {
      items := tokens;
    }

    method IsEmpty() returns (b: bool)
      ensures b <==> items == []
    {
      b := items == [];
    }

    /** The head, without removing it. */
    method Peek() returns (t: string)
      requires items != []
      ensures t == items[0]
    {
      t := items[0];
    }

    /** Removes and returns the head. */
    method Remove() returns (t: string)
      requires items != []
      modifies this
      ensures t == old(items)[0] && items == old(items)[1..]
    {
      t := items[0];
      items := items[1..];
    }
  }

  /** Evaluates the postfix tokens in `expression`, leaving the queue without
      every token the loop reached: all of them when it returns, up to and
      including the token that threw otherwise. */
  method Evaluate<N>(ar: Arithmetic<N>, expression: TokenQueue) returns (r: Result<N, EvalError>)
    modifies expression
    ensures r == Eval(ar, old(expression.items))
    ensures expression.items == old(expression.items)[Consumed(ar, old(expression.items), [])..]
    ensures r.Ok? ==> expression.items == []
  {
    ghost var input := expression.items;
    var stack: seq<N> := [];
    while true
      invariant |expression.items| <= |input|
      invariant expression.items == input[|input| - |expression.items|..]
      invariant Steps(ar, input, []) == Steps(ar, expression.items, stack)
      invariant Consumed(ar, input, []) == |input| - |expression.items| + Consumed(ar, expression.items, stack)
      decreases |expression.items|
    {
      var empty := expression.IsEmpty();
      if empty {
        break;
      }
      ghost var rest, before := expression.items, stack;
      var next := expression.Peek();
      var isOp := IsOperator(next);
      if isOp {
        var operator := expression.Remove();
        // the right operand comes off the stack first
        if |stack| == 0 {
          assert Steps(ar, rest, before) == Err(EmptyStack) && Consumed(ar, rest, before) == 1;
          return Err(EmptyStack);
        }
        var operand2 := stack[|stack| - 1];
        stack := stack[..|stack| - 1];
        if |stack| == 0 {
          assert Steps(ar, rest, before) == Err(EmptyStack) && Consumed(ar, rest, before) == 1;
          return Err(EmptyStack);
        }
        var operand1 := stack[|stack| - 1];
        stack := stack[..|stack| - 1];
        var value := Calculate(ar, operator, operand2, operand1);
        stack := stack + [value.value];
        assert before[..|before| - 2] == stack[..|stack| - 1];
        assert Step(ar, operator, before).Ok? && Step(ar, operator, before).value == stack;
        continue;
      }
      var token := expression.Remove();
      var parsed := ar.parseNum(token);
      if parsed.None? {
        assert Steps(ar, rest, before) == Err(NumberFormat(token)) && Consumed(ar, rest, before) == 1;
        return Err(NumberFormat(token));
      }
      stack := stack + [parsed.value];
    }
    if |stack| == 0 {
      return Err(EmptyStack);
    }
    r := Ok(stack[|stack| - 1]);
  }
}
