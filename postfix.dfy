/**
  The meaning of `ExpressionParser.evaluate` as functions: the token queue is
  read front to back, a number token pushes its value, an operator token pops
  the right operand, then the left one, and pushes their combination; the
  answer is the top of the stack once the queue is empty. The stack is a
  sequence whose last element is the top, as in `java.util.Stack`.
*/
module Postfix {
  import opened Wrappers
  import opened Numbers
  import opened Operators

  /** The two exceptions `evaluate` can end with: `EmptyStackException` from
      `Stack.pop` and `NumberFormatException` from `Double.parseDouble`. */
  datatype EvalError = EmptyStack | NumberFormat(token: string)

  /** The change one token makes to the stack height when it succeeds. */
  function Delta(token: string): int
  {
    if token in OperatorTable then -1 else 1
  }

  /** Number of non-operator tokens minus number of operator tokens. */
  function Balance(tokens: seq<string>): int
  {
    if tokens == [] then 0 else Delta(tokens[0]) + Balance(tokens[1..])
  }

  /** The number of operator tokens. */
  function OperatorCount(tokens: seq<string>): nat
  {
    if tokens == [] then 0
    else (if tokens[0] in OperatorTable then 1 else 0) + OperatorCount(tokens[1..])
  }

  /** The balance is the count of number tokens minus the count of operators. */
  lemma {:induction false} BalanceCounts(tokens: seq<string>)
    ensures OperatorCount(tokens) <= |tokens|
    ensures Balance(tokens) == (|tokens| - OperatorCount(tokens)) - OperatorCount(tokens)
  {
    if tokens != [] {
      BalanceCounts(tokens[1..]);
    }
  }

  /** One iteration of the evaluation loop. */
  function Step<N>(ar: Arithmetic<N>, token: string, stack: seq<N>): (r: Result<seq<N>, EvalError>)
    ensures r.Err? <==>
      ((token in OperatorTable && |stack| < 2) || (token !in OperatorTable && ar.parseNum(token).None?))
    ensures token in OperatorTable && |stack| < 2 ==> r == Err(EmptyStack)
    ensures token !in OperatorTable && ar.parseNum(token).None? ==> r == Err(NumberFormat(token))
    ensures r.Ok? ==> |r.value| == |stack| + Delta(token)
    ensures r.Ok? && token in OperatorTable ==>
      r.value == stack[..|stack| - 2]
                 + [Apply(ar, OperatorOf(token).value, stack[|stack| - 2], stack[|stack| - 1])]
    ensures r.Ok? && token !in OperatorTable ==> r.value == stack + [ar.parseNum(token).value]
  {
    if token in OperatorTable then
      if |stack| < 2 then Err(EmptyStack)
      else
        var operand2 := stack[|stack| - 1];
        var operand1 := stack[|stack| - 2];
        Ok(stack[..|stack| - 2] + [Calculate(ar, token, operand2, operand1).value])
    else
      match ar.parseNum(token)
      case None => Err(NumberFormat(token))
      case Some(v) => Ok(stack + [v])
  }

  /** An operator token replaces the top two values by their combination,
      the lower one being the left operand. */
  lemma StepOperator<N>(ar: Arithmetic<N>, op: BinOp, below: seq<N>, x: N, y: N)
    ensures Step(ar, Symbol(op), below + [x, y]) == Ok(below + [Apply(ar, op, x, y)])
  {
    var s := below + [x, y];
    assert s[..|s| - 2] == below && s[|s| - 2] == x && s[|s| - 1] == y;
    assert Step(ar, Symbol(op), s).Ok?;
  }

  /** A number token that parses pushes its value. */
  lemma StepNumber<N>(ar: Arithmetic<N>, t: string, stack: seq<N>)
    requires t !in OperatorTable && ar.parseNum(t).Some?
    ensures Step(ar, t, stack) == Ok(stack + [ar.parseNum(t).value])
  {
    assert Step(ar, t, stack).Ok?;
  }

  /** The whole loop, from a given stack. */
  function Steps<N>(ar: Arithmetic<N>, tokens: seq<string>, stack: seq<N>): Result<seq<N>, EvalError>
    decreases |tokens|
  {
    if tokens == [] then Ok(stack)
    else
      match Step(ar, tokens[0], stack)
      case Err(e) => Err(e)
      case Ok(next) => Steps(ar, tokens[1..], next)
  }

  /** How many tokens the loop removes from the queue before it ends, normally
      or by an exception: the token that throws has already been removed. */
  function Consumed<N>(ar: Arithmetic<N>, tokens: seq<string>, stack: seq<N>): (n: nat)
    ensures n <= |tokens|
    ensures Steps(ar, tokens, stack).Ok? ==> n == |tokens|
    ensures Steps(ar, tokens, stack).Err? ==> 0 < n
    decreases |tokens|
  {
    if tokens == [] then 0
    else
      match Step(ar, tokens[0], stack)
      case Err(_) => 1
      case Ok(next) => 1 + Consumed(ar, tokens[1..], next)
  }

  /** On an exception, the last token removed from the queue is the one that
      throws: the tokens before it run without an exception, and it fails on
      the stack they leave. */
  lemma {:induction false} ThrowingTokenIsLast<N>(ar: Arithmetic<N>, tokens: seq<string>, stack: seq<N>)
    requires Steps(ar, tokens, stack).Err?
    ensures var n := Consumed(ar, tokens, stack);
      0 < n && Steps(ar, tokens[..n - 1], stack).Ok?
      && Step(ar, tokens[n - 1], Steps(ar, tokens[..n - 1], stack).value)
         == Err(Steps(ar, tokens, stack).error)
    decreases |tokens|
  {
    var n := Consumed(ar, tokens, stack);
    assert tokens[..0] == [];
    match Step(ar, tokens[0], stack)
    case Err(_) =>
    case Ok(next) =>
      ThrowingTokenIsLast(ar, tokens[1..], next);
      assert tokens[..n - 1] == [tokens[0]] + tokens[1..][..n - 2];
      assert tokens[..n - 1][0] == tokens[0] && tokens[..n - 1][1..] == tokens[1..][..n - 2];
      assert tokens[n - 1] == tokens[1..][n - 2];
  }

  /** An exception is decided by the tokens consumed before it: the tokens
      left in the queue are never looked at. */
  lemma {:induction false} FailureIgnoresRest<N>(ar: Arithmetic<N>, tokens: seq<string>, stack: seq<N>)
    requires Steps(ar, tokens, stack).Err?
    ensures Steps(ar, tokens[..Consumed(ar, tokens, stack)], stack) == Steps(ar, tokens, stack)
    decreases |tokens|
  {
    var n := Consumed(ar, tokens, stack);
    var pre := tokens[..n];
    assert pre[0] == tokens[0];
    match Step(ar, tokens[0], stack)
    case Err(_) =>
    case Ok(next) =>
      assert pre[1..] == tokens[1..][..n - 1];
      FailureIgnoresRest(ar, tokens[1..], next);
  }

  /** The value `evaluate` returns, or the exception it throws. */
  function Eval<N>(ar: Arithmetic<N>, tokens: seq<string>): (r: Result<N, EvalError>)
    ensures tokens == [] ==> r == Err(EmptyStack)
    ensures r.Ok? ==> Steps(ar, tokens, []).Ok? && |Steps(ar, tokens, []).value| >= 1
  {
    match Steps(ar, tokens, [])
    case Err(e) => Err(e)
    case Ok(stack) => if |stack| == 0 then Err(EmptyStack) else Ok(stack[|stack| - 1])
  }

  /** Every number token is one that `Double.parseDouble` accepts. */
  ghost predicate AllParse<N>(ar: Arithmetic<N>, tokens: seq<string>)
  {
    forall i :: 0 <= i < |tokens| && tokens[i] !in OperatorTable ==> ar.parseNum(tokens[i]).Some?
  }

  /** Starting from a stack of height `depth`, every operator finds at least
      two values on the stack. */
  ghost predicate NoUnderflow(tokens: seq<string>, depth: nat)
  {
    forall i :: 0 <= i < |tokens| && tokens[i] in OperatorTable ==> depth + Balance(tokens[..i]) >= 2
  }

  /** A well-formed postfix sequence: no underflow and one value at the end. */
  ghost predicate WellFormed(tokens: seq<string>)
  {
    NoUnderflow(tokens, 0) && Balance(tokens) == 1
  }

  /** The balance of a concatenation is the sum of the balances. */
  lemma {:induction false} BalanceAppend(a: seq<string>, b: seq<string>)
    ensures Balance(a + b) == Balance(a) + Balance(b)
  {
    if a == [] {
      assert a + b == b;
    } else {
      assert (a + b)[0] == a[0];
      assert (a + b)[1..] == a[1..] + b;
      BalanceAppend(a[1..], b);
    }
  }

  /** Stack-size invariant: after a successful run the stack has grown by the
      number of number tokens minus the number of operator tokens. */
  lemma {:induction false} StackSize<N>(ar: Arithmetic<N>, tokens: seq<string>, stack: seq<N>)
    ensures Steps(ar, tokens, stack).Ok? ==> |Steps(ar, tokens, stack).value| == |stack| + Balance(tokens)
    decreases |tokens|
  {
    if tokens != [] {
      match Step(ar, tokens[0], stack)
      case Err(_) =>
      case Ok(next) => StackSize(ar, tokens[1..], next);
    }
  }

  /** Unfolds `NoUnderflow` by one token: the first token's demand, then the rest from the new height. */
  lemma NoUnderflowCons(tokens: seq<string>, depth: nat)
    requires tokens != []
    requires depth + Delta(tokens[0]) >= 0
    ensures NoUnderflow(tokens, depth) <==>
      (tokens[0] in OperatorTable ==> depth >= 2) && NoUnderflow(tokens[1..], depth + Delta(tokens[0]))
  {
    var rest := tokens[1..];
    forall i | 0 <= i < |rest|
      ensures Balance(tokens[..i + 1]) == Delta(tokens[0]) + Balance(rest[..i])
    {
      assert tokens[..i + 1][1..] == rest[..i];
    }
    assert Balance(tokens[..0]) == 0;
    if NoUnderflow(tokens, depth) {
      forall i | 0 <= i < |rest| && rest[i] in OperatorTable
        ensures depth + Delta(tokens[0]) + Balance(rest[..i]) >= 2
      {
        assert tokens[i + 1] == rest[i];
      }
    }
    if (tokens[0] in OperatorTable ==> depth >= 2) && NoUnderflow(rest, depth + Delta(tokens[0])) {
      forall i | 0 <= i < |tokens| && tokens[i] in OperatorTable
        ensures depth + Balance(tokens[..i]) >= 2
      {
        if i > 0 {
          assert rest[i - 1] == tokens[i];
        }
      }
    }
  }

  /** When every number token parses, the run succeeds exactly when no
      operator meets a stack with fewer than two values. */
  lemma {:induction false} SucceedsIffNoUnderflow<N>(ar: Arithmetic<N>, tokens: seq<string>, stack: seq<N>)
    requires AllParse(ar, tokens)
    ensures Steps(ar, tokens, stack).Ok? <==> NoUnderflow(tokens, |stack|)
    decreases |tokens|
  {
    if tokens != [] {
      var t := tokens[0];
      assert AllParse(ar, tokens[1..]) by {
        forall i | 0 <= i < |tokens[1..]| ensures tokens[1..][i] == tokens[i + 1] { }
      }
      if t in OperatorTable && |stack| < 2 {
        assert !NoUnderflow(tokens, |stack|) by {
          assert Balance(tokens[..0]) == 0;
        }
      } else {
        assert ar.parseNum(tokens[0]).Some? || t in OperatorTable;
        var next := Step(ar, t, stack).value;
        NoUnderflowCons(tokens, |stack|);
        SucceedsIffNoUnderflow(ar, tokens[1..], next);
      }
    }
  }

  /** A run without an exception read only number tokens that parse. */
  lemma {:induction false} OkImpliesAllParse<N>(ar: Arithmetic<N>, tokens: seq<string>, stack: seq<N>)
    requires Steps(ar, tokens, stack).Ok?
    ensures AllParse(ar, tokens)
    decreases |tokens|
  {
    if tokens != [] {
      var next := Step(ar, tokens[0], stack).value;
      OkImpliesAllParse(ar, tokens[1..], next);
      forall i | 0 < i < |tokens| ensures tokens[i] == tokens[1..][i - 1] { }
    }
  }

  /** Without any assumption on the input: the loop runs without an exception
      exactly when every number token parses and no operator underflows. */
  lemma RunSucceedsIff<N>(ar: Arithmetic<N>, tokens: seq<string>, stack: seq<N>)
    ensures Steps(ar, tokens, stack).Ok? <==> AllParse(ar, tokens) && NoUnderflow(tokens, |stack|)
  {
    if Steps(ar, tokens, stack).Ok? {
      OkImpliesAllParse(ar, tokens, stack);
    }
    if AllParse(ar, tokens) {
      SucceedsIffNoUnderflow(ar, tokens, stack);
    }
  }

  /** A failed number conversion names a token of the input that is not an
      operator and that the literal reader rejects. */
  lemma {:induction false} NumberFormatNamesToken<N>(ar: Arithmetic<N>, tokens: seq<string>, stack: seq<N>, t: string)
    requires Steps(ar, tokens, stack) == Err(NumberFormat(t))
    ensures t in tokens && t !in OperatorTable && ar.parseNum(t).None?
    decreases |tokens|
  {
    match Step(ar, tokens[0], stack)
    case Err(_) =>
    case Ok(next) => NumberFormatNamesToken(ar, tokens[1..], next, t);
  }

  /** Running two pieces one after the other is running their concatenation. */
  lemma {:induction false} StepsAppend<N>(ar: Arithmetic<N>, a: seq<string>, b: seq<string>, stack: seq<N>)
    ensures Steps(ar, a + b, stack) ==
      match Steps(ar, a, stack)
      case Err(e) => Err(e)
      case Ok(mid) => Steps(ar, b, mid)
    decreases |a|
  {
    if a == [] {
      assert a + b == b;
    } else {
      assert (a + b)[0] == a[0];
      assert (a + b)[1..] == a[1..] + b;
      match Step(ar, a[0], stack)
      case Err(_) =>
      case Ok(next) => StepsAppend(ar, a[1..], b, next);
    }
  }

  /** Values below the part of the stack a run uses are left untouched. */
  lemma {:induction false} StepsFrame<N>(ar: Arithmetic<N>, tokens: seq<string>, below: seq<N>, stack: seq<N>)
    requires Steps(ar, tokens, stack).Ok?
    ensures Steps(ar, tokens, below + stack) == Ok(below + Steps(ar, tokens, stack).value)
    decreases |tokens|
  {
    if tokens != [] {
      var t := tokens[0];
      var next := Step(ar, t, stack).value;
      var s := below + stack;
      if t in OperatorTable {
        assert s[..|s| - 2] == below + stack[..|stack| - 2];
        assert s[|s| - 2] == stack[|stack| - 2] && s[|s| - 1] == stack[|stack| - 1];
        var v := Apply(ar, OperatorOf(t).value, stack[|stack| - 2], stack[|stack| - 1]);
        assert next == stack[..|stack| - 2] + [v];
        assert Step(ar, t, s).value == (below + stack[..|stack| - 2]) + [v];
      } else {
        assert Step(ar, t, s).value == (below + stack) + [ar.parseNum(t).value];
      }
      assert Step(ar, t, s).Ok?;
      assert Step(ar, t, s).value == below + next;
      StepsFrame(ar, tokens[1..], below, next);
    }
  }

  /** Leftover values are ignored: after any prefix that runs without an
      exception, the result is what the rest alone evaluates to, provided
      the rest runs on its own and leaves a value. */
  lemma LeftoverIgnored<N>(ar: Arithmetic<N>, prefix: seq<string>, rest: seq<string>)
    requires Steps(ar, prefix, []).Ok?
    requires Steps(ar, rest, []).Ok? && Steps(ar, rest, []).value != []
    ensures Eval(ar, prefix + rest) == Eval(ar, rest)
  {
    var mid := Steps(ar, prefix, []).value;
    StepsAppend(ar, prefix, rest, []);
    StepsFrame(ar, rest, mid, []);
    assert mid + [] == mid;
  }

  /** A well-formed sequence whose numbers all parse evaluates without an
      exception, and then its run ends with exactly one value. */
  lemma WellFormedSucceeds<N>(ar: Arithmetic<N>, tokens: seq<string>)
    requires AllParse(ar, tokens) && WellFormed(tokens)
    ensures Steps(ar, tokens, []).Ok? && |Steps(ar, tokens, []).value| == 1
    ensures Eval(ar, tokens) == Ok(Steps(ar, tokens, []).value[0])
  {
    SucceedsIffNoUnderflow(ar, tokens, []);
    StackSize(ar, tokens, []);
  }

  /** When every number parses, `evaluate` returns a value exactly when no
      operator underflows and at least one value is left; more than one
      left over is not an error. */
  lemma EvalSucceedsIff<N>(ar: Arithmetic<N>, tokens: seq<string>)
    requires AllParse(ar, tokens)
    ensures Eval(ar, tokens).Ok? <==> NoUnderflow(tokens, 0) && Balance(tokens) >= 1
    ensures Eval(ar, tokens).Ok? <==> NoUnderflow(tokens, 0) && tokens != []
  {
    SucceedsIffNoUnderflow(ar, tokens, []);
    StackSize(ar, tokens, []);
    if NoUnderflow(tokens, 0) {
      NoUnderflowLeavesValue(tokens, 0);
    }
  }

  /** Without underflow, a run from a stack of height `depth` leaves at least
      one value exactly when it starts with one or reads a token: so the
      final `pop` of an empty stack happens only for an empty input. */
  lemma {:induction false} NoUnderflowLeavesValue(tokens: seq<string>, depth: nat)
    requires NoUnderflow(tokens, depth)
    ensures depth + Balance(tokens) >= 1 <==> depth >= 1 || tokens != []
    decreases |tokens|
  {
    if tokens != [] {
      var t := tokens[0];
      assert t in OperatorTable ==> depth >= 2 by {
        assert Balance(tokens[..0]) == 0;
      }
      NoUnderflowCons(tokens, depth);
      NoUnderflowLeavesValue(tokens[1..], depth + Delta(t));
    }
  }

  /** A single token: a number evaluates to its value, an unreadable number
      throws `NumberFormatException`, a lone operator underflows. */
  lemma SingleToken<N>(ar: Arithmetic<N>, t: string)
    ensures t in OperatorTable ==> Eval(ar, [t]) == Err(EmptyStack)
    ensures t !in OperatorTable ==>
      Eval(ar, [t]) == match ar.parseNum(t)
                       case None => Err(NumberFormat(t))
                       case Some(v) => Ok(v)
  {
    assert [t][0] == t && [t][1..] == [];
    if t !in OperatorTable && ar.parseNum(t).Some? {
      var v := ar.parseNum(t).value;
      assert Step(ar, t, []).Ok? && Step(ar, t, []).value == [v];
      assert Steps(ar, [t], []) == Steps(ar, [], [v]) == Ok([v]);
    }
  }

  /** Operand order: `a b op` combines as `a op b`, the first-pushed value
      being the left operand. */
  lemma OperandOrder<N>(ar: Arithmetic<N>, a: string, b: string, op: BinOp)
    requires a !in OperatorTable && b !in OperatorTable
    requires ar.parseNum(a).Some? && ar.parseNum(b).Some?
    ensures Eval(ar, [a, b, Symbol(op)]) == Ok(Apply(ar, op, ar.parseNum(a).value, ar.parseNum(b).value))
  {
    var x, y := ar.parseNum(a).value, ar.parseNum(b).value;
    var v := Apply(ar, op, x, y);
    var tokens := [a, b, Symbol(op)];
    assert tokens[0] == a && tokens[1..] == [b, Symbol(op)];
    assert tokens[1..][0] == b && tokens[1..][1..] == [Symbol(op)];
    assert [Symbol(op)][0] == Symbol(op) && [Symbol(op)][1..] == [];
    assert Step(ar, a, []).Ok? && Step(ar, a, []).value == [x];
    assert Step(ar, b, [x]).Ok? && Step(ar, b, [x]).value == [x, y];
    assert Step(ar, Symbol(op), [x, y]).Ok? && Step(ar, Symbol(op), [x, y]).value == [v];
    assert Steps(ar, tokens, []) == Steps(ar, [b, Symbol(op)], [x]);
    assert Steps(ar, [b, Symbol(op)], [x]) == Steps(ar, [Symbol(op)], [x, y]);
    assert Steps(ar, [Symbol(op)], [x, y]) == Steps(ar, [], [v]) == Ok([v]);
  }
}
