/**
  An independent reference for the evaluator: binary expression trees over
  number tokens, their postfix form, and their value computed by structural
  recursion. `Eval` on the postfix form of a tree gives the tree's value, and
  the well-formed postfix sequences are exactly the postfix forms of trees.
*/
module Expressions {
  import opened Wrappers
  import opened Numbers
  import opened Operators
  import opened Postfix

  datatype Expr = Literal(token: string) | Binary(op: BinOp, left: Expr, right: Expr)

  /** No literal of the tree is spelled like an operator. */
  predicate LiteralsAreNumbers(e: Expr)
  {
    match e
    case Literal(t) => t !in OperatorTable
    case Binary(_, l, r) => LiteralsAreNumbers(l) && LiteralsAreNumbers(r)
  }

  /** Postfix form: left operand, right operand, operator. */
  function ToPostfix(e: Expr): (r: seq<string>)
    ensures |r| >= 1
  {
    match e
    case Literal(t) => [t]
    case Binary(op, l, r) => ToPostfix(l) + ToPostfix(r) + [Symbol(op)]
  }

  /** The postfix form of a tree whose literals are numbers leaves exactly
      one value: it has one more number token than operator tokens. */
  lemma {:induction false} PostfixBalance(e: Expr)
    requires LiteralsAreNumbers(e)
    ensures Balance(ToPostfix(e)) == 1
  {
    match e
    case Literal(t) =>
      assert [t][1..] == [];
    case Binary(op, l, r) =>
      var pl, pr := ToPostfix(l), ToPostfix(r);
      PostfixBalance(l);
      PostfixBalance(r);
      BalanceAppend(pl, pr);
      BalanceAppend(pl + pr, [Symbol(op)]);
      assert [Symbol(op)][1..] == [];
  }

  /** The value of a tree, reading literals left to right; the first literal
      that does not parse is the error. */
  function Value<N>(ar: Arithmetic<N>, e: Expr): Result<N, EvalError>
  {
    match e
    case Literal(t) =>
      (match ar.parseNum(t)
       case None => Err(NumberFormat(t))
       case Some(v) => Ok(v))
    case Binary(op, l, r) =>
      match Value(ar, l)
      case Err(x) => Err(x)
      case Ok(x) =>
        match Value(ar, r)
        case Err(y) => Err(y)
        case Ok(y) => Ok(Apply(ar, op, x, y))
  }

  /** Running the postfix form of a tree pushes the tree's value, or stops
      with the tree's first unreadable literal. */
  lemma {:induction false} StepsToPostfix<N>(ar: Arithmetic<N>, e: Expr, rest: seq<string>, stack: seq<N>)
    requires LiteralsAreNumbers(e)
    ensures Steps(ar, ToPostfix(e) + rest, stack) ==
      match Value(ar, e)
      case Err(x) => Err(x)
      case Ok(v) => Steps(ar, rest, stack + [v])
  {
    match e
    case Literal(t) =>
      var ts := [t] + rest;
      assert ts[0] == t && ts[1..] == rest;
      if ar.parseNum(t).Some? {
        StepNumber(ar, t, stack);
      }
    case Binary(op, l, r) =>
      var sym := Symbol(op);
      var afterRight := [sym] + rest;
      var afterLeft := ToPostfix(r) + afterRight;
      assert ToPostfix(e) + rest == ToPostfix(l) + afterLeft;
      StepsToPostfix(ar, l, afterLeft, stack);
      match Value(ar, l)
      case Err(_) =>
      case Ok(x) =>
        StepsToPostfix(ar, r, afterRight, stack + [x]);
        match Value(ar, r)
        case Err(_) =>
        case Ok(y) =>
          assert (stack + [x]) + [y] == stack + [x, y];
          assert afterRight[0] == sym && afterRight[1..] == rest;
          StepOperator(ar, op, stack, x, y);
  }

  /** Evaluating the postfix form of a tree yields the tree's value: each
      operator combines its left subtree's value with its right subtree's,
      in that order. */
  lemma EvalToPostfix<N>(ar: Arithmetic<N>, e: Expr)
    requires LiteralsAreNumbers(e)
    ensures Eval(ar, ToPostfix(e)) == Value(ar, e)
  {
    assert ToPostfix(e) + [] == ToPostfix(e);
    StepsToPostfix(ar, e, [], []);
  }

  /** The number domain whose values are the trees themselves: an operation
      builds a node, and every token is a literal. */
  function SyntaxArith(): Arithmetic<Expr>
  {
    Arithmetic(
      (x, y) => Binary(Add, x, y),
      (x, y) => Binary(Sub, x, y),
      (x, y) => Binary(Mul, x, y),
      (x, y) => Binary(Div, x, y),
      (x, y) => Binary(Pow, x, y),
      t => Some(Literal(t)))
  }

  /** The tokens of a stack of trees, bottom first. */
  function Flatten(s: seq<Expr>): seq<string>
  {
    if s == [] then [] else Flatten(s[..|s| - 1]) + ToPostfix(s[|s| - 1])
  }

  /** Each tree of a stack has number literals only. */
  ghost predicate AllNumberLiterals(s: seq<Expr>)
  {
    forall i :: 0 <= i < |s| ==> LiteralsAreNumbers(s[i])
  }

  /** Pushing a tree appends its postfix form. */
  lemma FlattenPush(s: seq<Expr>, e: Expr)
    ensures Flatten(s + [e]) == Flatten(s) + ToPostfix(e)
  {
    assert (s + [e])[..|s|] == s;
  }

  /** Flattening a stack whose top two trees were replaced by one node. */
  lemma FlattenReduce(below: seq<Expr>, x: Expr, y: Expr, op: BinOp)
    ensures Flatten(below + [Binary(op, x, y)]) == Flatten(below + [x, y]) + [Symbol(op)]
  {
    var fb, px, py, sym := Flatten(below), ToPostfix(x), ToPostfix(y), [Symbol(op)];
    assert below + [x, y] == (below + [x]) + [y];
    FlattenPush(below + [x], y);
    FlattenPush(below, x);
    FlattenPush(below, Binary(op, x, y));
    assert ToPostfix(Binary(op, x, y)) == px + py + sym;
    assert fb + (px + py + sym) == fb + px + py + sym;
  }

  /** One token over the syntax domain adds exactly that token to the
      stack's postfix form. */
  lemma BuildStep(t: string, stack: seq<Expr>)
    requires AllNumberLiterals(stack)
    requires Step(SyntaxArith(), t, stack).Ok?
    ensures Flatten(Step(SyntaxArith(), t, stack).value) == Flatten(stack) + [t]
    ensures AllNumberLiterals(Step(SyntaxArith(), t, stack).value)
  {
    var next := Step(SyntaxArith(), t, stack).value;
    if t in OperatorTable {
      var n := |stack|;
      var x, y := stack[n - 2], stack[n - 1];
      var op := OperatorOf(t).value;
      assert Apply(SyntaxArith(), op, x, y) == Binary(op, x, y);
      assert next == stack[..n - 2] + [Binary(op, x, y)];
      assert stack == stack[..n - 2] + [x, y];
      FlattenReduce(stack[..n - 2], x, y, op);
    } else {
      assert next == stack + [Literal(t)];
      assert next[..|next| - 1] == stack;
    }
  }

  /** Associativity of concatenation, as a lemma of its own so that the
      proof below stays small. */
  lemma AppendAssoc(a: seq<string>, b: seq<string>, c: seq<string>)
    ensures a + (b + c) == (a + b) + c
  {
  }

  /** Running tokens over the syntax domain keeps the stack's postfix form
      equal to everything read so far. */
  lemma {:induction false} BuildKeepsTokens(tokens: seq<string>, stack: seq<Expr>, result: seq<Expr>)
    requires AllNumberLiterals(stack)
    requires Steps(SyntaxArith(), tokens, stack) == Ok(result)
    ensures Flatten(result) == Flatten(stack) + tokens
    ensures AllNumberLiterals(result)
    decreases |tokens|
  {
    if tokens == [] {
      assert Flatten(stack) + tokens == Flatten(stack);
    } else {
      var t, rest := tokens[0], tokens[1..];
      var next := Step(SyntaxArith(), t, stack).value;
      assert Steps(SyntaxArith(), rest, next) == Ok(result);
      BuildStep(t, stack);
      BuildKeepsTokens(rest, next, result);
      assert tokens == [t] + rest;
      AppendAssoc(Flatten(stack), [t], rest);
    }
  }

  lemma ValueOverSyntax(e: Expr)
    ensures Value(SyntaxArith(), e) == Ok(e)
  {
    match e
    case Literal(_) =>
    case Binary(op, l, r) =>
      ValueOverSyntax(l);
      ValueOverSyntax(r);
      assert Apply(SyntaxArith(), op, l, r) == Binary(op, l, r);
  }

  /** A well-formed postfix sequence is the postfix form of the tree that the
      syntax domain builds from it, and in every number domain it evaluates
      to that tree's value. */
  lemma WellFormedMeaning<N>(ar: Arithmetic<N>, tokens: seq<string>)
    requires WellFormed(tokens)
    ensures Eval(SyntaxArith(), tokens).Ok?
    ensures LiteralsAreNumbers(Eval(SyntaxArith(), tokens).value)
    ensures ToPostfix(Eval(SyntaxArith(), tokens).value) == tokens
    ensures Eval(ar, tokens) == Value(ar, Eval(SyntaxArith(), tokens).value)
  {
    var syn := SyntaxArith();
    assert AllParse(syn, tokens);
    WellFormedSucceeds(syn, tokens);
    var s := Steps(syn, tokens, []).value;
    BuildKeepsTokens(tokens, [], s);
    assert s == [s[0]] && Flatten([s[0]]) == ToPostfix(s[0]);
    EvalToPostfix(ar, s[0]);
  }

  /** The well-formed postfix sequences are exactly the postfix forms of
      expression trees. */
  lemma WellFormedIffTree(tokens: seq<string>)
    ensures WellFormed(tokens) <==> exists e :: LiteralsAreNumbers(e) && ToPostfix(e) == tokens
  {
    if WellFormed(tokens) {
      WellFormedMeaning(SyntaxArith(), tokens);
    }
    if e :| LiteralsAreNumbers(e) && ToPostfix(e) == tokens {
      var syn := SyntaxArith();
      ValueOverSyntax(e);
      assert tokens + [] == tokens;
      StepsToPostfix(syn, e, [], []);
      assert Steps(syn, tokens, []) == Ok([] + [e]);
      assert AllParse(syn, tokens);
      SucceedsIffNoUnderflow(syn, tokens, []);
      StackSize(syn, tokens, []);
    }
  }
}
