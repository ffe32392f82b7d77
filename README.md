# Postfix evaluator of ExpressionParser, modelled in Dafny

`ExpressionParser` is a Java class for turning an infix arithmetic expression
into postfix (Reverse-Polish) form and evaluating it. Only the evaluation
half is implemented: `evaluate` drains a queue of string tokens. A number
token is read with `Double.parseDouble` and pushed onto a stack of values. An
operator token (one of `+ - * / ^`, the `OPERATORS` table) pops the right
operand, then the left one, and pushes `calculate(operator, right, left)`.
When the queue is empty the top of the stack is returned.

This project models that evaluator:

- `wrappers.dfy`: `Option` (Java's `null`) and `Result` (a value or an exception).
- `numbers.dfy`: the number domain. The Java `double` operations and
  `Double.parseDouble` become the uninterpreted fields of an `Arithmetic<N>`
  record over a type parameter `N`. A literal the reader rejects gives `None`,
  which stands for a `NumberFormatException`.
- `operators.dfy`: the operator constants and table, `IsOperator` (the
  table scan as a `for` loop with an early return) and `Calculate` (the
  operator dispatch, with its swapped parameter order and its `null` default).
- `postfix.dfy`: the meaning of the evaluation loop as functions. `Step` is
  one iteration and `Steps` the whole loop. `Eval` is the returned value or
  the exception. `Consumed` is how many tokens leave the queue. The stack is
  a sequence with its top at the end, as in `java.util.Stack`. This file also
  holds the lemmas about stack height, underflow, operand order and leftover
  values.
- `evaluator.dfy`: `Evaluate`, the imperative loop. The caller's
  `ArrayDeque<String>` is the class `TokenQueue`, which the loop mutates in
  place. The method is proved to return `Eval` of the initial tokens. It is
  also proved to leave in the queue exactly the tokens after those it
  consumed.
- `expressions.dfy`: an independent reference, binary expression trees with
  their postfix form and value. Evaluating the postfix form of a tree gives
  the tree's value. The well-formed postfix sequences are exactly the
  postfix forms of trees. Every well-formed sequence evaluates to the value
  of its tree.

Exceptions become `EvalError`. `EmptyStack` is the `EmptyStackException`
that `Stack.pop` throws: an operator that finds fewer than two values, or an
empty stack at the final pop. `NumberFormat(token)` is the
`NumberFormatException` from `Double.parseDouble`. Java evaluates
`expression.remove()` before the two pops and before `parseDouble`, so the
token that throws has already left the queue. The model keeps this:
`Consumed` counts that token.

The code has no guard of its own. It throws `EmptyStackException` on
underflow, returns the top value when several are left over (the TODO at
ExpressionParser/src/ExpressionParser.java:72), and treats any token outside
`+ - * / ^` as a number. The model does the same.

## Model

`Postfix.Steps` (the loop of ExpressionParser/src/ExpressionParser.java:57-70)
has no contract of its own. Its properties are the lemmas `StackSize`,
`SucceedsIffNoUnderflow`, `StepsAppend` and `StepsFrame`. `Operators.Symbol`
(the constants at :23-27) and `Operators.Apply` (the arithmetic at :124-137)
are helpers. Their meaning is stated by the contracts of `OperatorOf` and
`Calculate`.

| member | source | states |
|---|---|---|
| `Operators.OperatorOf` | ExpressionParser/src/ExpressionParser.java:23-33 | a token names an operation exactly when it is in the five-symbol table; decoding is the inverse of the table symbol of each operation |
| `Operators.IsOperator` | ExpressionParser/src/ExpressionParser.java:153-163 | returns true exactly when the token is in the table, i.e. is one of `+`, `-`, `*`, `/`, `^`, and false for every other string |
| `Operators.Calculate` | ExpressionParser/src/ExpressionParser.java:120-142 | gives a value exactly for table symbols, `null` otherwise; for every operation the value is `operand1 op operand2`, the second parameter being the right operand |
| `Postfix.Step` | ExpressionParser/src/ExpressionParser.java:60-69 | one token: an operator with fewer than two values throws `EmptyStack` and an unreadable number throws `NumberFormat` of that token, and these are its only failures; otherwise the stack height changes by -1 for an operator and +1 for a number, an operator replaces the top two values by `lower op top` and a number pushes its value |
| `Postfix.StepOperator` | ExpressionParser/src/ExpressionParser.java:63-65 | an operator over `below + [x, y]` leaves `below + [x op y]` |
| `Postfix.StepNumber` | ExpressionParser/src/ExpressionParser.java:69 | a readable number token pushes its value on top of the unchanged stack |
| `Postfix.Consumed` | ExpressionParser/src/ExpressionParser.java:57-69 | the loop removes every token when it returns normally and at least one when it throws; which token that last one is, is stated by `ThrowingTokenIsLast` |
| `Postfix.ThrowingTokenIsLast` | ExpressionParser/src/ExpressionParser.java:63-69 | on an exception, the last token removed is the one that throws: the tokens before it run without one, and that token fails with the same error on the stack they leave; so every later token stays in the queue |
| `Postfix.FailureIgnoresRest` | ExpressionParser/src/ExpressionParser.java:57-69 | an exception is decided by the consumed tokens alone; the tokens left in the queue are never examined |
| `Postfix.Eval` | ExpressionParser/src/ExpressionParser.java:72-75 | an empty input throws `EmptyStackException` at the final pop; a returned value means the loop ended with at least one value on the stack |
| `Postfix.BalanceCounts` | ExpressionParser/src/ExpressionParser.java:60-69 | the per-token height changes add up to the number of number tokens minus the number of operator tokens |
| `Postfix.StackSize` | ExpressionParser/src/ExpressionParser.java:60-69 | after a run without an exception the stack height is the start height plus (#numbers - #operators) |
| `Postfix.SucceedsIffNoUnderflow` | ExpressionParser/src/ExpressionParser.java:63-65 | when every number parses, the loop runs without an exception exactly when no operator meets a stack of fewer than two values (both directions) |
| `Postfix.RunSucceedsIff` | ExpressionParser/src/ExpressionParser.java:63-69 | the loop runs without an exception exactly when every number token parses and no operator meets a stack of fewer than two values; an unreadable number anywhere in the input makes it throw |
| `Postfix.NumberFormatNamesToken` | ExpressionParser/src/ExpressionParser.java:69 | a number-format failure names an input token that is not an operator and that the reader rejects |
| `Postfix.StepsAppend` | ExpressionParser/src/ExpressionParser.java:57-70 | running two token sequences one after the other equals running their concatenation, an exception in the first stopping everything |
| `Postfix.StepsFrame` | ExpressionParser/src/ExpressionParser.java:63-69 | values below the part of the stack that a run uses stay untouched |
| `Postfix.LeftoverIgnored` | ExpressionParser/src/ExpressionParser.java:72-75 | values left over from an earlier part of the input are ignored: the result is what the last part alone evaluates to |
| `Postfix.WellFormedSucceeds` | ExpressionParser/src/ExpressionParser.java:57-75 | a well-formed sequence whose numbers parse ends with exactly one value, which is returned |
| `Postfix.EvalSucceedsIff` | ExpressionParser/src/ExpressionParser.java:57-75 | when every number parses, a value is returned exactly when no operator underflows and at least one value is left, which given no underflow is exactly a non-empty input; more than one left is not an error |
| `Postfix.NoUnderflowLeavesValue` | ExpressionParser/src/ExpressionParser.java:72-75 | when no operator underflows, at least one value is left exactly when the input is non-empty, so the final `pop` throws only on an empty input |
| `Postfix.SingleToken` | ExpressionParser/src/ExpressionParser.java:69-75 | `[x]` evaluates to the parsed value of `x`, throws a number-format error if `x` does not parse, and underflows if `x` is an operator |
| `Postfix.OperandOrder` | ExpressionParser/src/ExpressionParser.java:120-137 | `[a, b, op]` evaluates to `a op b`: for `-`, `/` and `^` the first-pushed value is the left operand |
| `Evaluator.TokenQueue.IsEmpty` | ExpressionParser/src/ExpressionParser.java:57 | true exactly when the queue holds no token |
| `Evaluator.TokenQueue.Peek` | ExpressionParser/src/ExpressionParser.java:60 | returns the head without removing it |
| `Evaluator.TokenQueue.Remove` | ExpressionParser/src/ExpressionParser.java:63 | returns the head and leaves the rest of the queue |
| `Evaluator.Evaluate` | ExpressionParser/src/ExpressionParser.java:45-76 | returns `Eval` of the initial tokens, value or exception; the queue afterwards holds exactly the tokens after the consumed ones, so it is empty on a normal return; `calculate` is only reached for table symbols, so no `null` is ever pushed |
| `Expressions.PostfixBalance` | ExpressionParser/src/ExpressionParser.java:47-51 | the postfix form of a tree (left operand, right operand, operator) whose literals are not spelled like operators has exactly one more number token than operator tokens |
| `Expressions.StepsToPostfix` | ExpressionParser/src/ExpressionParser.java:57-70 | running the postfix form of a tree pushes the tree's value, or stops at its first unreadable literal |
| `Expressions.EvalToPostfix` | ExpressionParser/src/ExpressionParser.java:45-76 | evaluating the postfix form of a tree gives the tree's value, each operator combining left subtree with right subtree in that order |
| `Expressions.BuildStep` | ExpressionParser/src/ExpressionParser.java:60-69 | one token, evaluated over trees, adds exactly that token to the postfix form of the stack |
| `Expressions.BuildKeepsTokens` | ExpressionParser/src/ExpressionParser.java:57-70 | evaluating over trees keeps the postfix form of the stack equal to the tokens read so far |
| `Expressions.WellFormedMeaning` | ExpressionParser/src/ExpressionParser.java:45-76 | a well-formed sequence is the postfix form of the tree that evaluation over trees builds, and in every number domain it evaluates to that tree's value |
| `Expressions.WellFormedIffTree` | ExpressionParser/src/ExpressionParser.java:45-76 | a token sequence is well-formed exactly when it is the postfix form of some expression tree (both directions) |

## Left out

- `parse` (ExpressionParser/src/ExpressionParser.java:88-90) is a stub that returns `null`. It has no behaviour to model. ExpressionParser/src/ExpressionParserTests.java only states what it should produce. Cases 1-11 and 16-29 (lines 25-116 and 135-249) expect postfix output for plain, multi-operator and bracketed input, for example `"(6-2)/4"` giving `[6.0, 2.0, -, 4.0, /]`. Signed numbers (cases 12-15) and malformed input (cases 30-35) print "Not implemented yet".
- `parseAndEval` (ExpressionParser/src/ExpressionParser.java:102-106) only passes the stub's `null` to `evaluate`.
- ExpressionParser/src/ExpressionParserTests.java is a console harness. Every expectation it prints targets `parse`, so it has nothing to say about `evaluate`.
- IEEE `double` arithmetic, `Math.pow` and the syntax that `Double.parseDouble` accepts are uninterpreted parameters (`Arithmetic<N>`). Division by zero is therefore not an error in the model, as in Java. The model proves nothing about the numbers themselves.
- Boxing of `Double` values and `calculate`'s `Double` return type are not modelled. The `null` default of `calculate` is `None`, and the model proves `evaluate` never reaches it.
- `java.util.Stack` is a local sequence, not an object. No other code can see it.
- `Evaluator.TokenQueue.Peek`, `Evaluator.TokenQueue.Remove`: on an empty queue `ArrayDeque.peek` returns `null` and `remove` throws. That behaviour is not modelled, because `evaluate` calls both only after checking that the queue is not empty.
- A `null` queue argument (a `NullPointerException` in `evaluate`) is not modelled.
