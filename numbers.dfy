/**
  The number domain of the evaluator. The Java code computes on `double`s
  with `+`, `-`, `*`, `/`, `Math.pow` and reads literals with
  `Double.parseDouble`; none of that floating-point behaviour is the point of
  the evaluator, so the model takes the number type as a parameter `N` and
  the operations as uninterpreted functions on it.
*/
module Numbers {
  import opened Wrappers

  /** The five binary operations on `N` and the literal reader. `parseNum`
      yields `None` exactly where `Double.parseDouble` throws a
      `NumberFormatException`. Division and power are total, as in Java,
      where dividing by zero gives an infinity or NaN instead of an error. */
  datatype Arithmetic<!N> = Arithmetic(
    add: (N, N) -> N,
    sub: (N, N) -> N,
    mul: (N, N) -> N,
    div: (N, N) -> N,
    pow: (N, N) -> N,
    parseNum: string -> Option<N>)
}
