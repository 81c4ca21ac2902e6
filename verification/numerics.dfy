/** The floating-point primitives the engine calls, kept uninterpreted:
    `math.log`, the square root inside `np.linalg.norm`, and `round(x, 4)`.
    The model only relies on the laws collected in `Lawful`. */
module Numerics {

  datatype Ops = Ops(log: real -> real, sqrt: real -> real, round4: real -> real)

  /** The facts about the primitives the proofs use: `log(1) = 0`, `log` is
      monotone on `[1, ∞)`, `round(0, 4) = 0` and rounding keeps a
      non-negative number non-negative. */
  ghost predicate Lawful(ops: Ops) {
    && ops.log(1.0) == 0.0
    && (forall x: real, y: real :: 1.0 <= x <= y ==> ops.log(x) <= ops.log(y))
    && ops.round4(0.0) == 0.0
    && (forall x: real :: 0.0 <= x ==> 0.0 <= ops.round4(x))
  }
}
