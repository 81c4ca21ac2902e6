/** Dense real vectors (`np.ndarray` of the vocabulary's dimension): the zero
    vector, the dot product and L2 normalisation. */
module Vectors {
  import opened Numerics

  function Zeros(n: nat): (v: seq<real>)
    ensures |v| == n
    ensures forall j :: 0 <= j < n ==> v[j] == 0.0
  {
    seq(n, _ => 0.0)
  }

  predicate NonNegative(v: seq<real>) {
    forall j :: 0 <= j < |v| ==> 0.0 <= v[j]
  }

  predicate IsZero(v: seq<real>) {
    forall j :: 0 <= j < |v| ==> v[j] == 0.0
  }

  /** `np.dot` of two vectors of the same dimension. */
  function Dot(a: seq<real>, b: seq<real>): real
    requires |a| == |b|
  {
    if |a| == 0 then 0.0 else Dot(a[..|a| - 1], b[..|b| - 1]) + a[|a| - 1] * b[|b| - 1]
  }

  lemma {:induction false} DotNonNegative(a: seq<real>, b: seq<real>)
    requires |a| == |b|
    requires NonNegative(a) && NonNegative(b)
    ensures 0.0 <= Dot(a, b)
  {
    if |a| > 0 {
      DotNonNegative(a[..|a| - 1], b[..|b| - 1]);
      var x, y := a[|a| - 1], b[|b| - 1];
      assert 0.0 <= x * y by {
        assert 0.0 <= x && 0.0 <= y;
      }
    }
  }

  lemma {:induction false} DotZero(a: seq<real>, b: seq<real>)
    requires |a| == |b|
    requires IsZero(a)
    ensures Dot(a, b) == 0.0
  {
    if |a| > 0 {
      DotZero(a[..|a| - 1], b[..|b| - 1]);
    }
  }

  /** Divide by the Euclidean norm when that norm is positive, otherwise keep
      the vector unchanged. Whatever `sqrt` returns, every
      coordinate keeps its sign, so zero coordinates stay zero and positive
      ones stay positive. */
  function Normalize(ops: Ops, v: seq<real>): (r: seq<real>)
    ensures |r| == |v|
    ensures forall j :: 0 <= j < |v| ==> (0.0 < r[j] <==> 0.0 < v[j])
    ensures forall j :: 0 <= j < |v| ==> (r[j] == 0.0 <==> v[j] == 0.0)
    ensures forall j :: 0 <= j < |v| ==> (r[j] < 0.0 <==> v[j] < 0.0)
  {
    var norm := ops.sqrt(Dot(v, v));
    if norm > 0.0 then
      seq(|v|, j requires 0 <= j < |v| => v[j] / norm)
    else
      v
  }
}
