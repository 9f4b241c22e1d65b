/** What the numeric modules share. */
module Reals {
  /** fabs. */
  function Abs(x: real): real { if x < 0.0 then -x else x }

  lemma AbsIs(x: real)
    ensures Abs(x) >= 0.0 && (Abs(x) == x || Abs(x) == -x)
  {
  }

  /** The cast to an integer type: toward zero. */
  function Trunc(x: real): (n: int)
    ensures x >= 0.0 ==> n >= 0 && n as real <= x < n as real + 1.0
    ensures x <= 0.0 ==> n <= 0 && n as real - 1.0 < x <= n as real
  {
    if x >= 0.0 then x.Floor else -((-x).Floor)
  }

  lemma TruncIs(x: real, n: int)
    requires (n >= 0 && n as real <= x < n as real + 1.0) || (n <= 0 && n as real - 1.0 < x <= n as real)
    ensures Trunc(x) == n
  {
  }
}
