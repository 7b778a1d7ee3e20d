/**
 * Discounted returns over one recorded trajectory, computed exactly over
 * the reals.
 */
module Returns {

  function Power(g: real, k: nat): real
  {
    if k == 0 then 1.0 else g * Power(g, k - 1)
  }

  /** The discounted sum of a reward sequence: the sum over k of
      g^k * rs[k], written out by adding the last term to the sum of the
      others. */
  function DiscountedSum(rs: seq<real>, g: real): real
    decreases |rs|
  {
    if rs == [] then 0.0
    else DiscountedSum(rs[..|rs| - 1], g) + Power(g, |rs| - 1) * rs[|rs| - 1]
  }

  /** The discounted sum obeys the one-step recursion that the backward
      computation of returns uses: the first reward, plus the discount
      times the discounted sum of the rest. */
  lemma {:induction false} DiscountedSumFirstStep(rs: seq<real>, g: real)
    requires |rs| > 0
    ensures DiscountedSum(rs, g) == rs[0] + g * DiscountedSum(rs[1..], g)
    decreases |rs|
  {
    var n := |rs|;
    if n == 1 {
      assert rs[..0] == [];
      assert rs[1..] == [];
    } else {
      var p := rs[..n - 1];
      var x := rs[n - 1];
      var tail := rs[1..];
      DiscountedSumFirstStep(p, g);
      assert p[0] == rs[0];
      assert tail[..|tail| - 1] == p[1..];
      assert tail[|tail| - 1] == x;
      assert DiscountedSum(tail, g) == DiscountedSum(p[1..], g) + Power(g, n - 2) * x;
      assert Power(g, n - 1) == g * Power(g, n - 2);
      calc {
        DiscountedSum(rs, g);
        DiscountedSum(p, g) + Power(g, n - 1) * x;
        rs[0] + g * DiscountedSum(p[1..], g) + g * Power(g, n - 2) * x;
        rs[0] + g * (DiscountedSum(p[1..], g) + Power(g, n - 2) * x);
        rs[0] + g * DiscountedSum(tail, g);
      }
    }
  }
}
