/** Division facts shared by the paged memory and by the file system. */
module Arith {

  function Min(a: int, b: int): int {
    if a < b then a else b
  }

  /** Units of size `u` needed to hold `n`: the rounding both modules do by hand. */
  function CeilDiv(n: nat, u: nat): nat
    requires 0 < u
  {
    (n + u - 1) / u
  }

  lemma MulMonotone(a: int, b: int, u: nat)
    requires a <= b
    ensures a * u <= b * u
  {
  }

  /** A non-zero multiple of `u` is at least `u` away from zero. */
  lemma MulAway(d: int, u: int)
    requires 0 < u
    ensures d >= 1 ==> d * u >= u
    ensures d <= -1 ==> d * u <= -u
  {
  }

  lemma DivModUnique(a: int, u: int, q: int, r: int)
    requires 0 < u && 0 <= r < u && a == q * u + r
    ensures a / u == q && a % u == r
  {
    MulAway(q - a / u, u);
    assert (q - a / u) * u == a % u - r;
  }

  lemma DivMonotone(a: int, b: int, u: nat)
    requires 0 < u && a <= b
    ensures a / u <= b / u
  {
    if a / u >= b / u + 1 {
      MulMonotone(b / u + 1, a / u, u);
    }
  }

  /** `CeilDiv` is the least number of units that holds `n`. */
  lemma CeilDivLeast(n: nat, u: nat, k: nat)
    requires 0 < u
    ensures CeilDiv(n, u) <= k <==> n <= k * u
  {
    var c := CeilDiv(n, u);
    if c <= k {
      MulMonotone(c, k, u);
    } else {
      MulMonotone(k + 1, c, u);
    }
  }

  /** The code's way to round up: divide, and add one if there is a remainder. */
  lemma RoundUp(n: nat, u: nat)
    requires 0 < u
    ensures CeilDiv(n, u) == n / u + (if n % u != 0 then 1 else 0)
  {
    MulDistributes(n / u, 1, u);
    CeilDivUnique(n, u, n / u + (if n % u != 0 then 1 else 0));
  }

  /** What is left over in the last unit. */
  function Slack(n: nat, u: nat): (r: nat)
    requires 0 < u
    ensures r < u && CeilDiv(n, u) * u == n + r
  {
    CeilDivLeast(n, u, CeilDiv(n, u));
    var c := CeilDiv(n, u);
    if c > 0 then CeilDivLeast(n, u, c - 1); c * u - n else 0
  }

  lemma CeilDivUnique(n: nat, u: nat, c: nat)
    requires 0 < u && c * u - u < n <= c * u
    ensures CeilDiv(n, u) == c
  {
    CeilDivLeast(n, u, c);
    if c > 0 {
      CeilDivLeast(n, u, c - 1);
    }
  }

  lemma MulDistributes(a: int, b: int, u: int)
    ensures (a + b) * u == a * u + b * u && (a - b) * u == a * u - b * u
  {
  }

  /** Rounding a sum is rounding its parts, unless what they leave over makes a unit. */
  lemma CeilDivSum(a: nat, b: nat, u: nat)
    requires 0 < u
    ensures CeilDiv(a + b, u) == CeilDiv(a, u) + CeilDiv(b, u) - (if Slack(a, u) + Slack(b, u) < u then 0 else 1)
  {
    var c := CeilDiv(a, u) + CeilDiv(b, u);
    MulDistributes(CeilDiv(a, u), CeilDiv(b, u), u);
    if Slack(a, u) + Slack(b, u) < u {
      CeilDivUnique(a + b, u, c);
    } else {
      MulDistributes(c, 1, u);
      CeilDivUnique(a + b, u, c - 1);
    }
  }

  lemma CeilDivExact(k: nat, u: nat)
    requires 0 < u
    ensures CeilDiv(k * u, u) == k && Slack(k * u, u) == 0
  {
    CeilDivUnique(k * u, u, k);
  }
}
