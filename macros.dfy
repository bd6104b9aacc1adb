/**
 * The expression macros of fewbody.h: FB_MIN, FB_MAX, FB_DELTA and the
 * separation index FB_KS_K, together with the pair count kstar of
 * fb_ks_params_t. C's integer division, which truncates toward zero, is
 * written out as CDiv.
 */
module FewbodyMacros {

  /** FB_MIN(a, b): `a` when a <= b, else `b`. */
  function FbMin(a: real, b: real): (r: real)
    ensures r <= a && r <= b
    ensures r == a || r == b
    ensures a <= b ==> r == a
  {
    if a <= b then a else b
  }

  /** FB_MAX(a, b): `a` when a >= b, else `b`. */
  function FbMax(a: real, b: real): (r: real)
    ensures r >= a && r >= b
    ensures r == a || r == b
    ensures a >= b ==> r == a
  {
    if a >= b then a else b
  }

  /** FB_DELTA(i, j): the Kronecker delta. */
  function FbDelta(i: int, j: int): (d: int)
    ensures d == 0 || d == 1
    ensures d == 1 <==> i == j
  {
    if i == j then 1 else 0
  }

  lemma FbDeltaSymmetric(i: int, j: int)
    ensures FbDelta(i, j) == FbDelta(j, i)
  {
  }

  /** C's `/` on int (C99 section 6.5.5): the quotient truncated toward zero. */
  function CDiv(a: int, b: int): (q: int)
    requires b != 0
    ensures 0 <= a ==> 0 <= a - q * b < (if b > 0 then b else -b)
    ensures a < 0 ==> -(if b > 0 then b else -b) < a - q * b <= 0
  {
    if a >= 0 then
      (if b > 0 then a / b else -(a / -b))
    else
      (if b > 0 then -((-a) / b) else (-a) / (-b))
  }

  /** The subtracted term (i+1)(i+2)/2 of FB_KS_K, with C division. */
  function Tri(i: int): int
  {
    CDiv((i + 1) * (i + 2), 2)
  }

  /** FB_KS_K(i, j, nstar): the slot of pair (i, j) among the separations. */
  function KsK(i: int, j: int, nstar: int): int
  {
    i * nstar - Tri(i) + j
  }

  /** kstar = nstar*(nstar-1)/2, the number of separations (with C division). */
  function Kstar(nstar: int): int
  {
    CDiv(nstar * (nstar - 1), 2)
  }

  /** A pair of star indices in the order FB_KS_K expects. */
  predicate IsPair(i: int, j: int, nstar: int)
  {
    0 <= i < j < nstar
  }

  /** The product of two consecutive integers is even. */
  lemma ConsecutiveProductEven(i: int)
    ensures (i * (i + 1)) % 2 == 0
  {
    var q := i / 2;
    if i % 2 == 0 {
      assert i == 2 * q;
      assert i * (i + 1) == 2 * (q * (i + 1));
    } else {
      assert i + 1 == 2 * (q + 1);
      assert i * (i + 1) == 2 * (i * (q + 1));
    }
  }

  /** Dividing an even number by 2 with C division loses nothing. */
  lemma CDivEvenExact(p: int)
    requires p % 2 == 0
    ensures CDiv(p, 2) * 2 == p
  {
  }

  /**
   * The division in FB_KS_K is exact for every i, so the macro agrees with
   * its rational reading i*nstar - (i+1)(i+2)/2 + j.
   */
  lemma {:induction false} KsKDivisionExact(i: int, j: int, nstar: int)
    ensures Tri(i) * 2 == (i + 1) * (i + 2)
    ensures KsK(i, j, nstar) as real
            == (i * nstar) as real - ((i + 1) * (i + 2)) as real / 2.0 + j as real
  {
    ConsecutiveProductEven(i + 1);
    CDivEvenExact((i + 1) * (i + 2));
  }

  /** The division in kstar is exact as well. */
  lemma {:induction false} KstarExact(nstar: int)
    ensures Kstar(nstar) * 2 == nstar * (nstar - 1)
  {
    ConsecutiveProductEven(nstar - 1);
    assert (nstar - 1) * nstar == nstar * (nstar - 1);
    CDivEvenExact(nstar * (nstar - 1));
  }

  lemma {:induction false} TriStep(i: int)
    ensures Tri(i + 1) == Tri(i) + i + 2
  {
    KsKDivisionExact(i, 0, 0);
    KsKDivisionExact(i + 1, 0, 0);
    assert (i + 2) * (i + 3) == (i + 1) * (i + 2) + 2 * (i + 2);
  }

  /** Moving along a row: (i, j) -> (i, j+1) advances the slot by one. */
  lemma KsKNextInRow(i: int, j: int, nstar: int)
    ensures KsK(i, j + 1, nstar) == KsK(i, j, nstar) + 1
  {
  }

  /** Wrapping to the next row: (i, nstar-1) -> (i+1, i+2) advances the slot by one. */
  lemma {:induction false} KsKRowWrap(i: int, nstar: int)
    ensures KsK(i + 1, i + 2, nstar) == KsK(i, nstar - 1, nstar) + 1
  {
    TriStep(i);
    assert (i + 1) * nstar == i * nstar + nstar;
  }

  /** The first pair gets slot 0. */
  lemma KsKFirst(nstar: int)
    requires nstar >= 2
    ensures KsK(0, 1, nstar) == 0
  {
  }

  /** The last pair gets slot kstar-1. */
  lemma {:induction false} KsKLast(nstar: int)
    requires nstar >= 2
    ensures KsK(nstar - 2, nstar - 1, nstar) == Kstar(nstar) - 1
  {
    KsKDivisionExact(nstar - 2, nstar - 1, nstar);
    KstarExact(nstar);
    assert (nstar - 2) * nstar == nstar * (nstar - 1) - nstar;
    assert (nstar - 1) * nstar == nstar * (nstar - 1);
  }

  /** FB_KS_K is strictly increasing in lexicographic pair order. */
  lemma {:induction false} KsKIncreasing(i: int, j: int, i2: int, j2: int, nstar: int)
    requires IsPair(i, j, nstar) && IsPair(i2, j2, nstar)
    requires i < i2 || (i == i2 && j < j2)
    ensures KsK(i, j, nstar) < KsK(i2, j2, nstar)
    decreases i2 - i
  {
    if i < i2 {
      KsKRowWrap(i, nstar);
      assert KsK(i, j, nstar) <= KsK(i, nstar - 1, nstar);
      if i + 1 < i2 || j2 > i + 2 {
        KsKIncreasing(i + 1, i + 2, i2, j2, nstar);
      }
    }
  }

  /** Distinct pairs get distinct slots. */
  lemma KsKInjective(i: int, j: int, i2: int, j2: int, nstar: int)
    requires IsPair(i, j, nstar) && IsPair(i2, j2, nstar)
    requires KsK(i, j, nstar) == KsK(i2, j2, nstar)
    ensures i == i2 && j == j2
  {
    if i < i2 || (i == i2 && j < j2) {
      KsKIncreasing(i, j, i2, j2, nstar);
    } else if i2 < i || (i == i2 && j2 < j) {
      KsKIncreasing(i2, j2, i, j, nstar);
    }
  }

  /** Every pair's slot lies in [0, kstar). */
  lemma KsKInRange(i: int, j: int, nstar: int)
    requires IsPair(i, j, nstar)
    ensures 0 <= KsK(i, j, nstar) < Kstar(nstar)
  {
    KsKFirst(nstar);
    KsKLast(nstar);
    if i != 0 || j != 1 {
      KsKIncreasing(0, 1, i, j, nstar);
    }
    if i != nstar - 2 || j != nstar - 1 {
      KsKIncreasing(i, j, nstar - 2, nstar - 1, nstar);
    }
  }

  /** Slots from the start of row i onward are all reached by pairs in rows >= i. */
  lemma {:induction false} KsKReachesFrom(i: int, k: int, nstar: int)
    requires 0 <= i <= nstar - 2
    requires KsK(i, i + 1, nstar) <= k < Kstar(nstar)
    ensures exists i1, j1 :: IsPair(i1, j1, nstar) && KsK(i1, j1, nstar) == k
    decreases nstar - i
  {
    if k <= KsK(i, nstar - 1, nstar) {
      var j := i + 1 + (k - KsK(i, i + 1, nstar));
      assert KsK(i, j, nstar) == k;
      assert IsPair(i, j, nstar);
    } else {
      KsKRowWrap(i, nstar);
      if i == nstar - 2 {
        KsKLast(nstar);
        assert false;
      }
      KsKReachesFrom(i + 1, k, nstar);
    }
  }

  /** Every slot in [0, kstar) is the slot of some pair: FB_KS_K is onto. */
  lemma KsKSurjective(k: int, nstar: int)
    requires 0 <= nstar
    requires 0 <= k < Kstar(nstar)
    ensures exists i, j :: IsPair(i, j, nstar) && KsK(i, j, nstar) == k
  {
    KstarOfFew(nstar);
    KsKFirst(nstar);
    KsKReachesFrom(0, k, nstar);
  }

  lemma KstarOfFew(nstar: int)
    ensures 0 <= nstar < 2 ==> Kstar(nstar) == 0
  {
  }

  lemma MulMonotone(a: int, b: int, c: int)
    requires 0 <= a <= b && 0 <= c
    ensures a * c <= b * c
  {
  }

  /** For nstar <= 46340, nstar*nstar stays below 2^31. */
  lemma SquareFitsInt32(nstar: int)
    requires 0 <= nstar <= 46340
    ensures nstar * nstar <= 46340 * 46340 < 0x8000_0000
  {
    MulMonotone(nstar, 46340, nstar);
    MulMonotone(nstar, 46340, 46340);
  }

  /** Both products in FB_KS_K are at most nstar*nstar. */
  lemma {:induction false} KsKProductsBounded(i: int, j: int, nstar: int)
    requires IsPair(i, j, nstar)
    ensures 0 <= i * nstar <= nstar * nstar
    ensures 0 < (i + 1) * (i + 2) <= nstar * nstar
  {
    MulMonotone(i, nstar, nstar);
    MulMonotone(i + 1, nstar, i + 2);
    MulMonotone(i + 2, nstar, nstar);
    MulMonotone(1, i + 1, i + 2);
  }

  /**
   * For up to 46340 stars (46340^2 < 2^31) every intermediate value of the
   * macro fits a 32-bit C int, so its unbounded reading above is the C one.
   */
  lemma KsKFitsInt32(i: int, j: int, nstar: int)
    requires IsPair(i, j, nstar) && nstar <= 46340
    ensures 0 <= i * nstar < 0x8000_0000
    ensures 0 < (i + 1) * (i + 2) < 0x8000_0000
    ensures 0 <= KsK(i, j, nstar) < 0x8000_0000
  {
    SquareFitsInt32(nstar);
    KsKProductsBounded(i, j, nstar);
    KsKInRange(i, j, nstar);
    KstarExact(nstar);
    MulMonotone(nstar - 1, nstar, nstar);
    assert Kstar(nstar) <= nstar * nstar;
  }
}
