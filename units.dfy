/**
 * calc_units of triple.c: the scales used to non-dimensionalize the run,
 * taken from the inner binary. The velocity unit is sqrt(G(m000+m001)/a00);
 * since Dafny has no square root, the caller supplies that positive root `v`
 * and the function works with v*v.
 */
module TripleUnits {
  import opened Fewbody

  /**
   * The units from the masses m000, m001 of the inner binary's stars and its
   * semimajor axis a00. The mass unit comes out as the inner binary's mass,
   * and in these units the gravitational constant is 1.
   */
  function CalcUnits(m000: real, m001: real, a00: real, v: real): (u: Units)
    requires a00 != 0.0 && v > 0.0
    requires v * v * a00 == ConstG * (m000 + m001)
    ensures u.v == v && u.l == a00
    ensures u.t * u.v == u.l
    ensures u.m == m000 + m001
    ensures u.E == (m000 + m001) * v * v
    ensures ConstG * u.m * u.t * u.t == u.l * u.l * u.l
    ensures u.E * u.l == ConstG * u.m * u.m
  {
    var l := a00;
    var t := l / v;
    var m := l * (v * v) / ConstG;
    assert m == m000 + m001;
    assert ConstG * m * t * t == l * l * l by {
      calc {
        ConstG * m * t * t;
        == (v * v * a00) * t * t;
        == a00 * (v * t) * (v * t);
        == { assert v * t == l; }
        a00 * l * l;
      }
    }
    Units(v, l, t, m, m * (v * v))
  }
}
