/**
 * The constants and plain records of fewbody.h, used as data by the driver.
 * Pointers between nodes of the hierarchy arena become indices into the arena.
 */
module Fewbody {
  import opened Wrappers

  /** Dimensionless and cgs constants, with the header's values. */
  const ConstPi: real := 3.141592653589793238462643
  const ConstMsun: real := 1.989e33
  const ConstRsun: real := 6.9599e10
  const ConstC: real := 2.99792458e10
  const ConstG: real := 6.67384e-8
  const ConstAu: real := 1.496e13

  const MaxStringLength: nat := 2048
  const MaxLogEntryLength: nat := 32 * MaxStringLength

  /** fb_units_t: the scales of velocity, length, time, mass and energy. */
  datatype Units = Units(v: real, l: real, t: real, m: real, E: real)

  /** A three-vector of doubles, read as exact reals. */
  datatype Vec3 = Vec3(x: real, y: real, z: real)

  const Zero3: Vec3 := Vec3(0.0, 0.0, 0.0)

  /**
   * fb_obj_t: one node of the hierarchy. `child0`/`child1` are the arena
   * indices of the two children (the C pointers obj[0]/obj[1]); both are
   * None for a single star.
   */
  datatype Obj = Obj(
    ncoll: int,
    id: seq<int>,
    idstring: string,
    m: real,
    R: real,
    Eint: real,
    Lint: Vec3,
    x: Vec3,
    v: Vec3,
    n: int,
    child0: Option<nat>,
    child1: Option<nat>,
    a: real,
    e: real,
    Lhat: Vec3,
    Ahat: Vec3,
    t: real,
    meanAnom: real)
}
