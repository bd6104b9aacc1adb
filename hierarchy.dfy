/**
 * The triple hierarchy that main builds before integrating: three stars,
 * an inner binary over stars 0 and 1, an outer binary over the inner
 * binary and star 2, and that outer binary as the single top-level object.
 *
 * fb_hier_t keeps every node in one arena (hier.hier) and addresses the
 * level of n-body objects through the offsets hi[n]; here the C pointers
 * between nodes are arena indices. The offsets, the arena's prior contents
 * and the top-level array come from fb_malloc_hier/fb_init_hier, which are
 * not part of this model, so the constructor takes them as parameters.
 */
module TripleHier {
  import opened Wrappers
  import opened Fewbody
  import TripleUnits

  /** The values main has computed by the time it builds the hierarchy. */
  datatype SetupInput = SetupInput(
    t: real,
    m000: real, m001: real, m01: real,
    r000: real,
    a00: real, a0: real,
    e00: real, e0: real)

  /**
   * The arena slots the setup writes are distinct and inside the arena:
   * stars at hi[1]+0..2, the inner binary at hi[2], the outer at hi[3].
   */
  predicate Disjoint(hi: seq<int>, size: int)
  {
    |hi| >= 4
    && 0 <= hi[1] && hi[1] + 2 < size
    && 0 <= hi[2] < size && 0 <= hi[3] < size
    && !(hi[1] <= hi[2] <= hi[1] + 2)
    && !(hi[1] <= hi[3] <= hi[1] + 2)
    && hi[2] != hi[3]
  }

  /** The arena can take the setup: disjoint slots, and each star has an id array. */
  predicate Prepared(nodes: seq<Obj>, hi: seq<int>)
  {
    Disjoint(hi, |nodes|)
    && |nodes[hi[1]].id| >= 1 && |nodes[hi[1] + 1].id| >= 1 && |nodes[hi[1] + 2].id| >= 1
  }

  /** snprintf(s, FB_MAX_STRING_LENGTH, "%d", j) for a single decimal digit. */
  function DigitString(j: int): (s: string)
    requires 0 <= j < 10
    ensures |s| == 1 && '0' <= s[0] <= '9' && s[0] as int - '0' as int == j
  {
    [('0' as int + j) as char]
  }

  /** R = r000 * 2 G m / c^2: r000 Schwarzschild radii of a mass m. */
  function Radius(r000: real, m: real): (r: real)
    ensures r * (ConstC * ConstC) == r000 * 2.0 * ConstG * m
  {
    r000 * 2.0 * ConstG * m / (ConstC * ConstC)
  }

  /** The star's radius is r000 Schwarzschild radii of its mass. */
  predicate ScaledRadius(o: Obj, r000: real)
  {
    o.R * (ConstC * ConstC) == r000 * 2.0 * ConstG * o.m
  }

  /** The properties the leaf loop gives star j. */
  function MarkLeaf(o: Obj, j: int): Obj
    requires |o.id| >= 1 && 0 <= j < 10
  {
    o.(ncoll := 1, id := o.id[0 := j], idstring := DigitString(j), n := 1,
       child0 := None, child1 := None, Eint := 0.0, Lint := Zero3)
  }

  /** Star j after the whole setup: marked as a leaf, then its radius and mass. */
  function SetupStar(o: Obj, j: int, r000: real, m: real): Obj
    requires |o.id| >= 1 && 0 <= j < 10
  {
    MarkLeaf(o, j).(R := Radius(r000, m), m := m)
  }

  /** Node `o` is star number j: a single, uncollided star without children. */
  predicate IsStar(o: Obj, j: int)
  {
    o.ncoll == 1 && |o.id| >= 1 && o.id[0] == j && o.n == 1
    && o.child0 == None && o.child1 == None
    && o.Eint == 0.0 && o.Lint == Zero3
  }

  /** Node `o` is a binary whose children are the arena slots c0 and c1. */
  predicate IsBinary(o: Obj, c0: nat, c1: nat)
  {
    o.child0 == Some(c0) && o.child1 == Some(c1)
  }

  /**
   * The triple: stars 0, 1, 2 in their slots, the inner binary over stars 0
   * and 1, the outer binary over the inner binary and star 2, and each
   * binary as heavy as its two children together.
   */
  predicate TripleShape(nodes: seq<Obj>, hi: seq<int>)
  {
    Disjoint(hi, |nodes|)
    && IsStar(nodes[hi[1]], 0) && IsStar(nodes[hi[1] + 1], 1) && IsStar(nodes[hi[1] + 2], 2)
    && IsBinary(nodes[hi[2]], hi[1], hi[1] + 1)
    && IsBinary(nodes[hi[3]], hi[2], hi[1] + 2)
    && nodes[hi[2]].m == nodes[hi[1]].m + nodes[hi[1] + 1].m
    && nodes[hi[3]].m == nodes[hi[2]].m + nodes[hi[1] + 2].m
  }

  /** One of the five slots the setup writes. */
  predicate SetupSlot(hi: seq<int>, k: int)
    requires |hi| >= 4
  {
    hi[1] <= k <= hi[1] + 2 || k == hi[2] || k == hi[3]
  }

  /** The two binaries' children and time: slot B over stars L, L+1 and slot T over B and star L+2. */
  function LinkArena(nodes: seq<Obj>, L: nat, B: nat, T: nat, t: real): seq<Obj>
    requires B < |nodes| && T < |nodes|
  {
    nodes[B := nodes[B].(child0 := Some(L), child1 := Some(L + 1), t := t)]
         [T := nodes[T].(child0 := Some(B), child1 := Some(L + 2), t := t)]
  }

  /** The leaf loop: slots L .. L+count-1 marked as stars 0 .. count-1. */
  function MarkArena(nodes: seq<Obj>, L: nat, count: nat): seq<Obj>
    requires L + count <= |nodes| && count <= 10
    requires forall k :: L <= k < L + count ==> |nodes[k].id| >= 1
  {
    seq(|nodes|, k requires 0 <= k < |nodes| =>
      if L <= k < L + count then MarkLeaf(nodes[k], k - L) else nodes[k])
  }

  /** The stars' radii and masses. */
  function StarsArena(nodes: seq<Obj>, L: nat, p: SetupInput): seq<Obj>
    requires L + 2 < |nodes|
  {
    nodes[L := nodes[L].(R := Radius(p.r000, p.m000), m := p.m000)]
         [L + 1 := nodes[L + 1].(R := Radius(p.r000, p.m001), m := p.m001)]
         [L + 2 := nodes[L + 2].(R := Radius(p.r000, p.m01), m := p.m01)]
  }

  /** The binaries' masses, semimajor axes and eccentricities. */
  function BinariesArena(nodes: seq<Obj>, B: nat, T: nat, p: SetupInput): seq<Obj>
    requires B < |nodes| && T < |nodes|
  {
    nodes[B := nodes[B].(m := p.m000 + p.m001, a := p.a00, e := p.e00)]
         [T := nodes[T].(m := p.m000 + p.m001 + p.m01, a := p.a0, e := p.e0)]
  }

  /** The arena after the setup of main: the four write phases in their order. */
  function SetupArena(nodes: seq<Obj>, hi: seq<int>, p: SetupInput): (r: seq<Obj>)
    requires Prepared(nodes, hi)
    ensures |r| == |nodes|
  {
    var linked := LinkArena(nodes, hi[1], hi[2], hi[3], p.t);
    BinariesArena(StarsArena(MarkArena(linked, hi[1], 3), hi[1], p), hi[2], hi[3], p)
  }

  /** Slot by slot, what the setup leaves in the arena. */
  lemma SetupArenaAt(nodes: seq<Obj>, hi: seq<int>, p: SetupInput)
    requires Prepared(nodes, hi)
    ensures var r := SetupArena(nodes, hi, p);
      r[hi[1]] == SetupStar(nodes[hi[1]], 0, p.r000, p.m000)
      && r[hi[1] + 1] == SetupStar(nodes[hi[1] + 1], 1, p.r000, p.m001)
      && r[hi[1] + 2] == SetupStar(nodes[hi[1] + 2], 2, p.r000, p.m01)
      && r[hi[2]] == nodes[hi[2]].(child0 := Some(hi[1]), child1 := Some(hi[1] + 1), t := p.t,
                                   m := p.m000 + p.m001, a := p.a00, e := p.e00)
      && r[hi[3]] == nodes[hi[3]].(child0 := Some(hi[2]), child1 := Some(hi[1] + 2), t := p.t,
                                   m := p.m000 + p.m001 + p.m01, a := p.a0, e := p.e0)
  {
    var linked := LinkArena(nodes, hi[1], hi[2], hi[3], p.t);
    var marked := MarkArena(linked, hi[1], 3);
    assert marked[hi[1]] == MarkLeaf(nodes[hi[1]], 0);
    assert marked[hi[1] + 1] == MarkLeaf(nodes[hi[1] + 1], 1);
    assert marked[hi[1] + 2] == MarkLeaf(nodes[hi[1] + 2], 2);
    assert marked[hi[2]] == linked[hi[2]] && marked[hi[3]] == linked[hi[3]];
  }

  /**
   * The setup builds a triple: three stars, the inner binary over stars 0
   * and 1, the outer over the inner binary and star 2, with the masses of
   * main: m000, m001, m01 for the stars and their sums for the binaries.
   */
  lemma SetupArenaShape(nodes: seq<Obj>, hi: seq<int>, p: SetupInput)
    requires Prepared(nodes, hi)
    ensures var r := SetupArena(nodes, hi, p);
      TripleShape(r, hi)
      && r[hi[1]].m == p.m000 && r[hi[1] + 1].m == p.m001 && r[hi[1] + 2].m == p.m01
      && r[hi[2]].m == p.m000 + p.m001 && r[hi[3]].m == p.m000 + p.m001 + p.m01
  {
    SetupArenaAt(nodes, hi, p);
  }

  /**
   * The values the setup stores in the stars: each radius is r000
   * Schwarzschild radii of that star's mass, and each string id its index.
   */
  lemma SetupArenaStars(nodes: seq<Obj>, hi: seq<int>, p: SetupInput)
    requires Prepared(nodes, hi)
    ensures var r := SetupArena(nodes, hi, p);
      ScaledRadius(r[hi[1]], p.r000) && ScaledRadius(r[hi[1] + 1], p.r000) && ScaledRadius(r[hi[1] + 2], p.r000)
      && r[hi[1]].idstring == DigitString(0) && r[hi[1] + 1].idstring == DigitString(1)
      && r[hi[1] + 2].idstring == DigitString(2)
  {
    SetupArenaAt(nodes, hi, p);
  }

  /** The inner binary carries a00 and e00, the outer a0 and e0, both at time t. */
  lemma SetupArenaOrbits(nodes: seq<Obj>, hi: seq<int>, p: SetupInput)
    requires Prepared(nodes, hi)
    ensures var r := SetupArena(nodes, hi, p);
      r[hi[2]].a == p.a00 && r[hi[2]].e == p.e00 && r[hi[2]].t == p.t
      && r[hi[3]].a == p.a0 && r[hi[3]].e == p.e0 && r[hi[3]].t == p.t
  {
    SetupArenaAt(nodes, hi, p);
  }

  /** The setup touches only its five slots, and positions and velocities nowhere. */
  lemma SetupArenaFrame(nodes: seq<Obj>, hi: seq<int>, p: SetupInput, k: int)
    requires Prepared(nodes, hi) && 0 <= k < |nodes|
    ensures !SetupSlot(hi, k) ==> SetupArena(nodes, hi, p)[k] == nodes[k]
    ensures SetupArena(nodes, hi, p)[k].x == nodes[k].x && SetupArena(nodes, hi, p)[k].v == nodes[k].v
  {
    SetupArenaAt(nodes, hi, p);
  }

  /**
   * The nodes calc_units dereferences exist: the root, its two children and
   * the inner binary's two children; and `v` is the root sqrt(G(m000+m001)/a00).
   */
  predicate UnitsReady(nodes: seq<Obj>, roots: seq<Option<nat>>, v: real)
  {
    |roots| >= 1 && roots[0].Some? && roots[0].value < |nodes|
    && nodes[roots[0].value].child0.Some? && nodes[roots[0].value].child0.value < |nodes|
    && nodes[roots[0].value].child1.Some? && nodes[roots[0].value].child1.value < |nodes|
    && var b := nodes[nodes[roots[0].value].child0.value];
    b.child0.Some? && b.child0.value < |nodes| && b.child1.Some? && b.child1.value < |nodes|
    && b.a != 0.0 && v > 0.0
    && v * v * b.a == ConstG * (nodes[b.child0.value].m + nodes[b.child1.value].m)
  }

  /**
   * calc_units(obj, &units): the units taken from obj[0]->obj[0], the inner
   * binary: its two stars' masses and its semimajor axis.
   */
  function TreeUnits(nodes: seq<Obj>, roots: seq<Option<nat>>, v: real): (u: Units)
    requires UnitsReady(nodes, roots, v)
    ensures u.l == nodes[nodes[roots[0].value].child0.value].a
    ensures u.m == nodes[nodes[nodes[roots[0].value].child0.value].child0.value].m
                   + nodes[nodes[nodes[roots[0].value].child0.value].child1.value].m
    ensures ConstG * u.m * u.t * u.t == u.l * u.l * u.l
  {
    var b := nodes[nodes[roots[0].value].child0.value];
    TripleUnits.CalcUnits(nodes[b.child0.value].m, nodes[b.child1.value].m, b.a, v)
  }

  /**
   * On the triple main builds, the unit of mass is the inner binary's mass,
   * the unit of length its semimajor axis a00, and G is 1 in these units.
   */
  lemma SetupUnits(nodes: seq<Obj>, hi: seq<int>, p: SetupInput, v: real)
    requires Prepared(nodes, hi)
    requires p.a00 != 0.0 && v > 0.0 && v * v * p.a00 == ConstG * (p.m000 + p.m001)
    ensures UnitsReady(SetupArena(nodes, hi, p), [Some(hi[3])], v)
    ensures TreeUnits(SetupArena(nodes, hi, p), [Some(hi[3])], v).m == SetupArena(nodes, hi, p)[hi[2]].m
    ensures TreeUnits(SetupArena(nodes, hi, p), [Some(hi[3])], v).l == p.a00
    ensures var u := TreeUnits(SetupArena(nodes, hi, p), [Some(hi[3])], v);
            ConstG * u.m * u.t * u.t == u.l * u.l * u.l
  {
    SetupArenaShape(nodes, hi, p);
    SetupArenaOrbits(nodes, hi, p);
  }

  /** The two binaries' children and time. */
  method LinkBinaries(a: array<Obj>, L: nat, B: nat, T: nat, t: real)
    requires B < a.Length && T < a.Length && B != T
    modifies a
    ensures a[..] == LinkArena(old(a[..]), L, B, T, t)
  {
    a[B] := a[B].(child0 := Some(L), child1 := Some(L + 1), t := t);
    a[T] := a[T].(child0 := Some(B), child1 := Some(L + 2), t := t);
  }

  /** The leaf loop of main over the `count` stars. */
  method MarkLeaves(a: array<Obj>, L: nat, count: nat)
    requires count <= 10 && L + count <= a.Length
    requires forall k :: L <= k < L + count ==> |a[k].id| >= 1
    modifies a
    ensures a[..] == MarkArena(old(a[..]), L, count)
  {
    for j := 0 to count
      invariant forall k :: 0 <= k < a.Length ==>
        a[k] == if L <= k < L + j then MarkLeaf(old(a[k]), k - L) else old(a[k])
    {
      a[L + j] := MarkLeaf(a[L + j], j);
    }
  }

  /** The stars' radii, then their masses. */
  method SetStars(a: array<Obj>, L: nat, p: SetupInput)
    requires L + 2 < a.Length
    modifies a
    ensures a[..] == StarsArena(old(a[..]), L, p)
  {
    a[L] := a[L].(R := Radius(p.r000, p.m000));
    a[L + 1] := a[L + 1].(R := Radius(p.r000, p.m001));
    a[L + 2] := a[L + 2].(R := Radius(p.r000, p.m01));
    a[L] := a[L].(m := p.m000);
    a[L + 1] := a[L + 1].(m := p.m001);
    a[L + 2] := a[L + 2].(m := p.m01);
  }

  /** The binaries' masses, semimajor axes and eccentricities. */
  method SetBinaries(a: array<Obj>, B: nat, T: nat, p: SetupInput)
    requires B < a.Length && T < a.Length && B != T
    modifies a
    ensures a[..] == BinariesArena(old(a[..]), B, T, p)
  {
    a[B] := a[B].(m := p.m000 + p.m001);
    a[T] := a[T].(m := p.m000 + p.m001 + p.m01);
    a[B] := a[B].(a := p.a00);
    a[T] := a[T].(a := p.a0);
    a[B] := a[B].(e := p.e00);
    a[T] := a[T].(e := p.e0);
  }

  /** The arena writes of the setup, in the order main makes them. */
  method BuildArena(a: array<Obj>, hi: seq<int>, count: int, p: SetupInput)
    requires count == 3 && Prepared(a[..], hi)
    modifies a
    ensures a[..] == SetupArena(old(a[..]), hi, p)
  {
    LinkBinaries(a, hi[1], hi[2], hi[3], p.t);
    MarkLeaves(a, hi[1], count);
    SetStars(a, hi[1], p);
    SetBinaries(a, hi[2], hi[3], p);
  }

  /** fb_hier_t: the arena, its level offsets and counts, and the top-level objects. */
  class Hier {
    var nstarinit: int
    var nstar: int
    var nobj: int
    var hi: seq<int>
    var narr: seq<int>
    var hier: array<Obj>
    var obj: seq<Option<nat>>

    /** A three-star hierarchy whose arena can take the setup. */
    predicate Layout()
      reads this, hier
    {
      nstar == 3 && |narr| >= 4 && |obj| >= 3 && Prepared(hier[..], hi)
    }

    /** After the setup: the arena holds the triple and its root is the only top-level object. */
    predicate IsTriple()
      reads this, hier
    {
      TripleShape(hier[..], hi) && nobj == 1 && |obj| >= 3
      && obj[0] == Some(hi[3]) && obj[1] == None && obj[2] == None
    }

    /**
     * hier.nstarinit = hier.nstar = 3, then fb_malloc_hier/fb_init_hier,
     * whose results (offsets, counts, node contents) are the parameters.
     */
    constructor (hi: seq<int>, narr: seq<int>, nodes: seq<Obj>, obj: seq<Option<nat>>, nobj: int)
      requires |nodes| > 0
      ensures nstarinit == 3 && nstar == 3
      ensures this.hi == hi && this.narr == narr && this.obj == obj && this.nobj == nobj
      ensures fresh(hier) && hier[..] == nodes
    {
      nstarinit := 3;
      nstar := 3;
      this.hi := hi;
      this.narr := narr;
      this.obj := obj;
      this.nobj := nobj;
      hier := new Obj[|nodes|](k requires 0 <= k < |nodes| => nodes[k]);
    }

    /** The hierarchy creation of main, field by field in the order the C code writes. */
    method SetupTriple(p: SetupInput)
      requires Layout()
      modifies this, hier
      ensures hier == old(hier) && hi == old(hi)
      ensures nstar == old(nstar) && nstarinit == old(nstarinit)
      ensures hier[..] == SetupArena(old(hier[..]), hi, p)
      ensures narr == old(narr)[2 := 1][3 := 1]
      ensures nobj == 1 && obj == old(obj)[0 := Some(hi[3])][1 := None][2 := None]
      ensures IsTriple()
    {
      narr := narr[2 := 1];
      narr := narr[3 := 1];
      ghost var start := hier[..];
      BuildArena(hier, hi, nstar, p);
      SetupArenaShape(start, hi, p);
      nobj := 1;
      obj := obj[0 := Some(hi[3])];
      obj := obj[1 := None];
      obj := obj[2 := None];
    }

    /** calc_units(hier.obj, &units) on the current hierarchy. */
    function CurrentUnits(v: real): (u: Units)
      reads this, hier
      requires UnitsReady(hier[..], obj, v)
      ensures u.l == hier[hier[obj[0].value].child0.value].a
      ensures u.m == hier[hier[hier[obj[0].value].child0.value].child0.value].m
                     + hier[hier[hier[obj[0].value].child0.value].child1.value].m
      ensures ConstG * u.m * u.t * u.t == u.l * u.l * u.l
    {
      TreeUnits(hier[..], obj, v)
    }
  }
}
