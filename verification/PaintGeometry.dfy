/**
 What a paint tree means on a triangle (src/injection/paint-color.ts): midpoint
 subdivision, and the coloured facets that a tree paints under a depth cap.
 The theorems: painting conserves the vector area of the source triangle, every facet is
 a positive multiple of it (so the winding is kept), facets stay inside every box that
 holds the corners, and an uncapped tree paints exactly its leaves.
 */
module PaintGeometry {
  import opened PaintTree

  datatype Vec3 = Vec3(x: real, y: real, z: real)
  datatype Tri = Tri(a: Vec3, b: Vec3, c: Vec3)
  datatype Facet = Facet(tri: Tri, extruder: nat)

  function Mid(a: Vec3, b: Vec3): Vec3 {
    Vec3((a.x + b.x) / 2.0, (a.y + b.y) / 2.0, (a.z + b.z) / 2.0)
  }

  /** The corners renamed so that the side `side % 3` comes first. */
  function Rotated(t: Tri, side: nat): Tri {
    if side % 3 == 0 then t
    else if side % 3 == 1 then Tri(t.b, t.c, t.a)
    else Tri(t.c, t.a, t.b)
  }

  function Children(t: Tri, split: nat, side: nat): (kids: seq<Tri>)
    requires 1 <= split <= 3
    ensures |kids| == split + 1
  {
    var Tri(l0, l1, l2) := Rotated(t, side);
    if split == 1 then
      var m21 := Mid(l2, l1);
      [Tri(l0, l1, m21), Tri(m21, l2, l0)]
    else if split == 2 then
      var m10, m02 := Mid(l1, l0), Mid(l0, l2);
      [Tri(l0, m10, m02), Tri(m10, l1, m02), Tri(l1, l2, m02)]
    else
      var m10, m21, m02 := Mid(l1, l0), Mid(l2, l1), Mid(l0, l2);
      [Tri(l0, m10, m02), Tri(m10, l1, m21), Tri(m21, l2, m02), Tri(m10, m21, m02)]
  }

  /** State 0 is the object's base extruder, state n is filament n. */
  function Resolve(base: nat, state: nat): nat { if state == 0 then base else state }

  /** The facets a tree paints, in emission order. A split node at the cap is one facet in its first state. */
  function Paint(t: Tree, tri: Tri, depth: int, cap: int, base: nat): (fs: seq<Facet>)
    requires Valid(t)
    decreases t, 1
  {
    match t
    case Leaf(state) => [Facet(tri, Resolve(base, state))]
    case Split(side, kids) =>
      if depth < cap then PaintKids(kids, Children(tri, |kids| - 1, side), depth + 1, cap, base)
      else [Facet(tri, Resolve(base, FirstState(t)))]
  }

  function PaintKids(kids: seq<Tree>, tris: seq<Tri>, depth: int, cap: int, base: nat): (fs: seq<Facet>)
    requires ValidAll(kids) && |tris| == |kids|
    decreases kids, 0
  {
    if kids == [] then []
    else
      var last := |kids| - 1;
      Paint(kids[last], tris[last], depth, cap, base)
      + PaintKids(kids[..last], tris[..last], depth, cap, base)
  }

  // ---- conservation of the surface ----

  function Plus(u: Vec3, v: Vec3): Vec3 { Vec3(u.x + v.x, u.y + v.y, u.z + v.z) }

  function Scale(k: real, v: Vec3): Vec3 { Vec3(k * v.x, k * v.y, k * v.z) }

  /** One component of (b - a) x (c - a) / 2, from the two coordinates that enter it. */
  function HalfCross(au: real, av: real, bu: real, bv: real, cu: real, cv: real): real {
    ((bu - au) * (cv - av) - (bv - av) * (cu - au)) / 2.0
  }

  /** The vector area: its length is the area, its direction the outward normal. */
  function Area(t: Tri): Vec3 {
    Vec3(HalfCross(t.a.y, t.a.z, t.b.y, t.b.z, t.c.y, t.c.z),
         HalfCross(t.a.z, t.a.x, t.b.z, t.b.x, t.c.z, t.c.x),
         HalfCross(t.a.x, t.a.y, t.b.x, t.b.y, t.c.x, t.c.y))
  }

  function Sum(vs: seq<Vec3>): Vec3 {
    if |vs| == 0 then Vec3(0.0, 0.0, 0.0) else Plus(vs[0], Sum(vs[1..]))
  }

  function Areas(fs: seq<Facet>): seq<Vec3> {
    seq(|fs|, i requires 0 <= i < |fs| => Area(fs[i].tri))
  }

  function TotalArea(fs: seq<Facet>): Vec3 { Sum(Areas(fs)) }

  function TrisArea(ts: seq<Tri>): Vec3 {
    if |ts| == 0 then Vec3(0.0, 0.0, 0.0) else Plus(Area(ts[|ts| - 1]), TrisArea(ts[..|ts| - 1]))
  }

  lemma PlusLaws(u: Vec3, v: Vec3, w: Vec3)
    ensures Plus(u, Plus(v, w)) == Plus(Plus(u, v), w)
    ensures Plus(Vec3(0.0, 0.0, 0.0), u) == u
  {
  }

  lemma SumCons(v: Vec3, vs: seq<Vec3>)
    ensures Sum([v] + vs) == Plus(v, Sum(vs))
  {
    assert ([v] + vs)[1..] == vs;
  }

  lemma {:induction false} SumAppend(us: seq<Vec3>, vs: seq<Vec3>)
    ensures Sum(us + vs) == Plus(Sum(us), Sum(vs))
  {
    if |us| == 0 {
      assert us + vs == vs;
      PlusLaws(Sum(vs), Sum(vs), Sum(vs));
    } else {
      var v, tail := us[0], us[1..];
      SumAppend(tail, vs);
      calc {
        Sum(us + vs);
        { assert us + vs == [v] + (tail + vs); }
        Sum([v] + (tail + vs));
        { SumCons(v, tail + vs); }
        Plus(v, Plus(Sum(tail), Sum(vs)));
        { PlusLaws(v, Sum(tail), Sum(vs)); }
        Plus(Plus(v, Sum(tail)), Sum(vs));
      }
    }
  }

  lemma TotalAreaAppend(xs: seq<Facet>, ys: seq<Facet>)
    ensures TotalArea(xs + ys) == Plus(TotalArea(xs), TotalArea(ys))
  {
    SumAppend(Areas(xs), Areas(ys));
    assert Areas(xs + ys) == Areas(xs) + Areas(ys);
  }

  /** `t` is `k` times `s` as an oriented area. */
  predicate Multiple(t: Tri, k: real, s: Tri) { k > 0.0 && Area(t) == Scale(k, Area(s)) }

  /** The share of the parent's area that child `i` gets. */
  function Share(split: nat, i: nat): real {
    if split == 1 || (split == 2 && i == 2) then 0.5 else 0.25
  }

  lemma CrossShares(au: real, av: real, bu: real, bv: real, cu: real, cv: real)
    ensures var k := HalfCross(au, av, bu, bv, cu, cv);
            var (abu, abv, bcu, bcv, cau, cav) :=
              ((bu + au) / 2.0, (bv + av) / 2.0, (cu + bu) / 2.0, (cv + bv) / 2.0, (au + cu) / 2.0, (av + cv) / 2.0);
            && HalfCross(bu, bv, cu, cv, au, av) == k
            && HalfCross(au, av, bu, bv, bcu, bcv) == 0.5 * k
            && HalfCross(bcu, bcv, cu, cv, au, av) == 0.5 * k
            && HalfCross(bu, bv, cu, cv, cau, cav) == 0.5 * k
            && HalfCross(au, av, abu, abv, cau, cav) == 0.25 * k
            && HalfCross(abu, abv, bu, bv, cau, cav) == 0.25 * k
            && HalfCross(abu, abv, bu, bv, bcu, bcv) == 0.25 * k
            && HalfCross(bcu, bcv, cu, cv, cau, cav) == 0.25 * k
            && HalfCross(abu, abv, bcu, bcv, cau, cav) == 0.25 * k
  {
  }

  lemma RotationKeepsArea(t: Tri, side: nat)
    ensures Area(Rotated(t, side)) == Area(t)
  {
    CrossSharesAll(t);
    CrossSharesAll(Tri(t.b, t.c, t.a));
  }

  lemma CrossSharesAll(t: Tri)
    ensures var (ab, bc, ca) := (Mid(t.b, t.a), Mid(t.c, t.b), Mid(t.a, t.c));
            && Area(Tri(t.b, t.c, t.a)) == Area(t)
            && Area(Tri(t.a, t.b, bc)) == Scale(0.5, Area(t))
            && Area(Tri(bc, t.c, t.a)) == Scale(0.5, Area(t))
            && Area(Tri(t.b, t.c, ca)) == Scale(0.5, Area(t))
            && Area(Tri(t.a, ab, ca)) == Scale(0.25, Area(t))
            && Area(Tri(ab, t.b, ca)) == Scale(0.25, Area(t))
            && Area(Tri(ab, t.b, bc)) == Scale(0.25, Area(t))
            && Area(Tri(bc, t.c, ca)) == Scale(0.25, Area(t))
            && Area(Tri(ab, bc, ca)) == Scale(0.25, Area(t))
  {
    CrossShares(t.a.y, t.a.z, t.b.y, t.b.z, t.c.y, t.c.z);
    CrossShares(t.a.z, t.a.x, t.b.z, t.b.x, t.c.z, t.c.x);
    CrossShares(t.a.x, t.a.y, t.b.x, t.b.y, t.c.x, t.c.y);
  }

  /** Every child is the stated positive share of its parent, and the shares add up to the whole. */
  lemma ChildrenShareArea(t: Tri, split: nat, side: nat)
    requires 1 <= split <= 3
    ensures forall i :: 0 <= i <= split ==> Multiple(Children(t, split, side)[i], Share(split, i), t)
    ensures TrisArea(Children(t, split, side)) == Area(t)
  {
    CrossSharesAll(Rotated(t, side));
    RotationKeepsArea(t, side);
    var cs := Children(t, split, side);
    assert cs[..split][..split - 1] == cs[..split - 1];
    if split >= 2 { assert cs[..split - 1][..split - 2] == cs[..split - 2]; }
    if split == 3 { assert cs[..1][..0] == cs[..0]; }
    SharesSum(Area(t), split, cs);
  }

  lemma SharesSum(v: Vec3, split: nat, cs: seq<Tri>)
    requires 1 <= split <= 3 && |cs| == split + 1
    requires forall i :: 0 <= i <= split ==> Area(cs[i]) == Scale(Share(split, i), v)
    ensures TrisArea(cs) == v
  {
    var f1, f2, f3 := cs[..split], cs[..split - 1], if split >= 2 then cs[..split - 2] else [];
    assert f1[..split - 1] == f2;
    if split >= 2 { assert f2[..split - 2] == f3; }
    if split == 3 { assert f3[..0] == []; }
    assert TrisArea(cs) == Plus(Area(cs[split]), TrisArea(f1));
    assert TrisArea(f1) == Plus(Area(cs[split - 1]), TrisArea(f2));
    if split >= 2 { assert TrisArea(f2) == Plus(Area(cs[split - 2]), TrisArea(f3)); }
    if split == 3 { assert TrisArea(f3) == Plus(Area(cs[0]), TrisArea(f3[..0])); }
  }

  lemma SingleArea(tri: Tri, extruder: nat)
    ensures TotalArea([Facet(tri, extruder)]) == Area(tri)
  {
    assert Areas([Facet(tri, extruder)]) == [Area(tri)];
    assert Sum([Area(tri)]) == Plus(Area(tri), Sum([]));
  }

  /** The facets of a painted triangle have the same total vector area as the triangle, for every
      tree and every cap. */
  lemma {:induction false} AreaConserved(t: Tree, tri: Tri, depth: int, cap: int, base: nat)
    requires Valid(t)
    ensures TotalArea(Paint(t, tri, depth, cap, base)) == Area(tri)
    decreases t, 1
  {
    SingleArea(tri, if t.Leaf? then Resolve(base, t.state) else Resolve(base, FirstState(t)));
    if t.Split? && depth < cap {
      var tris := Children(tri, |t.kids| - 1, t.side);
      ChildrenShareArea(tri, |t.kids| - 1, t.side);
      AreaConservedKids(t.kids, tris, depth + 1, cap, base);
    }
  }

  lemma {:induction false} AreaConservedKids(kids: seq<Tree>, tris: seq<Tri>, depth: int, cap: int, base: nat)
    requires ValidAll(kids) && |tris| == |kids|
    ensures TotalArea(PaintKids(kids, tris, depth, cap, base)) == TrisArea(tris)
    decreases kids, 0
  {
    if kids != [] {
      var last := |kids| - 1;
      AreaConserved(kids[last], tris[last], depth, cap, base);
      AreaConservedKids(kids[..last], tris[..last], depth, cap, base);
      TotalAreaAppend(Paint(kids[last], tris[last], depth, cap, base),
                      PaintKids(kids[..last], tris[..last], depth, cap, base));
    }
  }

  ghost predicate PositiveMultiple(t: Tri, s: Tri) { exists k: real :: Multiple(t, k, s) }

  lemma MultipleTrans(t: Tri, s: Tri, r: Tri)
    requires PositiveMultiple(t, s) && PositiveMultiple(s, r)
    ensures PositiveMultiple(t, r)
  {
    var k :| Multiple(t, k, s);
    var m :| Multiple(s, m, r);
    assert k * m > 0.0;
    ScaleScale(k, m, Area(r));
    assert Multiple(t, k * m, r);
  }

  lemma ScaleScale(k: real, m: real, v: Vec3)
    ensures Scale(k, Scale(m, v)) == Scale(k * m, v)
  {
    assert k * (m * v.x) == (k * m) * v.x;
    assert k * (m * v.y) == (k * m) * v.y;
    assert k * (m * v.z) == (k * m) * v.z;
  }

  /** No facet is flipped or degenerate relative to the source triangle. */
  lemma {:induction false} WindingKept(t: Tree, tri: Tri, depth: int, cap: int, base: nat)
    requires Valid(t)
    ensures forall f :: f in Paint(t, tri, depth, cap, base) ==> PositiveMultiple(f.tri, tri)
    decreases t, 1
  {
    assert Multiple(tri, 1.0, tri);
    if t.Split? && depth < cap {
      var split, tris := |t.kids| - 1, Children(tri, |t.kids| - 1, t.side);
      ChildrenShareArea(tri, split, t.side);
      forall i | 0 <= i <= split ensures PositiveMultiple(tris[i], tri) {
        assert Multiple(tris[i], Share(split, i), tri);
      }
      WindingKeptKids(t.kids, tris, tri, depth + 1, cap, base);
    }
  }

  lemma {:induction false} WindingKeptKids(kids: seq<Tree>, tris: seq<Tri>, parent: Tri, depth: int, cap: int,
                                           base: nat)
    requires ValidAll(kids) && |tris| == |kids|
    requires forall i :: 0 <= i < |tris| ==> PositiveMultiple(tris[i], parent)
    ensures forall f :: f in PaintKids(kids, tris, depth, cap, base) ==> PositiveMultiple(f.tri, parent)
    decreases kids, 0
  {
    if kids != [] {
      var last := |kids| - 1;
      var fs := Paint(kids[last], tris[last], depth, cap, base);
      WindingKept(kids[last], tris[last], depth, cap, base);
      forall f | f in fs ensures PositiveMultiple(f.tri, parent) {
        MultipleTrans(f.tri, tris[last], parent);
      }
      WindingKeptKids(kids[..last], tris[..last], parent, depth, cap, base);
    }
  }

  // ---- how many facets ----

  function Pow4(n: nat): nat { if n == 0 then 1 else 4 * Pow4(n - 1) }

  /** At most one facet per leaf and at most four per level above the cap; never none. */
  lemma {:induction false} FacetsBounded(t: Tree, tri: Tri, depth: int, cap: int, base: nat)
    requires Valid(t) && depth <= cap
    ensures 1 <= |Paint(t, tri, depth, cap, base)| <= Leaves(t)
    ensures |Paint(t, tri, depth, cap, base)| <= Pow4(cap - depth)
    decreases t, 1
  {
    hide Children;
    PowPositive(cap - depth);
    if t.Split? {
      LeafStatesSummary(t);
      if depth < cap {
        FacetsBoundedKids(t.kids, Children(tri, |t.kids| - 1, t.side), depth + 1, cap, base);
        AtMostFour(|t.kids|, Pow4(cap - depth - 1));
      }
    }
  }

  lemma AtMostFour(k: nat, p: nat)
    requires k <= 4
    ensures k * p <= 4 * p
  {
  }

  lemma {:induction false} PowPositive(n: nat)
    ensures Pow4(n) >= 1
  {
    if n > 0 { PowPositive(n - 1); }
  }

  lemma {:induction false} FacetsBoundedKids(kids: seq<Tree>, tris: seq<Tri>, depth: int, cap: int, base: nat)
    requires ValidAll(kids) && |tris| == |kids| && depth <= cap
    ensures |kids| <= |PaintKids(kids, tris, depth, cap, base)| <= LeavesKids(kids)
    ensures |PaintKids(kids, tris, depth, cap, base)| <= |kids| * Pow4(cap - depth)
    decreases kids, 0
  {
    if kids != [] {
      var last := |kids| - 1;
      FacetsBounded(kids[last], tris[last], depth, cap, base);
      FacetsBoundedKids(kids[..last], tris[..last], depth, cap, base);
      assert |kids| * Pow4(cap - depth) == last * Pow4(cap - depth) + Pow4(cap - depth);
    }
  }

  // ---- an uncapped tree paints its leaves ----

  function Extruders(fs: seq<Facet>): seq<nat> { seq(|fs|, i requires 0 <= i < |fs| => fs[i].extruder) }

  function ResolveAll(base: nat, states: seq<nat>): seq<nat> {
    seq(|states|, i requires 0 <= i < |states| => Resolve(base, states[i]))
  }

  /** When the cap is no lower than the tree is high, the facets carry the leaf states in order. */
  lemma {:induction false} UncappedPaintsLeaves(t: Tree, tri: Tri, depth: int, cap: int, base: nat)
    requires Valid(t) && depth + Height(t) <= cap
    ensures Extruders(Paint(t, tri, depth, cap, base)) == ResolveAll(base, LeafStates(t))
    decreases t, 1
  {
    if t.Split? {
      UncappedPaintsLeavesKids(t.kids, Children(tri, |t.kids| - 1, t.side), depth + 1, cap, base);
    }
  }

  lemma {:induction false} UncappedPaintsLeavesKids(kids: seq<Tree>, tris: seq<Tri>, depth: int, cap: int, base: nat)
    requires ValidAll(kids) && |tris| == |kids| && depth + HeightKids(kids) <= cap
    ensures Extruders(PaintKids(kids, tris, depth, cap, base)) == ResolveAll(base, LeafStatesKids(kids))
    decreases kids, 0
  {
    if kids != [] {
      var last := |kids| - 1;
      var xs, ys := Paint(kids[last], tris[last], depth, cap, base),
                    PaintKids(kids[..last], tris[..last], depth, cap, base);
      UncappedPaintsLeaves(kids[last], tris[last], depth, cap, base);
      UncappedPaintsLeavesKids(kids[..last], tris[..last], depth, cap, base);
      assert Extruders(xs + ys) == Extruders(xs) + Extruders(ys);
      assert ResolveAll(base, LeafStatesKids(kids))
          == ResolveAll(base, LeafStates(kids[last])) + ResolveAll(base, LeafStatesKids(kids[..last]));
    }
  }

  // ---- facets stay in the box ----

  datatype Box = Box(lo: Vec3, hi: Vec3)

  predicate Inside(v: Vec3, b: Box) {
    b.lo.x <= v.x <= b.hi.x && b.lo.y <= v.y <= b.hi.y && b.lo.z <= v.z <= b.hi.z
  }

  predicate TriInside(t: Tri, b: Box) { Inside(t.a, b) && Inside(t.b, b) && Inside(t.c, b) }

  /** Subdivision adds no vertex outside a box that holds the source corners. */
  lemma {:induction false} FacetsInside(t: Tree, tri: Tri, depth: int, cap: int, base: nat, box: Box)
    requires Valid(t) && TriInside(tri, box)
    ensures forall f :: f in Paint(t, tri, depth, cap, base) ==> TriInside(f.tri, box)
    decreases t, 1
  {
    if t.Split? && depth < cap {
      FacetsInsideKids(t.kids, Children(tri, |t.kids| - 1, t.side), depth + 1, cap, base, box);
    }
  }

  lemma {:induction false} FacetsInsideKids(kids: seq<Tree>, tris: seq<Tri>, depth: int, cap: int, base: nat, box: Box)
    requires ValidAll(kids) && |tris| == |kids|
    requires forall i :: 0 <= i < |tris| ==> TriInside(tris[i], box)
    ensures forall f :: f in PaintKids(kids, tris, depth, cap, base) ==> TriInside(f.tri, box)
    decreases kids, 0
  {
    if kids != [] {
      var last := |kids| - 1;
      FacetsInside(kids[last], tris[last], depth, cap, base, box);
      FacetsInsideKids(kids[..last], tris[..last], depth, cap, base, box);
    }
  }
}
