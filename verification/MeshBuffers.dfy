/** The growing output buffers of the mesh extractor (src/injection/threemf-mesh.ts). */
module MeshBuffers {
  import opened PaintGeometry

  /** Flat coordinates, flat vertex indices, and one extruder per triangle. */
  datatype Buf = Buf(positions: seq<real>, indices: seq<nat>, triExtruder: seq<nat>)

  function Flat(t: Tri): (ps: seq<real>)
    ensures |ps| == 9
  {
    [t.a.x, t.a.y, t.a.z, t.b.x, t.b.y, t.b.z, t.c.x, t.c.y, t.c.z]
  }

  /** A facet brings three vertices of its own. */
  function AddFacet(b: Buf, f: Facet): Buf {
    var v := |b.positions| / 3;
    Buf(b.positions + Flat(f.tri), b.indices + [v, v + 1, v + 2], b.triExtruder + [f.extruder])
  }

  function AddFacets(b: Buf, fs: seq<Facet>): Buf
    decreases |fs|
  {
    if |fs| == 0 then b else AddFacet(AddFacets(b, fs[..|fs| - 1]), fs[|fs| - 1])
  }

  lemma {:induction false} AddFacetsAppend(b: Buf, xs: seq<Facet>, ys: seq<Facet>)
    ensures AddFacets(b, xs + ys) == AddFacets(AddFacets(b, xs), ys)
    decreases |ys|
  {
    if |ys| == 0 {
      assert xs + ys == xs;
    } else {
      var front, last := ys[..|ys| - 1], ys[|ys| - 1];
      AddFacetsAppend(b, xs, front);
      assert (xs + ys)[..|xs + ys| - 1] == xs + front && (xs + ys)[|xs + ys| - 1] == last;
    }
  }

  /** Facets only append: cutting the added lengths off again gives back the old buffers. */
  lemma {:induction false} AddFacetsExtends(b: Buf, fs: seq<Facet>)
    ensures var r := AddFacets(b, fs);
            && |r.positions| == |b.positions| + 9 * |fs| && r.positions[..|b.positions|] == b.positions
            && |r.indices| == |b.indices| + 3 * |fs| && r.indices[..|b.indices|] == b.indices
            && |r.triExtruder| == |b.triExtruder| + |fs| && r.triExtruder[..|b.triExtruder|] == b.triExtruder
    decreases |fs|
  {
    if |fs| > 0 { AddFacetsExtends(b, fs[..|fs| - 1]); }
  }

  class MeshBuffer {
    var positions: seq<real>
    var indices: seq<nat>
    var triExtruder: seq<nat>

    constructor ()
      ensures Snap() == Buf([], [], [])
    {
      positions, indices, triExtruder := [], [], [];
    }

    function Snap(): Buf
      reads this
    {
      Buf(positions, indices, triExtruder)
    }

    method Emit(tri: Tri, extruder: nat)
      modifies this
      ensures Snap() == AddFacet(old(Snap()), Facet(tri, extruder))
    {
      var v := |positions| / 3;
      positions := positions + Flat(tri);
      indices := indices + [v, v + 1, v + 2];
      triExtruder := triExtruder + [extruder];
    }
  }
}
