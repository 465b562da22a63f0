/**
 Assembly of a plate's mesh (src/injection/threemf-mesh.ts): transformed vertices and indexed
 triangles are pushed into growing buffers, painted triangles are expanded into facets with
 fresh vertices, and a malformed paint string is rolled back. Meshes are already-parsed records.
 */
module MeshAssembly {
  import opened Wrappers
  import opened PaintTree
  import opened PaintGeometry
  import opened MeshBuffers
  import opened PaintDecoder

  /** The twelve numbers of a 3MF transform, row by row (3MF Core Specification, section 3.3). */
  type Transform = t: seq<real> | |t| == 12 witness seq(12, _ => 0.0)

  /** A vertex with a missing coordinate, or a triangle with a missing corner, is absent. */
  datatype TriRec = TriRec(v1: Option<nat>, v2: Option<nat>, v3: Option<nat>, paint: Option<string>)
  datatype MeshRec = MeshRec(verts: Option<seq<Option<Vec3>>>, tris: Option<seq<TriRec>>)

  function ApplyTransform(t: Option<Transform>, v: Vec3): Vec3 {
    if t.None? then v
    else
      var m := t.value;
      Vec3(v.x * m[0] + v.y * m[3] + v.z * m[6] + m[9],
           v.x * m[1] + v.y * m[4] + v.z * m[7] + m[10],
           v.x * m[2] + v.y * m[5] + v.z * m[8] + m[11])
  }

  /** The transforms applied one after the other. */
  function Place(ts: seq<Option<Transform>>, v: Vec3): Vec3
    decreases |ts|
  {
    if |ts| == 0 then v else ApplyTransform(ts[|ts| - 1], Place(ts[..|ts| - 1], v))
  }

  // ---- what the buffers must satisfy ----

  predicate WellFormed(b: Buf, paint: bool) {
    && |b.positions| % 3 == 0
    && |b.indices| % 3 == 0
    && (forall i :: 0 <= i < |b.indices| ==> b.indices[i] < |b.positions| / 3)
    && (paint ==> 3 * |b.triExtruder| == |b.indices|)
  }

  function VertexAt(ps: seq<real>, i: nat): Vec3
    requires 3 * i + 2 < |ps|
  {
    Vec3(ps[3 * i], ps[3 * i + 1], ps[3 * i + 2])
  }

  // ---- what a mesh adds ----

  function PushVertex(b: Buf, v: Vec3): Buf { b.(positions := b.positions + [v.x, v.y, v.z]) }

  function PushVertices(b: Buf, vs: seq<Option<Vec3>>, ts: seq<Option<Transform>>): Buf
    decreases |vs|
  {
    if |vs| == 0 then b
    else
      var r := PushVertices(b, vs[..|vs| - 1], ts);
      if vs[|vs| - 1].None? then r else PushVertex(r, Place(ts, vs[|vs| - 1].value))
  }

  function CountKept(vs: seq<Option<Vec3>>): nat
    decreases |vs|
  {
    if |vs| == 0 then 0 else CountKept(vs[..|vs| - 1]) + if vs[|vs| - 1].Some? then 1 else 0
  }

  predicate Usable(t: TriRec, added: nat) {
    t.v1.Some? && t.v2.Some? && t.v3.Some? && t.v1.value < added && t.v2.value < added && t.v3.value < added
  }

  predicate HasPaint(t: TriRec) { t.paint.Some? && t.paint.value != "" }

  predicate CleanPaint(t: TriRec) { HasPaint(t) && DecodedStats(t.paint.value, PAINT_DEPTH_CAP).ok }

  function Corners(b: Buf, base: nat, t: TriRec): Tri
    requires t.v1.Some? && t.v2.Some? && t.v3.Some?
    requires 3 * (base + Max(t.v1.value, Max(t.v2.value, t.v3.value))) + 2 < |b.positions|
  {
    Tri(VertexAt(b.positions, base + t.v1.value), VertexAt(b.positions, base + t.v2.value),
        VertexAt(b.positions, base + t.v3.value))
  }

  function PushPlain(b: Buf, base: nat, t: TriRec, paint: bool, ext: nat): Buf
    requires t.v1.Some? && t.v2.Some? && t.v3.Some?
  {
    Buf(b.positions,
        b.indices + [base + t.v1.value, base + t.v2.value, base + t.v3.value],
        if paint then b.triExtruder + [ext] else b.triExtruder)
  }

  function PushTriangle(b: Buf, base: nat, added: nat, t: TriRec, paint: bool, ext: nat): Buf
    requires 3 * (base + added) <= |b.positions|
  {
    if !Usable(t, added) then b
    else if paint && CleanPaint(t) then
      AddFacets(b, DecodedFacets(t.paint.value, Corners(b, base, t), ext, PAINT_DEPTH_CAP))
    else PushPlain(b, base, t, paint, ext)
  }

  function PushTriangles(b: Buf, base: nat, added: nat, ts: seq<TriRec>, paint: bool, ext: nat): (r: Buf)
    requires 3 * (base + added) <= |b.positions|
    ensures |r.positions| >= |b.positions| && r.positions[..|b.positions|] == b.positions
    decreases |ts|
  {
    if |ts| == 0 then b
    else
      var r := PushTriangles(b, base, added, ts[..|ts| - 1], paint, ext);
      var q := PushTriangle(r, base, added, ts[|ts| - 1], paint, ext);
      PushTriangleExtends(r, base, added, ts[|ts| - 1], paint, ext);
      q
  }

  lemma PushTriangleExtends(b: Buf, base: nat, added: nat, t: TriRec, paint: bool, ext: nat)
    requires 3 * (base + added) <= |b.positions|
    ensures var r := PushTriangle(b, base, added, t, paint, ext);
            |r.positions| >= |b.positions| && r.positions[..|b.positions|] == b.positions
  {
    if Usable(t, added) && paint && CleanPaint(t) {
      AddFacetsExtends(b, DecodedFacets(t.paint.value, Corners(b, base, t), ext, PAINT_DEPTH_CAP));
    }
  }

  lemma {:induction false} PushVerticesCounted(b: Buf, vs: seq<Option<Vec3>>, ts: seq<Option<Transform>>)
    ensures var r := PushVertices(b, vs, ts);
            && |r.positions| == |b.positions| + 3 * CountKept(vs)
            && r.indices == b.indices && r.triExtruder == b.triExtruder
    decreases |vs|
  {
    if |vs| > 0 { PushVerticesCounted(b, vs[..|vs| - 1], ts); }
  }

  function PushMeshBuf(b: Buf, body: MeshRec, ts: seq<Option<Transform>>, paint: bool, ext: nat): Buf {
    if body.verts.None? then b
    else
      var r := PushVertices(b, body.verts.value, ts);
      PushVerticesCounted(b, body.verts.value, ts);
      if body.tris.None? then r
      else PushTriangles(r, |b.positions| / 3, CountKept(body.verts.value), body.tris.value, paint, ext)
  }

  // ---- the imperative assembler ----

  /** The decode telemetry of a plate. */
  datatype Telemetry = Telemetry(strings: nat, clean: nat, failed: nat, leaves: nat, emitted: nat, maxState: nat)

  const NO_TELEMETRY := Telemetry(0, 0, 0, 0, 0, 0)

  /** One more decoded string. */
  function Counted(s: Telemetry, st: Stats): Telemetry {
    Telemetry(s.strings + 1, if st.ok then s.clean + 1 else s.clean, if st.ok then s.failed else s.failed + 1,
              s.leaves + st.leaves, s.emitted + st.emitted, Max(s.maxState, st.maxState))
  }

  function CountedTriangle(s: Telemetry, t: TriRec, added: nat): Telemetry {
    if Usable(t, added) && HasPaint(t) then Counted(s, DecodedStats(t.paint.value, PAINT_DEPTH_CAP)) else s
  }

  function CountedTriangles(s: Telemetry, ts: seq<TriRec>, added: nat): Telemetry
    decreases |ts|
  {
    if |ts| == 0 then s else CountedTriangle(CountedTriangles(s, ts[..|ts| - 1], added), ts[|ts| - 1], added)
  }

  function CountedMesh(s: Telemetry, body: MeshRec): Telemetry {
    if body.verts.None? || body.tris.None? then s else CountedTriangles(s, body.tris.value, CountKept(body.verts.value))
  }

  /** The paint context: present only when the plate carries painting at all. */
  class PaintCtx {
    var painted: bool
    var stats: Telemetry

    constructor ()
      ensures !painted && stats == NO_TELEMETRY
    {
      painted, stats := false, NO_TELEMETRY;
    }

    /** Every decoded string is counted once, and `painted` records that one decoded cleanly. */
    predicate Consistent()
      reads this
    {
      stats.strings == stats.clean + stats.failed && painted == (stats.clean > 0)
    }
  }

  function CountClean(ts: seq<TriRec>, added: nat): nat
    decreases |ts|
  {
    if |ts| == 0 then 0
    else CountClean(ts[..|ts| - 1], added)
         + if Usable(ts[|ts| - 1], added) && CleanPaint(ts[|ts| - 1]) then 1 else 0
  }

  /** How many triangles of the mesh decode cleanly. */
  function CleanIn(body: MeshRec): nat {
    if body.verts.None? || body.tris.None? then 0 else CountClean(body.tris.value, CountKept(body.verts.value))
  }

  /** The telemetry's clean strings are the triangles that decode cleanly, no more triangles are emitted than
      leaves are described, and an unpainted mesh leaves the telemetry alone. */
  lemma {:induction false} TelemetryAdds(s: Telemetry, ts: seq<TriRec>, added: nat)
    ensures var r := CountedTriangles(s, ts, added);
            && r.clean == s.clean + CountClean(ts, added)
            && r.strings - s.strings == (r.clean - s.clean) + (r.failed - s.failed)
            && r.emitted - s.emitted <= r.leaves - s.leaves
            && r.maxState >= s.maxState
            && ((forall t :: t in ts ==> !HasPaint(t)) ==> r == s)
    decreases |ts|
  {
    hide DecodedStats;
    if |ts| > 0 {
      var t := ts[|ts| - 1];
      TelemetryAdds(s, ts[..|ts| - 1], added);
      if t.paint.Some? { EmittedWithinLeaves(t.paint.value); }
    }
  }

  lemma EmittedWithinLeaves(hex: string)
    ensures DecodedStats(hex, PAINT_DEPTH_CAP).emitted <= DecodedStats(hex, PAINT_DEPTH_CAP).leaves
  {
    StatsBounds(hex, PAINT_DEPTH_CAP, PAINT_DEPTH_CAP);
  }

  method PlaceVertex(ts: seq<Option<Transform>>, v: Vec3) returns (r: Vec3)
    ensures r == Place(ts, v)
  {
    r := v;
    var k := 0;
    while k < |ts|
      invariant 0 <= k <= |ts| && r == Place(ts[..k], v)
    {
      r := ApplyTransform(ts[k], r);
      assert ts[..k + 1][..k] == ts[..k];
      k := k + 1;
    }
    assert ts[..k] == ts;
  }

  method PushMesh(body: MeshRec, buf: MeshBuffer, ts: seq<Option<Transform>>, ctx: PaintCtx?, ext: nat)
    returns (tris: int)
    requires WellFormed(buf.Snap(), ctx != null) && (ctx != null ==> ctx.Consistent())
    modifies buf, ctx
    ensures buf.Snap() == PushMeshBuf(old(buf.Snap()), body, ts, ctx != null, ext)
    ensures 3 * tris == |buf.indices| - |old(buf.indices)|
    ensures ctx != null ==> ctx.Consistent() && ctx.stats == CountedMesh(old(ctx.stats), body)
  {
    var base := |buf.positions| / 3;
    if body.verts.None? { return 0; }
    var verts := body.verts.value;
    ghost var was := buf.Snap();
    var added := 0;
    var v := 0;
    while v < |verts|
      invariant 0 <= v <= |verts| && added == CountKept(verts[..v])
      invariant buf.Snap() == PushVertices(was, verts[..v], ts)
      invariant ctx != null ==> ctx.Consistent() && ctx.stats == old(ctx.stats)
    {
      assert verts[..v + 1][..v] == verts[..v];
      if verts[v].Some? {
        var p := PlaceVertex(ts, verts[v].value);
        buf.positions := buf.positions + [p.x, p.y, p.z];
        added := added + 1;
      }
      v := v + 1;
    }
    assert verts[..v] == verts;
    PushVerticesCounted(was, verts, ts);
    tris := 0;
    if body.tris.Some? {
      tris := PushTriangleList(body.tris.value, buf, base, added, ctx, ext);
    }
  }

  method PushTriangleList(list: seq<TriRec>, buf: MeshBuffer, base: nat, added: nat, ctx: PaintCtx?, ext: nat)
    returns (tris: int)
    requires 3 * (base + added) <= |buf.positions| && (ctx != null ==> ctx.Consistent())
    modifies buf, ctx
    ensures buf.Snap() == PushTriangles(old(buf.Snap()), base, added, list, ctx != null, ext)
    ensures 3 * tris == |buf.indices| - |old(buf.indices)|
    ensures ctx != null ==> ctx.Consistent() && ctx.stats == CountedTriangles(old(ctx.stats), list, added)
  {
    ghost var was := buf.Snap();
    tris := 0;
    var k := 0;
    while k < |list|
      invariant 0 <= k <= |list|
      invariant buf.Snap() == PushTriangles(was, base, added, list[..k], ctx != null, ext)
      invariant 3 * tris == |buf.indices| - |was.indices|
      invariant ctx != null ==> ctx.Consistent() && ctx.stats == CountedTriangles(old(ctx.stats), list[..k], added)
    {
      assert list[..k + 1][..k] == list[..k];
      var n := PushOne(list[k], buf, base, added, ctx, ext);
      tris := tris + n;
      k := k + 1;
    }
    assert list[..k] == list;
  }

  method PushOne(t: TriRec, buf: MeshBuffer, base: nat, added: nat, ctx: PaintCtx?, ext: nat) returns (tris: int)
    requires 3 * (base + added) <= |buf.positions| && (ctx != null ==> ctx.Consistent())
    modifies buf, ctx
    ensures buf.Snap() == PushTriangle(old(buf.Snap()), base, added, t, ctx != null, ext)
    ensures 3 * tris == |buf.indices| - |old(buf.indices)|
    ensures ctx != null ==> ctx.Consistent() && ctx.stats == CountedTriangle(old(ctx.stats), t, added)
  {
    if !Usable(t, added) { return 0; }
    if ctx != null && HasPaint(t) {
      tris := PushPainted(t, buf, base, added, ctx, ext);
    } else {
      buf.indices := buf.indices + [base + t.v1.value, base + t.v2.value, base + t.v3.value];
      if ctx != null { buf.triExtruder := buf.triExtruder + [ext]; }
      tris := 1;
    }
  }

  method PushPainted(t: TriRec, buf: MeshBuffer, base: nat, added: nat, ctx: PaintCtx, ext: nat) returns (tris: int)
    requires 3 * (base + added) <= |buf.positions| && ctx.Consistent()
    requires Usable(t, added) && HasPaint(t)
    modifies buf, ctx
    ensures buf.Snap() == PushTriangle(old(buf.Snap()), base, added, t, true, ext)
    ensures 3 * tris == |buf.indices| - |old(buf.indices)|
    ensures ctx.Consistent() && ctx.stats == CountedTriangle(old(ctx.stats), t, added)
  {
    hide DecodedStats, DecodedFacets, AddFacets, Corners;
    var corners := Corners(buf.Snap(), base, t);
    ghost var was := buf.Snap();
    ghost var facets := DecodedFacets(t.paint.value, corners, ext, PAINT_DEPTH_CAP);
    var before := |buf.triExtruder|;
    var st := DecodePaintColor(corners, t.paint.value, ext, buf);
    AddFacetsExtends(was, facets);
    tris := |buf.triExtruder| - before;
    ctx.stats := ctx.stats.(strings := ctx.stats.strings + 1, leaves := ctx.stats.leaves + st.leaves,
                            emitted := ctx.stats.emitted + st.emitted);
    if st.maxState > ctx.stats.maxState { ctx.stats := ctx.stats.(maxState := st.maxState); }
    if st.ok {
      ctx.stats := ctx.stats.(clean := ctx.stats.clean + 1);
      ctx.painted := true;
    } else {
      // Malformed or short string: undo the partial facets and fall back to the plain triangle.
      ctx.stats := ctx.stats.(failed := ctx.stats.failed + 1);
      Undo(buf, tris, was, facets);
      buf.indices := buf.indices + [base + t.v1.value, base + t.v2.value, base + t.v3.value];
      buf.triExtruder := buf.triExtruder + [ext];
      tris := 1;
    }
  }

  /** Truncates the buffers by `undo` facets. */
  method Undo(buf: MeshBuffer, undo: nat, ghost was: Buf, ghost facets: seq<Facet>)
    requires buf.Snap() == AddFacets(was, facets) && undo == |facets|
    modifies buf
    ensures buf.Snap() == was
  {
    AddFacetsExtends(was, facets);
    if undo > 0 {
      buf.positions := buf.positions[..|buf.positions| - undo * 9];
      buf.indices := buf.indices[..|buf.indices| - undo * 3];
      buf.triExtruder := buf.triExtruder[..|buf.triExtruder| - undo];
    }
  }

  // ---- rollback is exact ----

  /** The triangle without its paint attribute, unless some paint tree serialises to it. */
  ghost function WithoutMalformed(t: TriRec): TriRec {
    if HasPaint(t) && !(exists tree :: Valid(tree) && NibblesOf(t.paint.value) == Some(Encode(tree)))
    then t.(paint := None) else t
  }

  ghost function StripTriangles(ts: seq<TriRec>): (r: seq<TriRec>)
    ensures |r| == |ts|
    decreases |ts|
  {
    if |ts| == 0 then [] else StripTriangles(ts[..|ts| - 1]) + [WithoutMalformed(ts[|ts| - 1])]
  }

  ghost function StripMalformed(m: MeshRec): MeshRec {
    if m.tris.None? then m else m.(tris := Some(StripTriangles(m.tris.value)))
  }

  lemma RollbackExactTriangle(b: Buf, base: nat, added: nat, t: TriRec, paint: bool, ext: nat)
    requires 3 * (base + added) <= |b.positions|
    ensures PushTriangle(b, base, added, t, paint, ext) == PushTriangle(b, base, added, WithoutMalformed(t), paint, ext)
  {
    if HasPaint(t) { OkExactlyEncodings(t.paint.value, PAINT_DEPTH_CAP); }
  }

  lemma {:induction false} RollbackExactTriangles(b: Buf, base: nat, added: nat, ts: seq<TriRec>, paint: bool, ext: nat)
    requires 3 * (base + added) <= |b.positions|
    ensures PushTriangles(b, base, added, ts, paint, ext)
            == PushTriangles(b, base, added, StripTriangles(ts), paint, ext)
    decreases |ts|
  {
    if |ts| > 0 {
      var front, ss := ts[..|ts| - 1], StripTriangles(ts);
      RollbackExactTriangles(b, base, added, front, paint, ext);
      assert ss[..|ss| - 1] == StripTriangles(front) && ss[|ss| - 1] == WithoutMalformed(ts[|ts| - 1]);
      RollbackExactTriangle(PushTriangles(b, base, added, front, paint, ext), base, added, ts[|ts| - 1], paint, ext);
    }
  }

  /** Pushing a mesh with malformed paint strings is pushing it without those attributes. */
  lemma RollbackExact(b: Buf, body: MeshRec, ts: seq<Option<Transform>>, paint: bool, ext: nat)
    ensures PushMeshBuf(b, body, ts, paint, ext) == PushMeshBuf(b, StripMalformed(body), ts, paint, ext)
  {
    if body.verts.Some? && body.tris.Some? {
      PushVerticesCounted(b, body.verts.value, ts);
      RollbackExactTriangles(PushVertices(b, body.verts.value, ts), |b.positions| / 3, CountKept(body.verts.value),
                             body.tris.value, paint, ext);
    }
  }

  // ---- soundness of the buffers ----

  lemma {:induction false} AddFacetsWellFormed(b: Buf, fs: seq<Facet>, paint: bool)
    requires WellFormed(b, paint)
    ensures WellFormed(AddFacets(b, fs), paint)
    decreases |fs|
  {
    if |fs| > 0 { AddFacetsWellFormed(b, fs[..|fs| - 1], paint); }
  }

  lemma PushTriangleWellFormed(b: Buf, base: nat, added: nat, t: TriRec, paint: bool, ext: nat)
    requires WellFormed(b, paint) && 3 * (base + added) <= |b.positions|
    ensures WellFormed(PushTriangle(b, base, added, t, paint, ext), paint)
  {
    if Usable(t, added) && paint && CleanPaint(t) {
      AddFacetsWellFormed(b, DecodedFacets(t.paint.value, Corners(b, base, t), ext, PAINT_DEPTH_CAP), paint);
    }
  }

  lemma {:induction false} PushTrianglesWellFormed(b: Buf, base: nat, added: nat, ts: seq<TriRec>, paint: bool,
                                                   ext: nat)
    requires WellFormed(b, paint) && 3 * (base + added) <= |b.positions|
    ensures WellFormed(PushTriangles(b, base, added, ts, paint, ext), paint)
    decreases |ts|
  {
    if |ts| > 0 {
      PushTrianglesWellFormed(b, base, added, ts[..|ts| - 1], paint, ext);
      PushTriangleWellFormed(PushTriangles(b, base, added, ts[..|ts| - 1], paint, ext), base, added, ts[|ts| - 1],
                             paint, ext);
    }
  }

  lemma VerticesWellFormed(b: Buf, vs: seq<Option<Vec3>>, ts: seq<Option<Transform>>, paint: bool)
    requires WellFormed(b, paint)
    ensures WellFormed(PushVertices(b, vs, ts), paint)
    ensures 3 * (|b.positions| / 3 + CountKept(vs)) == |PushVertices(b, vs, ts).positions|
  {
    PushVerticesCounted(b, vs, ts);
    hide PushVertices, CountKept;
  }

  /** Indices address vertices, triangles are whole, and a painted plate has one extruder per triangle. */
  lemma PushMeshWellFormed(b: Buf, body: MeshRec, ts: seq<Option<Transform>>, paint: bool, ext: nat)
    requires WellFormed(b, paint)
    ensures WellFormed(PushMeshBuf(b, body, ts, paint, ext), paint)
  {
    if body.verts.Some? {
      PushVerticesCounted(b, body.verts.value, ts);
      VerticesWellFormed(b, body.verts.value, ts, paint);
      hide WellFormed, PushVertices, PushTriangles, CountKept;
      var r := PushVertices(b, body.verts.value, ts);
      if body.tris.Some? {
        PushTrianglesWellFormed(r, |b.positions| / 3, CountKept(body.verts.value), body.tris.value, paint, ext);
      }
    }
  }

  // ---- painting does not move the bounding box ----

  predicate AllInside(ps: seq<real>, box: Box) {
    forall i :: 0 <= i < |ps| / 3 ==> Inside(VertexAt(ps, i), box)
  }

  lemma {:induction false} AddFacetsInside(b: Buf, fs: seq<Facet>, box: Box)
    requires |b.positions| % 3 == 0
    requires forall f :: f in fs ==> TriInside(f.tri, box)
    ensures AllInside(AddFacets(b, fs).positions, box) <==> AllInside(b.positions, box)
    ensures |AddFacets(b, fs).positions| % 3 == 0
    decreases |fs|
  {
    if |fs| > 0 {
      var r, f := AddFacets(b, fs[..|fs| - 1]), fs[|fs| - 1];
      AddFacetsInside(b, fs[..|fs| - 1], box);
      AppendInside(r.positions, f.tri, box);
    }
  }

  lemma AppendInside(ps: seq<real>, t: Tri, box: Box)
    requires |ps| % 3 == 0 && TriInside(t, box)
    ensures AllInside(ps + Flat(t), box) <==> AllInside(ps, box)
  {
    var qs, n := ps + Flat(t), |ps| / 3;
    assert |qs| / 3 == n + 3;
    assert VertexAt(qs, n) == t.a && VertexAt(qs, n + 1) == t.b && VertexAt(qs, n + 2) == t.c;
    assert forall i :: 0 <= i < n ==> VertexAt(qs, i) == VertexAt(ps, i);
    if AllInside(ps, box) {
      forall i | 0 <= i < n + 3 ensures Inside(VertexAt(qs, i), box) {
        if i < n { assert Inside(VertexAt(ps, i), box); }
      }
    } else {
      var i :| 0 <= i < n && !Inside(VertexAt(ps, i), box);
      assert !Inside(VertexAt(qs, i), box);
    }
  }

  lemma AppendVertexInside(ps: seq<real>, v: Vec3, box: Box)
    requires |ps| % 3 == 0
    ensures AllInside(ps + [v.x, v.y, v.z], box) <==> AllInside(ps, box) && Inside(v, box)
  {
    var qs, n := ps + [v.x, v.y, v.z], |ps| / 3;
    assert |qs| / 3 == n + 1 && VertexAt(qs, n) == v;
    assert forall i :: 0 <= i < n ==> VertexAt(qs, i) == VertexAt(ps, i);
    if AllInside(qs, box) {
      forall i | 0 <= i < n ensures Inside(VertexAt(ps, i), box) {
        assert Inside(VertexAt(qs, i), box);
      }
    }
  }

  lemma PushTriangleInside(b: Buf, base: nat, added: nat, t: TriRec, paint: bool, ext: nat, box: Box)
    requires |b.positions| % 3 == 0 && 3 * (base + added) <= |b.positions|
    ensures var r := PushTriangle(b, base, added, t, paint, ext);
            |r.positions| % 3 == 0 && (AllInside(r.positions, box) <==> AllInside(b.positions, box))
  {
    if Usable(t, added) && paint && CleanPaint(t) {
      var c := Corners(b, base, t);
      var fs := DecodedFacets(t.paint.value, c, ext, PAINT_DEPTH_CAP);
      FacetsKeepBox(b, t.paint.value, c, ext, box, fs);
    }
  }

  lemma FacetsKeepBox(b: Buf, hex: string, c: Tri, ext: nat, box: Box, fs: seq<Facet>)
    requires |b.positions| % 3 == 0 && fs == DecodedFacets(hex, c, ext, PAINT_DEPTH_CAP)
    requires NibblesOf(hex).Some? && |hex| > 0
    requires AllInside(b.positions, box) ==> TriInside(c, box)
    ensures |AddFacets(b, fs).positions| % 3 == 0
    ensures AllInside(AddFacets(b, fs).positions, box) <==> AllInside(b.positions, box)
  {
    hide DecodedFacets, AddFacets, TotalArea, Area, PositiveMultiple, NibblesOf, TriInside;
    if AllInside(b.positions, box) {
      SurfaceConserved(hex, c, ext, PAINT_DEPTH_CAP, box);
      AddFacetsInside(b, fs, box);
    } else {
      AddFacetsExtends(b, fs);
      StaysOutside(b.positions, AddFacets(b, fs).positions, box);
    }
  }

  /** Expanding triangles, painted or not, adds no vertex outside a box that holds the old ones. */
  lemma {:induction false} PushTrianglesInside(b: Buf, base: nat, added: nat, ts: seq<TriRec>, paint: bool, ext: nat,
                                               box: Box)
    requires |b.positions| % 3 == 0 && 3 * (base + added) <= |b.positions|
    ensures var r := PushTriangles(b, base, added, ts, paint, ext);
            |r.positions| % 3 == 0 && (AllInside(r.positions, box) <==> AllInside(b.positions, box))
    decreases |ts|
  {
    if |ts| > 0 {
      var r := PushTriangles(b, base, added, ts[..|ts| - 1], paint, ext);
      PushTrianglesInside(b, base, added, ts[..|ts| - 1], paint, ext, box);
      PushTriangleInside(r, base, added, ts[|ts| - 1], paint, ext, box);
    }
  }

  lemma StaysOutside(ps: seq<real>, qs: seq<real>, box: Box)
    requires |ps| <= |qs| && qs[..|ps|] == ps && !AllInside(ps, box)
    ensures !AllInside(qs, box)
  {
    var i :| 0 <= i < |ps| / 3 && !Inside(VertexAt(ps, i), box);
    assert qs[3 * i] == qs[..|ps|][3 * i];
    assert qs[3 * i + 1] == qs[..|ps|][3 * i + 1];
    assert qs[3 * i + 2] == qs[..|ps|][3 * i + 2];
    assert VertexAt(qs, i) == VertexAt(ps, i);
  }

  lemma PushVertexInside(b: Buf, c: Buf, v: Vec3, box: Box)
    requires |b.positions| % 3 == 0 && |c.positions| % 3 == 0
    requires AllInside(b.positions, box) <==> AllInside(c.positions, box)
    ensures var r, s := PushVertex(b, v), PushVertex(c, v);
            && |r.positions| % 3 == 0 && |s.positions| % 3 == 0
            && (AllInside(r.positions, box) <==> AllInside(s.positions, box))
  {
    AppendVertexInside(b.positions, v, box);
    AppendVertexInside(c.positions, v, box);
  }

  lemma {:induction false} PushVerticesInside(b: Buf, c: Buf, vs: seq<Option<Vec3>>, ts: seq<Option<Transform>>,
                                              box: Box)
    requires |b.positions| % 3 == 0 && |c.positions| % 3 == 0
    requires AllInside(b.positions, box) <==> AllInside(c.positions, box)
    ensures var r, s := PushVertices(b, vs, ts), PushVertices(c, vs, ts);
            && |r.positions| % 3 == 0 && |s.positions| % 3 == 0
            && (AllInside(r.positions, box) <==> AllInside(s.positions, box))
    decreases |vs|
  {
    if |vs| > 0 {
      var front := vs[..|vs| - 1];
      PushVerticesInside(b, c, front, ts, box);
      if vs[|vs| - 1].Some? {
        PushVertexInside(PushVertices(b, front, ts), PushVertices(c, front, ts), Place(ts, vs[|vs| - 1].value), box);
      }
    }
  }

  /** Buffers that no box tells apart stay so when the same mesh is pushed with and without painting. */
  lemma PushMeshInside(b: Buf, c: Buf, body: MeshRec, ts: seq<Option<Transform>>, ext: nat, box: Box)
    requires |b.positions| % 3 == 0 && |c.positions| % 3 == 0
    requires AllInside(b.positions, box) <==> AllInside(c.positions, box)
    ensures var r, s := PushMeshBuf(b, body, ts, true, ext), PushMeshBuf(c, body, ts, false, ext);
            && |r.positions| % 3 == 0 && |s.positions| % 3 == 0
            && (AllInside(r.positions, box) <==> AllInside(s.positions, box))
  {
    if body.verts.Some? {
      var vs := body.verts.value;
      PushVerticesCounted(b, vs, ts);
      PushVerticesCounted(c, vs, ts);
      PushVerticesInside(b, c, vs, ts, box);
      if body.tris.Some? {
        PushTrianglesInside(PushVertices(b, vs, ts), |b.positions| / 3, CountKept(vs), body.tris.value, true, ext, box);
        PushTrianglesInside(PushVertices(c, vs, ts), |c.positions| / 3, CountKept(vs), body.tris.value, false, ext,
                            box);
      }
    }
  }

  // ---- painting neither adds nor loses a mesh's presence ----

  predicate AnyUsable(ts: seq<TriRec>, added: nat) { exists i :: 0 <= i < |ts| && Usable(ts[i], added) }

  lemma {:induction false} PushTrianglesGrow(b: Buf, base: nat, added: nat, ts: seq<TriRec>, paint: bool, ext: nat)
    requires 3 * (base + added) <= |b.positions|
    ensures var r := PushTriangles(b, base, added, ts, paint, ext);
            |r.indices| >= |b.indices| && (|r.indices| > |b.indices| <==> AnyUsable(ts, added))
    decreases |ts|
  {
    if |ts| > 0 {
      var front, t := ts[..|ts| - 1], ts[|ts| - 1];
      var r := PushTriangles(b, base, added, front, paint, ext);
      PushTrianglesGrow(b, base, added, front, paint, ext);
      if Usable(t, added) && paint && CleanPaint(t) {
        var c := Corners(r, base, t);
        var Box(lo, hi) := Hull(c);
        SurfaceConserved(t.paint.value, c, ext, PAINT_DEPTH_CAP, Box(lo, hi));
        AddFacetsExtends(r, DecodedFacets(t.paint.value, c, ext, PAINT_DEPTH_CAP));
      }
      if AnyUsable(front, added) {
        var i :| 0 <= i < |front| && Usable(front[i], added);
        assert Usable(ts[i], added);
      } else if AnyUsable(ts, added) {
        var i :| 0 <= i < |ts| && Usable(ts[i], added);
        if i < |front| { assert Usable(front[i], added); }
      }
    }
  }

  function Least(a: real, b: real): real { if a < b then a else b }
  function Greatest(a: real, b: real): real { if a < b then b else a }

  function Hull(t: Tri): (b: Box)
    ensures TriInside(t, b)
  {
    Box(Vec3(Least(t.a.x, Least(t.b.x, t.c.x)), Least(t.a.y, Least(t.b.y, t.c.y)), Least(t.a.z, Least(t.b.z, t.c.z))),
        Vec3(Greatest(t.a.x, Greatest(t.b.x, t.c.x)), Greatest(t.a.y, Greatest(t.b.y, t.c.y)),
             Greatest(t.a.z, Greatest(t.b.z, t.c.z))))
  }

  /** A mesh contributes triangles when painted exactly when it does unpainted. */
  lemma PushMeshGrows(b: Buf, c: Buf, body: MeshRec, ts: seq<Option<Transform>>, ext: nat)
    ensures var r, s := PushMeshBuf(b, body, ts, true, ext), PushMeshBuf(c, body, ts, false, ext);
            && |r.indices| >= |b.indices| && |s.indices| >= |c.indices|
            && (|r.indices| > |b.indices| <==> |s.indices| > |c.indices|)
  {
    if body.verts.Some? {
      var vs := body.verts.value;
      PushVerticesCounted(b, vs, ts);
      PushVerticesCounted(c, vs, ts);
      if body.tris.Some? {
        PushTrianglesGrow(PushVertices(b, vs, ts), |b.positions| / 3, CountKept(vs), body.tris.value, true, ext);
        PushTrianglesGrow(PushVertices(c, vs, ts), |c.positions| / 3, CountKept(vs), body.tris.value, false, ext);
      }
    }
  }

  // ---- without a clean paint string nothing changes ----

  lemma {:induction false} NoCleanTriangles(b: Buf, c: Buf, base: nat, added: nat, ts: seq<TriRec>, ext: nat)
    requires 3 * (base + added) <= |b.positions| && b.positions == c.positions && b.indices == c.indices
    requires CountClean(ts, added) == 0
    ensures var r, s := PushTriangles(b, base, added, ts, true, ext), PushTriangles(c, base, added, ts, false, ext);
            r.positions == s.positions && r.indices == s.indices
    decreases |ts|
  {
    if |ts| > 0 { NoCleanTriangles(b, c, base, added, ts[..|ts| - 1], ext); }
  }

  lemma {:induction false} SameVertices(b: Buf, c: Buf, vs: seq<Option<Vec3>>, ts: seq<Option<Transform>>)
    requires b.positions == c.positions
    ensures PushVertices(b, vs, ts).positions == PushVertices(c, vs, ts).positions
    decreases |vs|
  {
    if |vs| > 0 { SameVertices(b, c, vs[..|vs| - 1], ts); }
  }

  /** A mesh in which no paint string decodes yields the vertices and indices of the unpainted mesh. */
  lemma NoCleanPaintNoChange(b: Buf, c: Buf, body: MeshRec, ts: seq<Option<Transform>>, ext: nat)
    requires b.positions == c.positions && b.indices == c.indices && CleanIn(body) == 0
    ensures var r, s := PushMeshBuf(b, body, ts, true, ext), PushMeshBuf(c, body, ts, false, ext);
            r.positions == s.positions && r.indices == s.indices
  {
    if body.verts.Some? {
      var vs := body.verts.value;
      PushVerticesCounted(b, vs, ts);
      PushVerticesCounted(c, vs, ts);
      SameVertices(b, c, vs, ts);
      if body.tris.Some? {
        NoCleanTriangles(PushVertices(b, vs, ts), PushVertices(c, vs, ts), |b.positions| / 3, CountKept(vs),
                         body.tris.value, ext);
      }
    }
  }
}
