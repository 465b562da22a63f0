/**
 A plate's scene (src/injection/threemf-mesh.ts): every target object's meshes pushed in turn,
 one index range per object, and the axis-aligned bounds of the result.
 */
module PlateScene {
  import opened Wrappers
  import opened PaintGeometry
  import opened MeshBuffers
  import opened MeshAssembly

  /** A component whose part file or mesh body could not be found has no body. */
  datatype Component = Component(body: Option<MeshRec>, transform: Option<Transform>)
  datatype RootObject = RootObject(inlineMesh: Option<MeshRec>, components: seq<Component>)

  /** The parsed root model; `order` lists the build items in document order. */
  datatype Root = Root(order: seq<nat>, build: map<nat, Option<Transform>>, resources: map<nat, RootObject>)
  datatype Group = Group(objectId: nat, start: nat, count: nat)
  datatype Scene = Scene(buf: Buf, groups: seq<Group>)

  const EMPTY := Buf([], [], [])

  function ExtruderOf(exts: map<nat, nat>, oid: nat): nat { if oid in exts then exts[oid] else 0 }

  function ItemTransform(root: Root, oid: nat): Option<Transform> {
    if oid in root.build then root.build[oid] else None
  }

  // ---- specification of the assembly ----

  /** The meshes an object contributes, each with its chain of transforms. */
  function Placements(root: Root, oid: nat): seq<(MeshRec, seq<Option<Transform>>)> {
    if oid !in root.resources then []
    else
      var res, item := root.resources[oid], ItemTransform(root, oid);
      (if res.inlineMesh.Some? then [(res.inlineMesh.value, [item])] else []) + FromComponents(res.components, item)
  }

  function FromComponents(cs: seq<Component>, item: Option<Transform>): seq<(MeshRec, seq<Option<Transform>>)>
    decreases |cs|
  {
    if |cs| == 0 then []
    else
      var c := cs[|cs| - 1];
      FromComponents(cs[..|cs| - 1], item) + if c.body.Some? then [(c.body.value, [c.transform, item])] else []
  }

  function PushPlacements(b: Buf, ps: seq<(MeshRec, seq<Option<Transform>>)>, paint: bool, ext: nat): Buf
    decreases |ps|
  {
    if |ps| == 0 then b
    else
      var p := ps[|ps| - 1];
      PushMeshBuf(PushPlacements(b, ps[..|ps| - 1], paint, ext), p.0, p.1, paint, ext)
  }

  /** One object more: its meshes, and a group when they brought any triangle. */
  function AddObject(s: Scene, root: Root, oid: nat, paint: bool, exts: map<nat, nat>): Scene {
    var b := PushPlacements(s.buf, Placements(root, oid), paint, ExtruderOf(exts, oid));
    Scene(b, WithGroup(s.groups, oid, |s.buf.indices|, |b.indices|))
  }

  function WithGroup(groups: seq<Group>, oid: nat, start: nat, end: nat): seq<Group> {
    if end > start then groups + [Group(oid, start, end - start)] else groups
  }

  function AddObjects(root: Root, ids: seq<nat>, paint: bool, exts: map<nat, nat>): Scene
    decreases |ids|
  {
    if |ids| == 0 then Scene(EMPTY, [])
    else AddObject(AddObjects(root, ids[..|ids| - 1], paint, exts), root, ids[|ids| - 1], paint, exts)
  }

  function SceneOf(root: Root, targets: Option<seq<nat>>, paint: bool, exts: map<nat, nat>): Option<Scene> {
    var ids := if targets.Some? then targets.value else root.order;
    if |root.order| == 0 || |ids| == 0 then None
    else
      var s := AddObjects(root, ids, paint, exts);
      if |s.buf.positions| == 0 || |s.buf.indices| == 0 then None else Some(s)
  }

  lemma {:induction false} PushPlacementsAppend(b: Buf, ps: seq<(MeshRec, seq<Option<Transform>>)>,
                                                qs: seq<(MeshRec, seq<Option<Transform>>)>, paint: bool, ext: nat)
    ensures PushPlacements(b, ps + qs, paint, ext) == PushPlacements(PushPlacements(b, ps, paint, ext), qs, paint, ext)
    decreases |qs|
  {
    if |qs| == 0 {
      assert ps + qs == ps;
    } else {
      var all, front := ps + qs, qs[..|qs| - 1];
      PushPlacementsAppend(b, ps, front, paint, ext);
      assert all[..|all| - 1] == ps + front && all[|all| - 1] == qs[|qs| - 1];
    }
  }

  lemma PushPlacement(b: Buf, m: MeshRec, ts: seq<Option<Transform>>, paint: bool, ext: nat)
    ensures PushPlacements(b, [(m, ts)], paint, ext) == PushMeshBuf(b, m, ts, paint, ext)
  {
    assert [(m, ts)][..0] == [];
  }

  // ---- the imperative assembly ----

  method PushObject(root: Root, oid: nat, buf: MeshBuffer, ctx: PaintCtx?, ext: nat)
    requires oid in root.resources
    requires WellFormed(buf.Snap(), ctx != null) && (ctx != null ==> ctx.Consistent())
    modifies buf, ctx
    ensures buf.Snap() == PushPlacements(old(buf.Snap()), Placements(root, oid), ctx != null, ext)
    ensures ctx != null ==> ctx.Consistent()
  {
    var res, item := root.resources[oid], ItemTransform(root, oid);
    ghost var was := buf.Snap();
    ghost var inlined := if res.inlineMesh.Some? then [(res.inlineMesh.value, [item])] else [];
    if res.inlineMesh.Some? {
      var _ := PushMesh(res.inlineMesh.value, buf, [item], ctx, ext);
      PushPlacement(was, res.inlineMesh.value, [item], ctx != null, ext);
      PushMeshWellFormed(was, res.inlineMesh.value, [item], ctx != null, ext);
    }
    ghost var mid := buf.Snap();
    PushComponents(res.components, item, buf, ctx, ext);
    PushPlacementsAppend(was, inlined, FromComponents(res.components, item), ctx != null, ext);
  }

  /** The external meshes of an object, in order; a component without a body is skipped. */
  method PushComponents(cs: seq<Component>, item: Option<Transform>, buf: MeshBuffer, ctx: PaintCtx?, ext: nat)
    requires WellFormed(buf.Snap(), ctx != null) && (ctx != null ==> ctx.Consistent())
    modifies buf, ctx
    ensures buf.Snap() == PushPlacements(old(buf.Snap()), FromComponents(cs, item), ctx != null, ext)
    ensures WellFormed(buf.Snap(), ctx != null) && (ctx != null ==> ctx.Consistent())
  {
    hide PushPlacements, WellFormed, PushMeshBuf, CountedMesh;
    ghost var was := buf.Snap();
    NoPlacements(was, item, ctx != null, ext);
    var k := 0;
    while k < |cs|
      invariant 0 <= k <= |cs|
      invariant buf.Snap() == PushPlacements(was, FromComponents(cs[..k], item), ctx != null, ext)
      invariant WellFormed(buf.Snap(), ctx != null) && (ctx != null ==> ctx.Consistent())
    {
      var c := cs[k];
      ComponentStep(was, buf.Snap(), cs, k, item, ctx != null, ext);
      if c.body.Some? {
        PushMeshWellFormed(buf.Snap(), c.body.value, [c.transform, item], ctx != null, ext);
        var _ := PushMesh(c.body.value, buf, [c.transform, item], ctx, ext);
      }
      k := k + 1;
    }
    assert cs[..k] == cs;
  }

  lemma NoPlacements(b: Buf, item: Option<Transform>, paint: bool, ext: nat)
    ensures PushPlacements(b, FromComponents([], item), paint, ext) == b
  {
  }

  lemma ComponentStep(was: Buf, now: Buf, cs: seq<Component>, k: nat, item: Option<Transform>, paint: bool, ext: nat)
    requires k < |cs| && now == PushPlacements(was, FromComponents(cs[..k], item), paint, ext)
    ensures PushPlacements(was, FromComponents(cs[..k + 1], item), paint, ext)
         == if cs[k].body.Some? then PushMeshBuf(now, cs[k].body.value, [cs[k].transform, item], paint, ext) else now
  {
    hide PushMeshBuf;
    var c, done := cs[k], FromComponents(cs[..k], item);
    assert cs[..k + 1][..k] == cs[..k];
    if c.body.Some? {
      PushPlacementsAppend(was, done, [(c.body.value, [c.transform, item])], paint, ext);
      PushPlacement(now, c.body.value, [c.transform, item], paint, ext);
    } else {
      assert done + [] == done;
    }
  }

  method AssembleScene(root: Root, targets: Option<seq<nat>>, ctx: PaintCtx?, exts: map<nat, nat>)
      returns (scene: Option<Scene>)
    requires ctx != null ==> ctx.Consistent()
    modifies ctx
    ensures scene == SceneOf(root, targets, ctx != null, exts)
    ensures ctx != null ==> ctx.Consistent()
  {
    hide AddObjects, WithGroup, PushPlacements, Placements, WellFormed, Tiles;
    if |root.order| == 0 { return None; }
    var ids := if targets.Some? then targets.value else root.order;
    if |ids| == 0 { return None; }
    var buf := new MeshBuffer();
    var groups: seq<Group> := [];
    var k := 0;
    NoObjects(root, ctx != null, exts);
    while k < |ids|
      invariant 0 <= k <= |ids|
      invariant Scene(buf.Snap(), groups) == AddObjects(root, ids[..k], ctx != null, exts)
      invariant ctx != null ==> ctx.Consistent()
    {
      ghost var s := Scene(buf.Snap(), groups);
      SceneSound(root, ids[..k], ctx != null, exts);
      groups := PushTarget(root, ids[k], buf, groups, ctx, exts);
      AddObjectsStep(s, root, ids, k, ctx != null, exts, buf.Snap(), groups);
      k := k + 1;
    }
    assert ids[..k] == ids;
    if |buf.positions| == 0 || |buf.indices| == 0 { return None; }
    scene := Some(Scene(buf.Snap(), groups));
  }

  lemma NoObjects(root: Root, paint: bool, exts: map<nat, nat>)
    ensures AddObjects(root, [], paint, exts) == Scene(EMPTY, [])
  {
  }

  lemma AddObjectsStep(s: Scene, root: Root, ids: seq<nat>, k: nat, paint: bool, exts: map<nat, nat>, b: Buf,
                       groups: seq<Group>)
    requires k < |ids| && s == AddObjects(root, ids[..k], paint, exts)
    requires b == PushPlacements(s.buf, Placements(root, ids[k]), paint, ExtruderOf(exts, ids[k]))
    requires groups == WithGroup(s.groups, ids[k], |s.buf.indices|, |b.indices|)
    ensures Scene(b, groups) == AddObjects(root, ids[..k + 1], paint, exts)
  {
    assert ids[..k + 1][..k] == ids[..k];
  }

  /** One target object; an id without a resource is skipped. */
  method PushTarget(root: Root, oid: nat, buf: MeshBuffer, was: seq<Group>, ctx: PaintCtx?, exts: map<nat, nat>)
    returns (groups: seq<Group>)
    requires WellFormed(buf.Snap(), ctx != null) && (ctx != null ==> ctx.Consistent())
    modifies buf, ctx
    ensures buf.Snap() == PushPlacements(old(buf.Snap()), Placements(root, oid), ctx != null, ExtruderOf(exts, oid))
    ensures groups == WithGroup(was, oid, |old(buf.indices)|, |buf.indices|)
    ensures ctx != null ==> ctx.Consistent()
  {
    var start := |buf.indices|;
    groups := was;
    if oid in root.resources {
      PushObject(root, oid, buf, ctx, ExtruderOf(exts, oid));
      if |buf.indices| > start {
        groups := was + [Group(oid, start, |buf.indices| - start)];
      }
    }
  }

  // ---- the scene is sound, whatever was painted ----

  /** Groups start where the previous one ends, hold whole triangles, and cover the index buffer. */
  predicate Tiles(groups: seq<Group>, total: nat)
    decreases |groups|
  {
    if |groups| == 0 then total == 0
    else
      var g := groups[|groups| - 1];
      g.start + g.count == total && g.count > 0 && g.count % 3 == 0 && g.start % 3 == 0
        && Tiles(groups[..|groups| - 1], g.start)
  }

  lemma {:induction false} PlacementsWellFormed(b: Buf, ps: seq<(MeshRec, seq<Option<Transform>>)>, paint: bool,
                                                ext: nat)
    requires WellFormed(b, paint)
    ensures WellFormed(PushPlacements(b, ps, paint, ext), paint)
    decreases |ps|
  {
    if |ps| > 0 {
      PlacementsWellFormed(b, ps[..|ps| - 1], paint, ext);
      PushMeshWellFormed(PushPlacements(b, ps[..|ps| - 1], paint, ext), ps[|ps| - 1].0, ps[|ps| - 1].1, paint, ext);
    }
  }

  lemma AddObjectSound(s: Scene, root: Root, oid: nat, paint: bool, exts: map<nat, nat>)
    requires WellFormed(s.buf, paint) && Tiles(s.groups, |s.buf.indices|)
    ensures var r := AddObject(s, root, oid, paint, exts);
            WellFormed(r.buf, paint) && Tiles(r.groups, |r.buf.indices|)
  {
    var ps, ext := Placements(root, oid), ExtruderOf(exts, oid);
    PlacementsWellFormed(s.buf, ps, paint, ext);
    PlacementsGrowEither(s.buf, ps, paint, ext);
    TilesOneMore(s.groups, |s.buf.indices|, oid, |PushPlacements(s.buf, ps, paint, ext).indices|);
  }

  lemma TilesOneMore(groups: seq<Group>, total: nat, oid: nat, more: nat)
    requires Tiles(groups, total) && total <= more && total % 3 == 0 && more % 3 == 0
    ensures Tiles(if more > total then groups + [Group(oid, total, more - total)] else groups, more)
  {
    var r := groups + [Group(oid, total, more - total)];
    assert r[..|r| - 1] == groups;
  }

  /** After any sequence of objects the buffers are well formed and the groups tile the indices. */
  lemma {:induction false} SceneSound(root: Root, ids: seq<nat>, paint: bool, exts: map<nat, nat>)
    ensures var s := AddObjects(root, ids, paint, exts);
            WellFormed(s.buf, paint) && Tiles(s.groups, |s.buf.indices|)
    decreases |ids|
  {
    if |ids| > 0 {
      SceneSound(root, ids[..|ids| - 1], paint, exts);
      AddObjectSound(AddObjects(root, ids[..|ids| - 1], paint, exts), root, ids[|ids| - 1], paint, exts);
    }
  }

  lemma PlacementsGrowEither(b: Buf, ps: seq<(MeshRec, seq<Option<Transform>>)>, paint: bool, ext: nat)
    ensures |PushPlacements(b, ps, paint, ext).indices| >= |b.indices|
  {
    PlacementsGrow(b, b, ps, ext);
  }

  lemma {:induction false} PlacementsGrow(b: Buf, c: Buf, ps: seq<(MeshRec, seq<Option<Transform>>)>, ext: nat)
    ensures var r, s := PushPlacements(b, ps, true, ext), PushPlacements(c, ps, false, ext);
            && |r.indices| >= |b.indices| && |s.indices| >= |c.indices|
            && (|r.indices| > |b.indices| <==> |s.indices| > |c.indices|)
    decreases |ps|
  {
    if |ps| > 0 {
      var front, p := ps[..|ps| - 1], ps[|ps| - 1];
      PlacementsGrow(b, c, front, ext);
      PushMeshGrows(PushPlacements(b, front, true, ext), PushPlacements(c, front, false, ext), p.0, p.1, ext);
    }
  }

  lemma {:induction false} PlacementsInside(b: Buf, c: Buf, ps: seq<(MeshRec, seq<Option<Transform>>)>, ext: nat,
                                            box: Box)
    requires |b.positions| % 3 == 0 && |c.positions| % 3 == 0
    requires AllInside(b.positions, box) <==> AllInside(c.positions, box)
    ensures var r, s := PushPlacements(b, ps, true, ext), PushPlacements(c, ps, false, ext);
            && |r.positions| % 3 == 0 && |s.positions| % 3 == 0
            && (AllInside(r.positions, box) <==> AllInside(s.positions, box))
    decreases |ps|
  {
    if |ps| > 0 {
      var front, p := ps[..|ps| - 1], ps[|ps| - 1];
      PlacementsInside(b, c, front, ext, box);
      PushMeshInside(PushPlacements(b, front, true, ext), PushPlacements(c, front, false, ext), p.0, p.1, ext, box);
    }
  }

  function ObjectIds(gs: seq<Group>): seq<nat> { seq(|gs|, i requires 0 <= i < |gs| => gs[i].objectId) }

  ghost predicate SameScene(p: Scene, u: Scene, box: Box) {
    && |p.buf.positions| % 3 == 0 && |u.buf.positions| % 3 == 0
    && (AllInside(p.buf.positions, box) <==> AllInside(u.buf.positions, box))
    && ObjectIds(p.groups) == ObjectIds(u.groups)
    && (|p.buf.indices| > 0 <==> |u.buf.indices| > 0)
  }

  lemma AddObjectSame(p: Scene, u: Scene, root: Root, oid: nat, exts: map<nat, nat>, box: Box)
    requires SameScene(p, u, box)
    ensures SameScene(AddObject(p, root, oid, true, exts), AddObject(u, root, oid, false, exts), box)
  {
    PlacementsGrow(p.buf, u.buf, Placements(root, oid), ExtruderOf(exts, oid));
    PlacementsInside(p.buf, u.buf, Placements(root, oid), ExtruderOf(exts, oid), box);
    var p', u' := AddObject(p, root, oid, true, exts), AddObject(u, root, oid, false, exts);
    if |p'.groups| > |p.groups| {
      assert ObjectIds(p'.groups) == ObjectIds(p.groups) + [oid] && ObjectIds(u'.groups) == ObjectIds(u.groups) + [oid];
    }
  }

  /** Painted and unpainted, a plate shows the same objects inside the same boxes. */
  lemma {:induction false} PaintKeepsScene(root: Root, ids: seq<nat>, exts: map<nat, nat>, box: Box)
    ensures SameScene(AddObjects(root, ids, true, exts), AddObjects(root, ids, false, exts), box)
    decreases |ids|
  {
    if |ids| > 0 {
      var front := ids[..|ids| - 1];
      PaintKeepsScene(root, front, exts, box);
      AddObjectSame(AddObjects(root, front, true, exts), AddObjects(root, front, false, exts), root, ids[|ids| - 1],
                    exts, box);
    }
  }

  // ---- bounds ----

  function Coord(ps: seq<real>, i: nat, k: nat): real
    requires k < 3 && 3 * i + 2 < |ps|
  {
    ps[3 * i + k]
  }

  /** `v` bounds coordinate `k` of every vertex and is attained; an empty buffer has no bound. */
  predicate IsBound(ps: seq<real>, k: nat, v: Option<real>, least: bool)
    requires k < 3
  {
    if v.None? then |ps| / 3 == 0
    else
      && (forall i :: 0 <= i < |ps| / 3 ==> if least then v.value <= Coord(ps, i, k) else Coord(ps, i, k) <= v.value)
      && exists i :: 0 <= i < |ps| / 3 && Coord(ps, i, k) == v.value
  }

  predicate IsBbox(ps: seq<real>, lo: seq<Option<real>>, hi: seq<Option<real>>) {
    |lo| == 3 && |hi| == 3 && forall k :: 0 <= k < 3 ==> IsBound(ps, k, lo[k], true) && IsBound(ps, k, hi[k], false)
  }

  /** The running minima and maxima; `None` stands for the infinities they start from. */
  method ComputeBbox(ps: seq<real>) returns (lo: seq<Option<real>>, hi: seq<Option<real>>)
    requires |ps| % 3 == 0
    ensures IsBbox(ps, lo, hi)
  {
    lo, hi := [None, None, None], [None, None, None];
    var i := 0;
    while i < |ps|
      invariant 0 <= i <= |ps| && i % 3 == 0
      invariant IsBbox(ps[..i], lo, hi)
    {
      var k := 0;
      while k < 3
        invariant 0 <= k <= 3 && |lo| == 3 && |hi| == 3
        invariant forall j :: 0 <= j < k ==> IsBound(ps[..i + 3], j, lo[j], true)
        invariant forall j :: 0 <= j < k ==> IsBound(ps[..i + 3], j, hi[j], false)
        invariant forall j :: k <= j < 3 ==> IsBound(ps[..i], j, lo[j], true) && IsBound(ps[..i], j, hi[j], false)
      {
        var val := ps[i + k];
        NextBound(ps, i, k, lo[k], true);
        NextBound(ps, i, k, hi[k], false);
        if lo[k].None? || val < lo[k].value { lo := lo[k := Some(val)]; }
        if hi[k].None? || val > hi[k].value { hi := hi[k := Some(val)]; }
        k := k + 1;
      }
      i := i + 3;
    }
    assert ps[..i] == ps;
  }

  lemma NextBound(ps: seq<real>, i: nat, k: nat, v: Option<real>, least: bool)
    requires i % 3 == 0 && i + 3 <= |ps| && k < 3 && IsBound(ps[..i], k, v, least)
    ensures var val := ps[i + k];
            IsBound(ps[..i + 3], k,
                    if v.None? || (if least then val < v.value else val > v.value) then Some(val) else v, least)
  {
    var n, old_, new_ := i / 3, ps[..i], ps[..i + 3];
    assert Coord(new_, n, k) == ps[i + k];
    assert forall j :: 0 <= j < n ==> Coord(new_, j, k) == Coord(old_, j, k);
    if v.Some? {
      var j :| 0 <= j < n && Coord(old_, j, k) == v.value;
      assert Coord(new_, j, k) == v.value;
    }
  }

  /** Two bounding boxes agree when the same boxes hold the vertices of both buffers. */
  lemma BboxDetermined(ps: seq<real>, plo: seq<Option<real>>, phi: seq<Option<real>>,
                       us: seq<real>, ulo: seq<Option<real>>, uhi: seq<Option<real>>)
    requires |ps| >= 3 && |us| >= 3
    requires IsBbox(ps, plo, phi) && IsBbox(us, ulo, uhi)
    requires forall box :: AllInside(ps, box) <==> AllInside(us, box)
    ensures plo == ulo && phi == uhi
  {
    var pbox, ubox := BoxOf(ps, plo, phi), BoxOf(us, ulo, uhi);
    assert AllInside(us, pbox) && AllInside(ps, ubox);
    forall k | 0 <= k < 3 ensures plo[k] == ulo[k] && phi[k] == uhi[k] {
      BoundInside(ps, k, plo, phi, us, ulo, uhi);
      BoundInside(us, k, ulo, uhi, ps, plo, phi);
    }
  }

  /** The box that a non-empty buffer's bounds describe; it holds every vertex. */
  function BoxOf(ps: seq<real>, lo: seq<Option<real>>, hi: seq<Option<real>>): (box: Box)
    requires IsBbox(ps, lo, hi) && |ps| >= 3
    ensures AllInside(ps, box)
  {
    assert IsBound(ps, 0, lo[0], true) && IsBound(ps, 1, lo[1], true) && IsBound(ps, 2, lo[2], true);
    assert IsBound(ps, 0, hi[0], false) && IsBound(ps, 1, hi[1], false) && IsBound(ps, 2, hi[2], false);
    assert forall i :: 0 <= i < |ps| / 3 ==>
      VertexAt(ps, i) == Vec3(Coord(ps, i, 0), Coord(ps, i, 1), Coord(ps, i, 2));
    Box(Vec3(lo[0].value, lo[1].value, lo[2].value), Vec3(hi[0].value, hi[1].value, hi[2].value))
  }

  lemma BoundInside(ps: seq<real>, k: nat, plo: seq<Option<real>>, phi: seq<Option<real>>,
                    us: seq<real>, ulo: seq<Option<real>>, uhi: seq<Option<real>>)
    requires |ps| >= 3 && |us| >= 3 && k < 3
    requires IsBbox(ps, plo, phi) && IsBbox(us, ulo, uhi)
    requires AllInside(ps, BoxOf(us, ulo, uhi))
    ensures plo[k].Some? && ulo[k].Some? && ulo[k].value <= plo[k].value
    ensures phi[k].Some? && uhi[k].Some? && phi[k].value <= uhi[k].value
  {
    assert IsBound(ps, k, plo[k], true) && IsBound(ps, k, phi[k], false);
    assert IsBound(us, k, ulo[k], true) && IsBound(us, k, uhi[k], false);
    var i :| 0 <= i < |ps| / 3 && Coord(ps, i, k) == plo[k].value;
    var j :| 0 <= j < |ps| / 3 && Coord(ps, j, k) == phi[k].value;
    InsideCoord(ps, i, k, BoxOf(us, ulo, uhi));
    InsideCoord(ps, j, k, BoxOf(us, ulo, uhi));
  }

  function Axis(v: Vec3, k: nat): real { if k == 0 then v.x else if k == 1 then v.y else v.z }

  lemma InsideCoord(ps: seq<real>, i: nat, k: nat, box: Box)
    requires k < 3 && i < |ps| / 3 && AllInside(ps, box)
    ensures Axis(box.lo, k) <= Coord(ps, i, k) <= Axis(box.hi, k)
  {
    assert Inside(VertexAt(ps, i), box);
  }

  /** The bounding box of a painted plate is that of the same plate unpainted. */
  lemma PaintKeepsBbox(root: Root, ids: seq<nat>, exts: map<nat, nat>,
                       plo: seq<Option<real>>, phi: seq<Option<real>>, ulo: seq<Option<real>>, uhi: seq<Option<real>>)
    requires var p, u := AddObjects(root, ids, true, exts).buf.positions,
             AddObjects(root, ids, false, exts).buf.positions;
             |p| >= 3 && |u| >= 3 && IsBbox(p, plo, phi) && IsBbox(u, ulo, uhi)
    ensures plo == ulo && phi == uhi
  {
    var p, u := AddObjects(root, ids, true, exts).buf.positions, AddObjects(root, ids, false, exts).buf.positions;
    forall box ensures AllInside(p, box) <==> AllInside(u, box) {
      PaintKeepsScene(root, ids, exts, box);
    }
    BboxDetermined(p, plo, phi, u, ulo, uhi);
  }
}
