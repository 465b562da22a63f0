/**
 The decoder of one triangle's `paint_color` string (src/injection/paint-color.ts) as the
 source runs it: a hex string turned into a nibble array, then one recursive walk that moves
 a cursor, keeps statistics and emits facets as it goes. It is proved to do what the parser
 of PaintTree followed by the painting of PaintGeometry does.
 */
module PaintDecoder {
  import opened Wrappers
  import opened PaintTree
  import opened PaintGeometry
  import opened MeshBuffers

  const PAINT_DEPTH_CAP: nat := 4

  datatype Stats = Stats(ok: bool, consumedAll: bool, overran: bool, leaves: nat, emitted: nat, maxState: nat)

  const NO_STATS := Stats(false, false, false, 0, 0, 0)

  // ---- hex strings ----

  function HexDigit(c: char): Option<Nibble> {
    if '0' <= c <= '9' then Some(c as int - '0' as int)
    else if 'A' <= c <= 'F' then Some(c as int - 'A' as int + 10)
    else if 'a' <= c <= 'f' then Some(c as int - 'a' as int + 10)
    else None
  }

  /** The nibbles in consumption order: the last character first. */
  function NibblesOf(hex: string): Option<seq<Nibble>> {
    if forall i :: 0 <= i < |hex| ==> HexDigit(hex[i]).Some? then
      Some(seq(|hex|, k requires 0 <= k < |hex| && HexDigit(hex[|hex| - 1 - k]).Some? =>
        HexDigit(hex[|hex| - 1 - k]).value))
    else None
  }

  method HexToNibbles(hex: string) returns (r: Option<seq<Nibble>>)
    ensures r == NibblesOf(hex)
  {
    var n := |hex|;
    var out := new Nibble[n];
    var k := 0;
    while k < n
      invariant 0 <= k <= n
      invariant forall j :: 0 <= j < k ==> HexDigit(hex[n - 1 - j]) == Some(out[j])
    {
      var d := HexDigit(hex[n - 1 - k]);
      if d.None? { return None; }
      out[k] := d.value;
      k := k + 1;
    }
    forall i | 0 <= i < n ensures HexDigit(hex[i]).Some? {
      assert HexDigit(hex[n - 1 - (n - 1 - i)]) == Some(out[n - 1 - i]);
    }
    assert out[..] == NibblesOf(hex).value;
    return Some(out[..]);
  }

  // ---- what a decode yields ----

  function DecodedStats(hex: string, cap: nat): Stats {
    var ns := NibblesOf(hex);
    if ns.None? || |ns.value| == 0 then NO_STATS
    else
      var p := ParseTree(ns.value);
      var clean := !p.over && |p.rest| == 0;
      Stats(clean, clean, p.over, Leaves(p.value), Emitted(p.value, 0, cap), MaxState(p.value))
  }

  /** How many facets a tree paints; the geometry does not matter. */
  function Emitted(t: Tree, depth: nat, cap: nat): nat
    decreases t, 1
  {
    match t
    case Leaf(_) => 1
    case Split(_, kids) => if depth < cap then EmittedKids(kids, depth + 1, cap) else 1
  }

  function EmittedKids(kids: seq<Tree>, depth: nat, cap: nat): nat
    decreases kids, 0
  {
    if |kids| == 0 then 0
    else Emitted(kids[|kids| - 1], depth, cap) + EmittedKids(kids[..|kids| - 1], depth, cap)
  }

  function DecodedFacets(hex: string, tri: Tri, base: nat, cap: nat): seq<Facet> {
    var ns := NibblesOf(hex);
    if ns.None? || |ns.value| == 0 then []
    else
      Sound(ns.value);
      Paint(ParseTree(ns.value).value, tri, 0, cap, base)
  }

  lemma {:induction false} EmittedCounts(t: Tree, tri: Tri, depth: nat, cap: nat, base: nat)
    requires Valid(t)
    ensures |Paint(t, tri, depth, cap, base)| == Emitted(t, depth, cap)
    decreases t, 1
  {
    if t.Split? && depth < cap {
      EmittedKidsCounts(t.kids, Children(tri, |t.kids| - 1, t.side), depth + 1, cap, base);
    }
  }

  lemma {:induction false} EmittedKidsCounts(kids: seq<Tree>, tris: seq<Tri>, depth: nat, cap: nat, base: nat)
    requires ValidAll(kids) && |tris| == |kids|
    ensures |PaintKids(kids, tris, depth, cap, base)| == EmittedKids(kids, depth, cap)
    decreases kids, 0
  {
    if kids != [] {
      var last := |kids| - 1;
      EmittedCounts(kids[last], tris[last], depth, cap, base);
      EmittedKidsCounts(kids[..last], tris[..last], depth, cap, base);
    }
  }

  // ---- the walk ----

  /** The facets of a node that may have lost its geometry to a capped ancestor. */
  function PaintOpt(t: Tree, tri: Option<Tri>, depth: nat, cap: nat, base: nat): seq<Facet>
    requires Valid(t)
  {
    if tri.Some? then Paint(t, tri.value, depth, cap, base) else []
  }

  function PaintKidsOpt(kids: seq<Tree>, tris: Option<seq<Tri>>, depth: nat, cap: nat, base: nat): seq<Facet>
    requires ValidAll(kids) && (tris.Some? ==> |kids| == |tris.value|)
  {
    if tris.Some? then PaintKids(kids, tris.value, depth, cap, base) else []
  }

  /** What the digits of an extended state amount to once `ext` has been read. */
  function AfterDigit(ext: nat, rest: seq<Nibble>): Parsed<nat> {
    if ext == 15 then var p := ParseExtended(rest); Parsed(p.value + 15, p.rest, p.over) else Parsed(ext, rest, false)
  }

  /** Everything the walk changes, with the cursor seen as the nibbles still ahead. */
  datatype Walk = Walk(rest: seq<Nibble>, over: bool, leaves: nat, maxState: nat, emitted: nat, buf: Buf)

  function Advance(w: Walk, rest: seq<Nibble>, over: bool, leaves: nat, maxState: nat, fs: seq<Facet>): Walk {
    Walk(rest, w.over || over, w.leaves + leaves, Max(w.maxState, maxState), w.emitted + |fs|, AddFacets(w.buf, fs))
  }

  /** The effect of having parsed the node `p` with geometry `tri`. */
  function Visit(w: Walk, p: Parsed<Tree>, tri: Option<Tri>, depth: nat, cap: nat, base: nat): Walk
    requires Valid(p.value)
  {
    Advance(w, p.rest, p.over, Leaves(p.value), MaxState(p.value), PaintOpt(p.value, tri, depth, cap, base))
  }

  function VisitKids(w: Walk, p: Parsed<seq<Tree>>, tris: Option<seq<Tri>>, depth: nat, cap: nat, base: nat): Walk
    requires ValidAll(p.value) && (tris.Some? ==> |p.value| == |tris.value|)
  {
    Advance(w, p.rest, p.over, LeavesKids(p.value), MaxStateKids(p.value),
            PaintKidsOpt(p.value, tris, depth, cap, base))
  }

  function AfterTree(w: Walk, tri: Option<Tri>, depth: nat, cap: nat, base: nat): Walk {
    Sound(w.rest);
    Visit(w, ParseTree(w.rest), tri, depth, cap, base)
  }

  function AfterKids(w: Walk, k: nat, tris: Option<seq<Tri>>, depth: nat, cap: nat, base: nat): Walk
    requires tris.Some? ==> |tris.value| == k
  {
    SoundKids(w.rest, k);
    VisitKids(w, ParseKids(w.rest, k), tris, depth, cap, base)
  }

  function LastTri(tris: Option<seq<Tri>>): Option<Tri>
    requires tris.Some? ==> |tris.value| > 0
  {
    if tris.Some? then Some(tris.value[|tris.value| - 1]) else None
  }

  function FrontTris(tris: Option<seq<Tri>>): Option<seq<Tri>>
    requires tris.Some? ==> |tris.value| > 0
  {
    if tris.Some? then Some(tris.value[..|tris.value| - 1]) else None
  }

  function TakeTris(tris: Option<seq<Tri>>, n: nat): (r: Option<seq<Tri>>)
    requires tris.Some? ==> n <= |tris.value|
    ensures r.Some? <==> tris.Some?
    ensures r.Some? ==> |r.value| == n
  {
    if tris.Some? then Some(tris.value[..n]) else None
  }

  lemma TakeTrisParts(tris: Option<seq<Tri>>, n: nat)
    requires tris.Some? ==> 0 < n <= |tris.value|
    ensures n > 0 ==> FrontTris(TakeTris(tris, n)) == TakeTris(tris, n - 1)
    ensures LastTri(TakeTris(tris, n)) == if tris.Some? then Some(tris.value[n - 1]) else None
    ensures tris.Some? && n == |tris.value| ==> TakeTris(tris, n) == tris
  {
    if tris.Some? {
      assert tris.value[..n][..n - 1] == tris.value[..n - 1];
      if n == |tris.value| { assert tris.value[..n] == tris.value; }
    }
  }

  /** Two advances in a row are one. */
  lemma AdvanceTwice(w: Walk, rest: seq<Nibble>, o1: bool, n1: nat, m1: nat, fs1: seq<Facet>,
                     rest2: seq<Nibble>, o2: bool, n2: nat, m2: nat, fs2: seq<Facet>)
    ensures Advance(Advance(w, rest, o1, n1, m1, fs1), rest2, o2, n2, m2, fs2)
         == Advance(w, rest2, o1 || o2, n1 + n2, Max(m1, m2), fs1 + fs2)
  {
    AddFacetsAppend(w.buf, fs1, fs2);
  }

  lemma KidsUnfold(first: Tree, more: seq<Tree>, tris: Option<seq<Tri>>, depth: nat, cap: nat, base: nat)
    requires Valid(first) && ValidAll(more) && (tris.Some? ==> |more| + 1 == |tris.value|)
    ensures var kids := more + [first];
            && ValidAll(kids)
            && LeavesKids(kids) == Leaves(first) + LeavesKids(more)
            && MaxStateKids(kids) == Max(MaxState(first), MaxStateKids(more))
            && PaintKidsOpt(kids, tris, depth, cap, base)
               == PaintOpt(first, LastTri(tris), depth, cap, base)
                  + PaintKidsOpt(more, FrontTris(tris), depth, cap, base)
  {
    var kids := more + [first];
    assert kids[|kids| - 1] == first && kids[..|kids| - 1] == more;
  }

  lemma VisitKidsUnfold(w: Walk, first: Parsed<Tree>, more: Parsed<seq<Tree>>, tris: Option<seq<Tri>>,
                        depth: nat, cap: nat, base: nat)
    requires Valid(first.value) && ValidAll(more.value) && (tris.Some? ==> |more.value| + 1 == |tris.value|)
    ensures var all := Parsed(more.value + [first.value], more.rest, first.over || more.over);
            && ValidAll(all.value)
            && VisitKids(w, all, tris, depth, cap, base)
               == VisitKids(Visit(w, first, LastTri(tris), depth, cap, base), more, FrontTris(tris), depth, cap, base)
  {
    KidsUnfold(first.value, more.value, tris, depth, cap, base);
    AdvanceTwice(w, first.rest, first.over, Leaves(first.value), MaxState(first.value),
                 PaintOpt(first.value, LastTri(tris), depth, cap, base),
                 more.rest, more.over, LeavesKids(more.value), MaxStateKids(more.value),
                 PaintKidsOpt(more.value, FrontTris(tris), depth, cap, base));
  }

  /** Walking k children is walking the last one and then the others. */
  lemma AfterKidsUnfold(w: Walk, k: nat, tris: Option<seq<Tri>>, depth: nat, cap: nat, base: nat)
    requires k > 0 && (tris.Some? ==> |tris.value| == k)
    ensures AfterKids(w, k, tris, depth, cap, base)
         == AfterKids(AfterTree(w, LastTri(tris), depth, cap, base), k - 1, FrontTris(tris), depth, cap, base)
  {
    var first := ParseTree(w.rest);
    Sound(w.rest);
    SoundKids(first.rest, k - 1);
    ParseKidsStep(w.rest, k);
    VisitKidsUnfold(w, first, ParseKids(first.rest, k - 1), tris, depth, cap, base);
  }

  lemma NoKidsLeft(w: Walk, tris: Option<seq<Tri>>, depth: nat, cap: nat, base: nat)
    requires tris.Some? ==> |tris.value| == 0
    ensures AfterKids(w, 0, tris, depth, cap, base) == w
  {
  }

  function ChildTris(tri: Option<Tri>, code: nat, depth: nat, cap: nat): (r: Option<seq<Tri>>)
    requires 1 <= code % 4
    ensures r.Some? ==> |r.value| == code % 4 + 1
  {
    if tri.Some? && depth < cap then Some(Children(tri.value, code % 4, code / 4)) else None
  }

  lemma VisitSplit(w: Walk, code: nat, p: Parsed<seq<Tree>>, tri: Option<Tri>, depth: nat, cap: nat, base: nat)
    requires code < 16 && 1 <= code % 4 && |p.value| == code % 4 + 1 && ValidAll(p.value)
    ensures var a := VisitKids(w, p, ChildTris(tri, code, depth, cap), depth + 1, cap, base);
            Visit(w, Parsed(Split(code / 4, p.value), p.rest, p.over), tri, depth, cap, base)
            == if tri.Some? && depth >= cap
               then Advance(a, a.rest, false, 0, 0, [Facet(tri.value, Resolve(base, FirstState(p.value[code % 4])))])
               else a
  {
    if tri.Some? && depth >= cap {
      var f := [Facet(tri.value, Resolve(base, FirstState(p.value[code % 4])))];
      AdvanceTwice(w, p.rest, p.over, LeavesKids(p.value), MaxStateKids(p.value), [], p.rest, false, 0, 0, f);
      assert [] + f == f;
    }
  }

  /** Where the cursor was does not matter once it is known what was parsed. */
  lemma VisitKidsFrom(w: Walk, rest: seq<Nibble>, p: Parsed<seq<Tree>>, tris: Option<seq<Tri>>, depth: nat, cap: nat,
                      base: nat)
    requires ValidAll(p.value) && (tris.Some? ==> |p.value| == |tris.value|)
    ensures VisitKids(w.(rest := rest), p, tris, depth, cap, base) == VisitKids(w, p, tris, depth, cap, base)
  {
  }

  lemma FirstChildLast(ns: seq<Nibble>, k: nat)
    requires k > 0
    ensures ParseKids(ns, k).value[k - 1] == ParseTree(ns).value
  {
  }

  /** Walking a split node is walking its children, plus one facet when the cap cut them off. */
  lemma AfterSplit(w: Walk, tri: Option<Tri>, depth: nat, cap: nat, base: nat)
    requires |w.rest| > 0 && w.rest[0] % 4 != 0
    ensures var code, ns := w.rest[0], w.rest[1..];
            var first := FirstState(ParseTree(ns).value);
            var a := AfterKids(w.(rest := ns), code % 4 + 1, ChildTris(tri, code, depth, cap), depth + 1, cap, base);
            && FirstState(ParseTree(w.rest).value) == first
            && AfterTree(w, tri, depth, cap, base)
               == if tri.Some? && depth >= cap
                  then Advance(a, a.rest, false, 0, 0, [Facet(tri.value, Resolve(base, first))]) else a
  {
    hide ParseTree, ParseKids, Visit, VisitKids, Advance, LeavesKids, MaxStateKids, Encode, EncodeKids;
    var code, ns := w.rest[0], w.rest[1..];
    SoundKids(ns, code % 4 + 1);
    ParseSplit(code / 4, code % 4, ns);
    FirstChildLast(ns, code % 4 + 1);
    assert w.rest == [4 * (code / 4) + code % 4] + ns;
    VisitSplit(w, code, ParseKids(ns, code % 4 + 1), tri, depth, cap, base);
    VisitKidsFrom(w, ns, ParseKids(ns, code % 4 + 1), ChildTris(tri, code, depth, cap), depth + 1, cap, base);
  }

  function LeafStateOf(ns: seq<Nibble>): Parsed<nat>
    requires |ns| > 0 ==> ns[0] % 4 == 0
  {
    if |ns| == 0 then Parsed(0, [], true)
    else if ns[0] == 12 then
      var p := ParseExtended(ns[1..]);
      Parsed(p.value + 3, p.rest, p.over)
    else Parsed(ns[0] / 4, ns[1..], false)
  }

  lemma AfterLeaf(w: Walk, tri: Option<Tri>, depth: nat, cap: nat, base: nat)
    requires |w.rest| > 0 ==> w.rest[0] % 4 == 0
    ensures var p := LeafStateOf(w.rest);
            && ParseTree(w.rest).value == Leaf(p.value)
            && AfterTree(w, tri, depth, cap, base)
               == Advance(w, p.rest, p.over, 1, p.value,
                          if tri.Some? then [Facet(tri.value, Resolve(base, p.value))] else [])
  {
    Sound(w.rest);
  }

  class Decoder {
    const nibbles: seq<Nibble>
    const base: nat
    const cap: nat
    const sink: MeshBuffer
    var i: nat
    var overran: bool
    var leaves: nat
    var emitted: nat
    var maxState: nat

    constructor (nibbles: seq<Nibble>, base: nat, cap: nat, sink: MeshBuffer)
      ensures this.nibbles == nibbles && this.base == base && this.cap == cap && this.sink == sink
      ensures i == 0 && !overran && leaves == 0 && emitted == 0 && maxState == 0
    {
      this.nibbles, this.base, this.cap, this.sink := nibbles, base, cap, sink;
      i, overran, leaves, emitted, maxState := 0, false, 0, 0, 0;
    }

    predicate InRange()
      reads this
    {
      i <= |nibbles|
    }

    function Rest(): seq<Nibble>
      requires InRange()
      reads this
    {
      nibbles[i..]
    }

    function At(): Walk
      requires InRange()
      reads this, sink
    {
      Walk(Rest(), overran, leaves, maxState, emitted, sink.Snap())
    }

    method Next() returns (n: Nibble)
      requires InRange()
      modifies this`i, this`overran
      ensures InRange()
      ensures var w := old(At());
              if |w.rest| == 0 then n == 0 && i == old(i) && At() == w.(over := true)
              else n == w.rest[0] && i == old(i) + 1 && At() == w.(rest := w.rest[1..])
    {
      if i >= |nibbles| {
        overran := true;
        n := 0;
      } else {
        n := nibbles[i];
        i := i + 1;
      }
    }

    method EmitTri(tri: Tri, extruder: nat)
      modifies this`emitted, sink
      ensures emitted == old(emitted) + 1
      ensures sink.Snap() == AddFacets(old(sink.Snap()), [Facet(tri, extruder)])
    {
      sink.Emit(tri, extruder);
      emitted := emitted + 1;
      assert [Facet(tri, extruder)][..0] == [];
    }

    /** The extended leaf: fifteens are counted until another nibble ends the run. */
    method ExtendedState() returns (state: nat)
      requires InRange()
      modifies this`i, this`overran
      ensures InRange()
      ensures var w := old(At()); var p := ParseExtended(w.rest);
              state == p.value + 3 && At() == w.(rest := p.rest, over := w.over || p.over)
      ensures i >= old(i)
    {
      ghost var w := At();
      ghost var whole := ParseExtended(w.rest);
      var ext: nat := Next();
      var num: nat := 0;
      while ext == 15
        invariant InRange() && i >= old(i)
        invariant At() == w.(rest := Rest(), over := overran)
        invariant var p := AfterDigit(ext, Rest());
                  whole.value == p.value + 15 * num && whole.rest == p.rest
                    && (w.over || whole.over) == (overran || p.over)
        decreases |nibbles| - i, if ext == 15 then 1 else 0
      {
        num := num + 1;
        ext := Next();
      }
      state := ext + 15 * num + 3;
    }

    /** The rest of a leaf after its first nibble `code`; `start` is the state before that nibble. */
    method LeafNode(code: nat, tri: Option<Tri>, ghost start: seq<Nibble>) returns (state: nat)
      requires InRange() && (|start| > 0 ==> start[0] % 4 == 0)
      requires if |start| == 0 then code == 0 && Rest() == [] else code == start[0] && Rest() == start[1..]
      modifies this`i, this`overran, this`leaves, this`emitted, this`maxState, sink
      ensures InRange() && i >= old(i)
      ensures var p := LeafStateOf(start);
              && state == p.value
              && At() == Advance(old(At()), p.rest, |start| > 0 && p.over, 1, state,
                                 if tri.Some? then [Facet(tri.value, Resolve(base, state))] else [])
    {
      if code == 12 {
        state := ExtendedState();
      } else {
        state := code / 4;
      }
      leaves := leaves + 1;
      if state > maxState { maxState := state; }
      if tri.Some? { EmitTri(tri.value, Resolve(base, state)); }
    }

    /** Parses one node; `tri` is absent below a capped ancestor, where bits are consumed and nothing is emitted. */
    method Node(tri: Option<Tri>, depth: nat) returns (first: nat)
      requires InRange()
      modifies this`i, this`overran, this`leaves, this`emitted, this`maxState, sink
      ensures InRange() && i >= old(i)
      ensures At() == AfterTree(old(At()), tri, depth, cap, base)
      ensures first == FirstState(ParseTree(old(Rest())).value)
      decreases |nibbles| - i, 0
    {
      hide ParseTree, ParseKids, ParseExtended, AfterTree, AfterKids, Valid, Encode, AddFacets;
      ghost var start := At();
      var code := Next();
      var split := code % 4;
      if split == 0 {
        AfterLeaf(start, tri, depth, cap, base);
        first := LeafNode(code, tri, start.rest);
        return;
      }
      assert At() == start.(rest := start.rest[1..]);
      AfterSplit(start, tri, depth, cap, base);
      var special := code / 4;
      var children := if tri.Some? && depth < cap then Some(Children(tri.value, split, special)) else None;
      first := NodeChildren(children, split, depth);
      // A capped node that still owns geometry is one facet in its first state.
      if tri.Some? && children.None? { EmitTri(tri.value, Resolve(base, first)); }
    }

    /** The children of a split node, from the highest index down. */
    method NodeChildren(children: Option<seq<Tri>>, split: nat, depth: nat) returns (first: nat)
      requires InRange() && 1 <= split <= 3 && (children.Some? ==> |children.value| == split + 1)
      modifies this`i, this`overran, this`leaves, this`emitted, this`maxState, sink
      ensures InRange() && i >= old(i)
      ensures At() == AfterKids(old(At()), split + 1, children, depth + 1, cap, base)
      ensures first == FirstState(ParseTree(old(Rest())).value)
      decreases |nibbles| - i, 2
    {
      ghost var start := At();
      ghost var goal := AfterKids(start, split + 1, children, depth + 1, cap, base);
      TakeTrisParts(children, split + 1);
      first := 0;
      var firstState: int := -1;
      var c := split;
      while c >= 0
        invariant -1 <= c <= split && InRange() && i >= old(i)
        invariant AfterKids(At(), c + 1, TakeTris(children, c + 1), depth + 1, cap, base) == goal
        invariant if c == split then firstState == -1 && Rest() == start.rest
                  else firstState == FirstState(ParseTree(start.rest).value)
      {
        var s := Child(children, c, depth + 1);
        if firstState < 0 { firstState := s; }
        c := c - 1;
      }
      NoKidsLeft(At(), TakeTris(children, 0), depth + 1, cap, base);
      if firstState >= 0 { first := firstState; }
    }

    /** One round of the loop: child `c` is walked, the lower ones are still ahead. */
    method Child(children: Option<seq<Tri>>, c: nat, depth: nat) returns (s: nat)
      requires InRange() && (children.Some? ==> c < |children.value|)
      modifies this`i, this`overran, this`leaves, this`emitted, this`maxState, sink
      ensures InRange() && i >= old(i)
      ensures AfterKids(At(), c, TakeTris(children, c), depth, cap, base)
           == AfterKids(old(At()), c + 1, TakeTris(children, c + 1), depth, cap, base)
      ensures s == FirstState(ParseTree(old(Rest())).value)
      decreases |nibbles| - i, 1
    {
      AfterKidsUnfold(At(), c + 1, TakeTris(children, c + 1), depth, cap, base);
      TakeTrisParts(children, c + 1);
      s := Node(if children.Some? then Some(children.value[c]) else None, depth);
    }
  }

  /** Decodes one triangle into `sink`. Nothing is emitted for a bad character or an empty string. */
  method DecodePaintColor(tri: Tri, paintColor: string, base: nat, sink: MeshBuffer, cap: nat := PAINT_DEPTH_CAP)
    returns (stats: Stats)
    modifies sink
    ensures stats == DecodedStats(paintColor, cap)
    ensures sink.Snap() == AddFacets(old(sink.Snap()), DecodedFacets(paintColor, tri, base, cap))
  {
    var nibbles := HexToNibbles(paintColor);
    if nibbles.None? || |nibbles.value| == 0 { return NO_STATS; }
    Sound(nibbles.value);
    var d := new Decoder(nibbles.value, base, cap, sink);
    assert d.Rest() == nibbles.value;
    var _ := d.Node(Some(tri), 0);
    EmittedCounts(ParseTree(nibbles.value).value, tri, 0, cap, base);
    var consumedAll := !d.overran && d.i == |nibbles.value|;
    stats := Stats(consumedAll, consumedAll, d.overran, d.leaves, d.emitted, d.maxState);
  }

  // ---- what the statistics promise ----

  /** `ok` says exactly that the string is the encoding of some tree, and the tree is unique. */
  lemma OkExactlyEncodings(hex: string, cap: nat)
    ensures DecodedStats(hex, cap).ok <==> exists t :: Valid(t) && NibblesOf(hex) == Some(Encode(t))
    ensures forall t, u ::
              Valid(t) && Valid(u) && NibblesOf(hex) == Some(Encode(t)) == Some(Encode(u)) ==> t == u
  {
    if NibblesOf(hex).Some? {
      var ns := NibblesOf(hex).value;
      AcceptsExactlyEncodings(ns);
      if exists t :: Valid(t) && Encode(t) == ns {
        var t :| Valid(t) && Encode(t) == ns;
        EncodingNonEmpty(t);
      }
    }
  }

  lemma EncodingNonEmpty(t: Tree)
    requires Valid(t)
    ensures |Encode(t)| > 0
  {
  }

  /** Emission is bounded by the leaves and by the cap, leaves by the string length, and neither
      the verdict nor the leaf statistics depend on the cap. */
  lemma StatsBounds(hex: string, cap: nat, other: nat)
    ensures var s := DecodedStats(hex, cap);
            && s.emitted <= s.leaves <= 3 * |hex| + 1
            && s.emitted <= Pow4(cap)
            && s.ok == !(s.overran || !s.consumedAll)
            && DecodedStats(hex, other) == s.(emitted := DecodedStats(hex, other).emitted)
  {
    if NibblesOf(hex).Some? && |hex| > 0 {
      var ns := NibblesOf(hex).value;
      var t, tri := ParseTree(ns).value, Tri(Vec3(0.0, 0.0, 0.0), Vec3(0.0, 0.0, 0.0), Vec3(0.0, 0.0, 0.0));
      Sound(ns);
      LeavesBounded(ns);
      FacetsBounded(t, tri, 0, cap, 0);
      EmittedCounts(t, tri, 0, cap, 0);
    } else {
      PowPositive(cap);
    }
  }

  /** Malformed or not, a non-empty hex string repaints its triangle without loss: same vector area,
      no flipped facet, nothing outside the triangle's box. */
  lemma SurfaceConserved(hex: string, tri: Tri, base: nat, cap: nat, box: Box)
    requires NibblesOf(hex).Some? && |hex| > 0 && TriInside(tri, box)
    ensures var fs := DecodedFacets(hex, tri, base, cap);
            && |fs| > 0
            && TotalArea(fs) == Area(tri)
            && forall f :: f in fs ==> PositiveMultiple(f.tri, tri) && TriInside(f.tri, box)
  {
    var ns := NibblesOf(hex).value;
    var t := ParseTree(ns).value;
    Sound(ns);
    FacetsBounded(t, tri, 0, cap, base);
    AreaConserved(t, tri, 0, cap, base);
    WindingKept(t, tri, 0, cap, base);
    FacetsInside(t, tri, 0, cap, base, box);
  }

  /** Decoding the encoding of a tree no higher than the cap emits its leaves in order, in their colours. */
  lemma DecodeEmitsLeaves(hex: string, t: Tree, tri: Tri, base: nat, cap: nat)
    requires Valid(t) && Height(t) <= cap && NibblesOf(hex) == Some(Encode(t))
    ensures Extruders(DecodedFacets(hex, tri, base, cap)) == ResolveAll(base, LeafStates(t))
    ensures var s := DecodedStats(hex, cap);
            && s.ok && s.leaves == s.emitted == |LeafStates(t)|
            && s.maxState in LeafStates(t) && forall x :: x in LeafStates(t) ==> x <= s.maxState
  {
    EncodingNonEmpty(t);
    AcceptsExactlyEncodings(Encode(t));
    UncappedPaintsLeaves(t, tri, 0, cap, base);
    LeafStatesSummary(t);
    EmittedCounts(t, tri, 0, cap, base);
    assert |Extruders(Paint(t, tri, 0, cap, base))| == |Paint(t, tri, 0, cap, base)|;
  }
}
