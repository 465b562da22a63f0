/**
 The `paint_color` bit format (src/injection/paint-color.ts): a tree of triangle
 subdivisions, its serialisation as nibbles in consumption order, and the parser.
 The encoder is the reference; the theorems say that the parser inverts it, that it
 accepts nothing else, and that no encoding is a proper prefix of another.
 */
module PaintTree {

  type Nibble = n: nat | n < 16 witness 0

  /** `kids` are indexed as the slicer indexes children; they travel from the highest index down. */
  datatype Tree = Leaf(state: nat) | Split(side: nat, kids: seq<Tree>)

  ghost predicate Valid(t: Tree)
  {
    match t
    case Leaf(_) => true
    case Split(side, kids) => side < 4 && 2 <= |kids| <= 4 && ValidAll(kids)
  }

  ghost predicate ValidAll(kids: seq<Tree>)
  {
    forall i :: 0 <= i < |kids| ==> Valid(kids[i])
  }

  // ---- reference encoder ----

  function Fifteens(n: nat): seq<Nibble> {
    if n == 0 then [] else [15] + Fifteens(n - 1)
  }

  /** The digits that follow the marker nibble 12: fifteens, then the remainder. */
  function EncodeExtended(n: nat): seq<Nibble> {
    Fifteens(n / 15) + [n % 15]
  }

  function EncodeLeaf(state: nat): seq<Nibble> {
    if state < 3 then [4 * state] else [12] + EncodeExtended(state - 3)
  }

  ghost function Encode(t: Tree): seq<Nibble>
    requires Valid(t)
    decreases t, 1
  {
    match t
    case Leaf(state) => EncodeLeaf(state)
    case Split(side, kids) => [4 * side + |kids| - 1] + EncodeKids(kids)
  }

  ghost function EncodeKids(kids: seq<Tree>): seq<Nibble>
    requires ValidAll(kids)
    decreases kids, 0
  {
    if |kids| == 0 then []
    else Encode(kids[|kids| - 1]) + EncodeKids(kids[..|kids| - 1])
  }

  // ---- measures of a tree ----

  function Leaves(t: Tree): nat
    decreases t, 1
  {
    match t
    case Leaf(_) => 1
    case Split(_, kids) => LeavesKids(kids)
  }

  function LeavesKids(kids: seq<Tree>): nat
    decreases kids, 0
  {
    if |kids| == 0 then 0 else Leaves(kids[|kids| - 1]) + LeavesKids(kids[..|kids| - 1])
  }

  /** The leaf states in the order in which they are serialised. */
  function LeafStates(t: Tree): seq<nat>
    decreases t, 1
  {
    match t
    case Leaf(state) => [state]
    case Split(_, kids) => LeafStatesKids(kids)
  }

  function LeafStatesKids(kids: seq<Tree>): seq<nat>
    decreases kids, 0
  {
    if |kids| == 0 then [] else LeafStates(kids[|kids| - 1]) + LeafStatesKids(kids[..|kids| - 1])
  }

  /** The first state in serialisation order; a split without children counts as unpainted. */
  function FirstState(t: Tree): nat
    decreases t, 1
  {
    match t
    case Leaf(state) => state
    case Split(_, kids) => if |kids| == 0 then 0 else FirstState(kids[|kids| - 1])
  }

  function Max(a: nat, b: nat): nat { if a < b then b else a }

  function MaxState(t: Tree): nat
    decreases t, 1
  {
    match t
    case Leaf(state) => state
    case Split(_, kids) => MaxStateKids(kids)
  }

  function MaxStateKids(kids: seq<Tree>): nat
    decreases kids, 0
  {
    if |kids| == 0 then 0 else Max(MaxState(kids[|kids| - 1]), MaxStateKids(kids[..|kids| - 1]))
  }

  function Height(t: Tree): nat
    decreases t, 1
  {
    match t
    case Leaf(_) => 0
    case Split(_, kids) => 1 + HeightKids(kids)
  }

  function HeightKids(kids: seq<Tree>): nat
    decreases kids, 0
  {
    if |kids| == 0 then 0 else Max(Height(kids[|kids| - 1]), HeightKids(kids[..|kids| - 1]))
  }

  // ---- parser: reading past the end yields nibble 0 and raises the overrun flag ----

  datatype Parsed<T> = Parsed(value: T, rest: seq<Nibble>, over: bool)

  function ParseExtended(ns: seq<Nibble>): (p: Parsed<nat>)
    ensures |p.rest| <= |ns|
  {
    if |ns| == 0 then Parsed(0, [], true)
    else if ns[0] == 15 then
      var p := ParseExtended(ns[1..]);
      Parsed(p.value + 15, p.rest, p.over)
    else Parsed(ns[0], ns[1..], false)
  }

  function ParseTree(ns: seq<Nibble>): (p: Parsed<Tree>)
    ensures |p.rest| <= |ns|
    decreases |ns|, 0
  {
    if |ns| == 0 then Parsed(Leaf(0), [], true)
    else if ns[0] == 12 then
      var p := ParseExtended(ns[1..]);
      Parsed(Leaf(p.value + 3), p.rest, p.over)
    else if ns[0] % 4 == 0 then Parsed(Leaf(ns[0] / 4), ns[1..], false)
    else
      var p := ParseKids(ns[1..], ns[0] % 4 + 1);
      Parsed(Split(ns[0] / 4, p.value), p.rest, p.over)
  }

  function ParseKids(ns: seq<Nibble>, k: nat): (p: Parsed<seq<Tree>>)
    ensures |p.value| == k && |p.rest| <= |ns|
    decreases |ns|, k
  {
    if k == 0 then Parsed([], ns, false)
    else
      var first := ParseTree(ns);
      var more := ParseKids(first.rest, k - 1);
      Parsed(more.value + [first.value], more.rest, first.over || more.over)
  }

  // ---- the parser inverts the encoder ----

  lemma Assoc(a: seq<Nibble>, b: seq<Nibble>, c: seq<Nibble>)
    ensures (a + b) + c == a + (b + c)
  {
  }

  lemma ParseKidsStep(ns: seq<Nibble>, k: nat)
    requires k > 0
    ensures var first := ParseTree(ns); var more := ParseKids(first.rest, k - 1);
            && ParseKids(ns, k) == Parsed(more.value + [first.value], more.rest, first.over || more.over)
            && ParseKids(ns, k).value[..k - 1] == more.value
  {
  }

  lemma {:induction false} ExtendedRoundTrip(n: nat, tail: seq<Nibble>)
    ensures ParseExtended(EncodeExtended(n) + tail) == Parsed(n, tail, false)
  {
    var code := EncodeExtended(n) + tail;
    if n < 15 {
      assert code == [n] + tail;
    } else {
      ExtendedRoundTrip(n - 15, tail);
      assert n / 15 == (n - 15) / 15 + 1 && n % 15 == (n - 15) % 15;
      assert code[1..] == EncodeExtended(n - 15) + tail;
    }
  }

  lemma ParseSplit(side: nat, split: nat, ns: seq<Nibble>)
    requires side < 4 && 1 <= split <= 3
    ensures var p := ParseKids(ns, split + 1);
            ParseTree([4 * side + split] + ns) == Parsed(Split(side, p.value), p.rest, p.over)
  {
    var code := 4 * side + split;
    assert code % 4 == split && code / 4 == side && code != 12;
    assert ([code] + ns)[1..] == ns;
  }

  lemma ParseShortLeaf(state: nat, ns: seq<Nibble>)
    requires state < 3
    ensures ParseTree([4 * state] + ns) == Parsed(Leaf(state), ns, false)
  {
    assert ([4 * state] + ns)[1..] == ns;
  }

  lemma ParseMarker(ns: seq<Nibble>)
    ensures var p := ParseExtended(ns);
            ParseTree([12] + ns) == Parsed(Leaf(p.value + 3), p.rest, p.over)
  {
    assert ([12] + ns)[1..] == ns;
  }

  /** Parsing an encoding followed by anything returns the tree and leaves the rest untouched. */
  lemma {:induction false} RoundTrip(t: Tree, tail: seq<Nibble>)
    requires Valid(t)
    ensures ParseTree(Encode(t) + tail) == Parsed(t, tail, false)
    decreases t, 1
  {
    match t
    case Leaf(state) =>
      if state < 3 {
        ParseShortLeaf(state, tail);
      } else {
        ExtendedRoundTrip(state - 3, tail);
        ParseMarker(EncodeExtended(state - 3) + tail);
        assert Encode(t) + tail == [12] + (EncodeExtended(state - 3) + tail);
      }
    case Split(side, kids) =>
      RoundTripKids(kids, tail);
      ParseSplit(side, |kids| - 1, EncodeKids(kids) + tail);
      assert Encode(t) + tail == [4 * side + |kids| - 1] + (EncodeKids(kids) + tail);
  }

  lemma {:induction false} RoundTripKids(kids: seq<Tree>, tail: seq<Nibble>)
    requires ValidAll(kids)
    ensures ParseKids(EncodeKids(kids) + tail, |kids|) == Parsed(kids, tail, false)
    decreases kids, 0
  {
    if |kids| == 0 {
      assert EncodeKids(kids) + tail == tail;
    } else {
      var front, last := kids[..|kids| - 1], kids[|kids| - 1];
      RoundTrip(last, EncodeKids(front) + tail);
      RoundTripKids(front, tail);
      Assoc(Encode(last), EncodeKids(front), tail);
      ParseKidsStep(EncodeKids(kids) + tail, |kids|);
      assert kids == front + [last];
    }
  }

  // ---- the parser accepts nothing but encodings ----

  lemma {:induction false} ExtendedSound(ns: seq<Nibble>)
    ensures var p := ParseExtended(ns);
            if p.over then p.rest == [] else ns == EncodeExtended(p.value) + p.rest
  {
    if ns != [] && ns[0] == 15 {
      ExtendedSound(ns[1..]);
      var p := ParseExtended(ns[1..]);
      if !p.over {
        assert (p.value + 15) / 15 == p.value / 15 + 1 && (p.value + 15) % 15 == p.value % 15;
        assert EncodeExtended(p.value + 15) == [15] + EncodeExtended(p.value);
        assert ns == [15] + ns[1..];
      }
    } else if ns != [] {
      assert EncodeExtended(ns[0]) == [ns[0]];
    }
  }

  /** Whatever the input, the parse yields a well-formed tree; without overrun it consumed
      exactly that tree's encoding, and after an overrun nothing is left. */
  lemma {:induction false} Sound(ns: seq<Nibble>)
    ensures var p := ParseTree(ns);
            Valid(p.value) && if p.over then p.rest == [] else ns == Encode(p.value) + p.rest
    decreases |ns|, 0
  {
    if ns == [] {
    } else if ns[0] == 12 {
      ExtendedSound(ns[1..]);
      assert ns == [ns[0]] + ns[1..];
    } else if ns[0] % 4 == 0 {
      assert ns == [ns[0]] + ns[1..];
    } else {
      SoundKids(ns[1..], ns[0] % 4 + 1);
      assert ns == [ns[0]] + ns[1..];
    }
  }

  lemma {:induction false} SoundKids(ns: seq<Nibble>, k: nat)
    ensures var p := ParseKids(ns, k);
            ValidAll(p.value) &&
            if p.over then k > 0 && p.rest == [] else ns == EncodeKids(p.value) + p.rest
    decreases |ns|, k
  {
    if k > 0 {
      var first := ParseTree(ns);
      Sound(ns);
      SoundKids(first.rest, k - 1);
      var more := ParseKids(first.rest, k - 1);
      if first.over {
        EmptyLeavesNothing(k - 1);
      }
      ParseKidsStep(ns, k);
      if !first.over && !more.over {
        Assoc(Encode(first.value), EncodeKids(more.value), more.rest);
      }
    }
  }

  lemma {:induction false} EmptyLeavesNothing(k: nat)
    ensures ParseKids([], k).rest == []
  {
    if k > 0 { EmptyLeavesNothing(k - 1); }
  }

  // ---- consequences for whole strings ----

  /** The source's `ok`: nothing read past the end, and every nibble consumed. */
  predicate Accepts(ns: seq<Nibble>) {
    var p := ParseTree(ns);
    !p.over && p.rest == []
  }

  /** Accepted strings are exactly the encodings of trees, and the tree is the one the parse returns. */
  lemma AcceptsExactlyEncodings(ns: seq<Nibble>)
    ensures Accepts(ns) <==> exists t :: Valid(t) && Encode(t) == ns
    ensures forall t :: Valid(t) && Encode(t) == ns ==> t == ParseTree(ns).value
  {
    Sound(ns);
    if Accepts(ns) {
      assert Encode(ParseTree(ns).value) == ns;
    }
    forall t | Valid(t) && Encode(t) == ns ensures Accepts(ns) && t == ParseTree(ns).value {
      RoundTrip(t, []);
      assert Encode(t) + [] == ns;
    }
  }

  /** Decoding is unambiguous: encodings determine their tree, and none is a proper prefix of another. */
  lemma PrefixFree(t: Tree, u: Tree)
    requires Valid(t) && Valid(u)
    requires Encode(t) <= Encode(u)
    ensures t == u
  {
    var tail := Encode(u)[|Encode(t)|..];
    assert Encode(u) == Encode(t) + tail && Encode(u) + [] == Encode(u);
    RoundTrip(t, tail);
    RoundTrip(u, []);
  }

  // ---- bounds ----

  /** Each consumed nibble adds at most three leaves, even in a string that overruns. */
  lemma {:induction false} LeavesBounded(ns: seq<Nibble>)
    ensures var p := ParseTree(ns); 1 <= Leaves(p.value) <= 1 + 3 * (|ns| - |p.rest|)
    decreases |ns|, 0
  {
    if ns != [] && ns[0] % 4 != 0 {
      LeavesKidsBounded(ns[1..], ns[0] % 4 + 1);
    }
  }

  lemma {:induction false} LeavesKidsBounded(ns: seq<Nibble>, k: nat)
    ensures var p := ParseKids(ns, k); k <= LeavesKids(p.value) <= k + 3 * (|ns| - |p.rest|)
    decreases |ns|, k
  {
    if k > 0 {
      LeavesBounded(ns);
      LeavesKidsBounded(ParseTree(ns).rest, k - 1);
      ParseKidsStep(ns, k);
    }
  }

  /** `Leaves`, `FirstState` and `MaxState` are the length, head and maximum of the leaf list. */
  lemma {:induction false} LeafStatesSummary(t: Tree)
    requires Valid(t)
    ensures |LeafStates(t)| == Leaves(t) >= 1
    ensures LeafStates(t)[0] == FirstState(t)
    ensures MaxState(t) in LeafStates(t)
    ensures forall s :: s in LeafStates(t) ==> s <= MaxState(t)
    decreases t, 1
  {
    if t.Split? { LeafStatesKidsSummary(t.kids); }
  }

  lemma {:induction false} LeafStatesKidsSummary(kids: seq<Tree>)
    requires ValidAll(kids) && kids != []
    ensures |LeafStatesKids(kids)| == LeavesKids(kids) >= 1
    ensures LeafStatesKids(kids)[0] == FirstState(kids[|kids| - 1])
    ensures MaxStateKids(kids) in LeafStatesKids(kids)
    ensures forall s :: s in LeafStatesKids(kids) ==> s <= MaxStateKids(kids)
    decreases kids, 0
  {
    LeafStatesSummary(kids[|kids| - 1]);
    if |kids| > 1 { LeafStatesKidsSummary(kids[..|kids| - 1]); }
  }
}
