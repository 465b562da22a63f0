/**
 The chamber-camera stream (src/orchestrator/camera.ts): 16-byte headers with a little-endian payload
 size, each followed by its payload; payloads that are not JPEG are skipped. The incremental parser and
 the drain loop around it (src/orchestrator/camera-relay.ts) are proved against a one-shot parser, and the
 theorems say that it does not matter how the bytes were cut into chunks, and that encoding frames and
 parsing them gives the JPEG ones back in order.
 */
module CameraStream {
  import opened Wrappers

  const HEADER := 16

  function ReadUInt32LE(b: seq<Byte>): (n: nat)
    requires |b| >= 4
  {
    (b[0] as int) + 0x100 * (b[1] as int) + 0x1_0000 * (b[2] as int) + 0x100_0000 * (b[3] as int)
  }

  /** The JPEG start-of-image marker (section B.1.1.3 of ITU-T T.81) at the head of at least four bytes. */
  predicate IsJpeg(frame: seq<Byte>) { |frame| >= 4 && frame[0] == 0xff && frame[1] == 0xd8 }

  /** Bytes not used yet, and the size of the payload being awaited, or -1 between frames. */
  datatype State = State(acc: seq<Byte>, expecting: int)

  const START := State([], -1)

  function Fed(s: State, chunk: seq<Byte>): State { s.(acc := s.acc + chunk) }

  // ---- one-shot parser ----

  /** All JPEG frames that the bytes at hand complete, and the state that is left. */
  function Frames(s: State): (r: (seq<seq<Byte>>, State))
    decreases |s.acc|, if s.expecting >= 0 then 1 else 0
  {
    if s.expecting < 0 then
      if |s.acc| < HEADER then ([], s) else Frames(State(s.acc[HEADER..], ReadUInt32LE(s.acc)))
    else if |s.acc| < s.expecting then ([], s)
    else
      var frame := s.acc[..s.expecting];
      var (more, left) := Frames(State(s.acc[s.expecting..], -1));
      ((if IsJpeg(frame) then [frame] else []) + more, left)
  }

  /** The first JPEG frame that the bytes at hand complete, and the state right behind it. */
  function First(s: State): (r: (Option<seq<Byte>>, State))
    ensures r.0.Some? ==> |r.1.acc| < |s.acc|
    decreases |s.acc|, if s.expecting >= 0 then 1 else 0
  {
    if s.expecting < 0 then
      if |s.acc| < HEADER then (None, s) else First(State(s.acc[HEADER..], ReadUInt32LE(s.acc)))
    else if |s.acc| < s.expecting then (None, s)
    else
      var frame, rest := s.acc[..s.expecting], State(s.acc[s.expecting..], -1);
      if IsJpeg(frame) then (Some(frame), rest) else First(rest)
  }

  lemma {:induction false} FirstThenRest(s: State)
    ensures match First(s)
            case (None, left) => Frames(s) == ([], left)
            case (Some(frame), left) => Frames(s) == ([frame] + Frames(left).0, Frames(left).1)
    decreases |s.acc|, if s.expecting >= 0 then 1 else 0
  {
    if s.expecting < 0 {
      if |s.acc| >= HEADER { FirstThenRest(State(s.acc[HEADER..], ReadUInt32LE(s.acc))); }
    } else if |s.acc| >= s.expecting {
      FirstThenRest(State(s.acc[s.expecting..], -1));
      NothingBefore(Frames(State(s.acc[s.expecting..], -1)).0);
    }
  }

  // ---- the incremental parser ----

  class CameraFrameParser {
    var acc: seq<Byte>
    var expecting: int

    constructor ()
      ensures Now() == START
    {
      acc, expecting := [], -1;
    }

    function Now(): State
      reads this
    {
      State(acc, expecting)
    }

    /** The inner loop ends even on empty payloads: each round takes bytes or leaves the waiting state. */
    method Push(chunk: seq<Byte>) returns (frame: Option<seq<Byte>>)
      modifies this
      ensures (frame, Now()) == First(Fed(old(Now()), chunk))
    {
      acc := if |acc| == 0 then chunk else acc + chunk;
      assert acc == Fed(old(Now()), chunk).acc;
      while true
        invariant First(Now()) == First(Fed(old(Now()), chunk))
        decreases |acc|, if expecting >= 0 then 1 else 0
      {
        if expecting < 0 {
          if |acc| < HEADER { return None; }
          expecting := ReadUInt32LE(acc);
          acc := acc[HEADER..];
        }
        if |acc| < expecting { return None; }
        var payload := acc[..expecting];
        acc := acc[expecting..];
        expecting := -1;
        if IsJpeg(payload) { return Some(payload); }
      }
    }

    /** The data handler of the relay: the first push takes the chunk, empty pushes fetch the rest. */
    method Drain(chunk: seq<Byte>) returns (frames: seq<seq<Byte>>)
      modifies this
      ensures (frames, Now()) == Frames(Fed(old(Now()), chunk))
    {
      ghost var whole := Frames(Fed(Now(), chunk));
      FirstThenRest(Fed(Now(), chunk));
      frames := [];
      var frame := Push(chunk);
      if frame.Some? { NothingBefore([frame.value]); }
      while frame.Some?
        invariant frame.None? ==> (frames, Now()) == whole
        invariant frame.Some? ==> (frames + [frame.value] + Frames(Now()).0, Frames(Now()).1) == whole
        decreases frame.Some?, |acc|
      {
        frames := frames + [frame.value];
        FirstThenRest(Now());
        assert Fed(Now(), []) == Now();
        frame := Push([]);
        if frame.Some? { Assoc(frames, [frame.value], Frames(Now()).0); } else { assert frames + [] == frames; }
      }
    }
  }

  // ---- chunking does not matter ----

  /** Parsing a stream is parsing its first part and then the second from the state that is left. */
  lemma {:induction false} FramesSplit(s: State, more: seq<Byte>)
    ensures var (fs, left) := Frames(s); var (gs, end) := Frames(Fed(left, more));
            Frames(Fed(s, more)) == (fs + gs, end)
    decreases |s.acc|, if s.expecting >= 0 then 1 else 0
  {
    if s.expecting < 0 {
      if |s.acc| >= HEADER {
        HeaderStep(s, more);
        FramesSplit(State(s.acc[HEADER..], ReadUInt32LE(s.acc)), more);
      } else {
        NothingBefore(Frames(Fed(s, more)).0);
      }
    } else if |s.acc| >= s.expecting {
      var rest := State(s.acc[s.expecting..], -1);
      PayloadStep(s, more);
      FramesSplit(rest, more);
      Assoc(if IsJpeg(s.acc[..s.expecting]) then [s.acc[..s.expecting]] else [],
            Frames(rest).0, Frames(Fed(Frames(rest).1, more)).0);
    } else {
      NothingBefore(Frames(Fed(s, more)).0);
    }
  }

  lemma HeaderStep(s: State, more: seq<Byte>)
    requires s.expecting < 0 && |s.acc| >= HEADER
    ensures Frames(Fed(s, more)) == Frames(Fed(State(s.acc[HEADER..], ReadUInt32LE(s.acc)), more))
  {
    assert (s.acc + more)[HEADER..] == s.acc[HEADER..] + more;
  }

  lemma PayloadStep(s: State, more: seq<Byte>)
    requires 0 <= s.expecting <= |s.acc|
    ensures var frame, r := s.acc[..s.expecting], Frames(Fed(State(s.acc[s.expecting..], -1), more));
            Frames(Fed(s, more)) == ((if IsJpeg(frame) then [frame] else []) + r.0, r.1)
  {
    assert (s.acc + more)[s.expecting..] == s.acc[s.expecting..] + more;
    assert (s.acc + more)[..s.expecting] == s.acc[..s.expecting];
  }

  lemma NothingBefore(fs: seq<seq<Byte>>)
    ensures [] + fs == fs
  {
  }

  lemma Assoc(a: seq<seq<Byte>>, b: seq<seq<Byte>>, c: seq<seq<Byte>>)
    ensures a + (b + c) == (a + b) + c
  {
  }

  function Concat(chunks: seq<seq<Byte>>): seq<Byte>
    decreases |chunks|
  {
    if |chunks| == 0 then [] else Concat(chunks[..|chunks| - 1]) + chunks[|chunks| - 1]
  }

  /** Draining chunk after chunk. */
  function DrainAll(s: State, chunks: seq<seq<Byte>>): (seq<seq<Byte>>, State)
    decreases |chunks|
  {
    if |chunks| == 0 then ([], s)
    else
      var (fs, left) := DrainAll(s, chunks[..|chunks| - 1]);
      var (gs, end) := Frames(Fed(left, chunks[|chunks| - 1]));
      (fs + gs, end)
  }

  lemma StartIsEmpty()
    ensures Frames(START) == ([], START) && Fed(START, []) == START
  {
  }

  lemma FedTwice(s: State, a: seq<Byte>, b: seq<Byte>)
    ensures Fed(Fed(s, a), b) == Fed(s, a + b)
  {
    assert (s.acc + a) + b == s.acc + (a + b);
  }

  /** However a stream is cut into chunks, the drained frames and the final state are those of the one-shot parse. */
  lemma {:induction false} ChunkingDoesNotMatter(chunks: seq<seq<Byte>>)
    ensures DrainAll(START, chunks) == Frames(Fed(START, Concat(chunks)))
    decreases |chunks|
  {
    hide Frames;
    StartIsEmpty();
    if |chunks| > 0 {
      var front, last := chunks[..|chunks| - 1], chunks[|chunks| - 1];
      ChunkingDoesNotMatter(front);
      FramesSplit(Fed(START, Concat(front)), last);
      FedTwice(START, Concat(front), last);
    }
  }

  // ---- round trip ----

  function WriteUInt32LE(n: nat): (b: seq<Byte>)
    requires n < 0x1_0000_0000
    ensures |b| == 4
  {
    [n % 0x100, n / 0x100 % 0x100, n / 0x1_0000 % 0x100, n / 0x100_0000]
  }

  lemma UInt32RoundTrip(n: nat, tail: seq<Byte>)
    requires n < 0x1_0000_0000
    ensures ReadUInt32LE(WriteUInt32LE(n) + tail) == n
  {
    var b := WriteUInt32LE(n);
    assert n / 0x1_0000 == n / 0x100 / 0x100 && n / 0x100_0000 == n / 0x1_0000 / 0x100;
    assert (b + tail)[0] == b[0] && (b + tail)[1] == b[1] && (b + tail)[2] == b[2] && (b + tail)[3] == b[3];
  }

  /** A payload on the wire: its size, twelve header bytes that nobody reads, and the bytes themselves. */
  datatype Packet = Packet(filler: seq<Byte>, payload: seq<Byte>)

  predicate Sendable(p: Packet) { |p.filler| == 12 && |p.payload| < 0x1_0000_0000 }

  function EncodePacket(p: Packet): seq<Byte>
    requires Sendable(p)
  {
    WriteUInt32LE(|p.payload|) + (p.filler + p.payload)
  }

  function Encode(ps: seq<Packet>): seq<Byte>
    requires forall p :: p in ps ==> Sendable(p)
    decreases |ps|
  {
    if |ps| == 0 then [] else EncodePacket(ps[0]) + Encode(ps[1..])
  }

  /** The payloads that are JPEG images. */
  function Images(ps: seq<Packet>): seq<seq<Byte>>
    decreases |ps|
  {
    if |ps| == 0 then [] else (if IsJpeg(ps[0].payload) then [ps[0].payload] else []) + Images(ps[1..])
  }

  lemma PacketStep(p: Packet, tail: seq<Byte>)
    requires Sendable(p)
    ensures var r := Frames(State(tail, -1));
            Frames(State(EncodePacket(p) + tail, -1)) == ((if IsJpeg(p.payload) then [p.payload] else []) + r.0, r.1)
  {
    var n := |p.payload|;
    var bytes := EncodePacket(p) + tail;
    assert bytes == WriteUInt32LE(n) + (p.filler + p.payload + tail);
    UInt32RoundTrip(n, p.filler + p.payload + tail);
    assert bytes[HEADER..] == p.payload + tail;
    assert (p.payload + tail)[..n] == p.payload && (p.payload + tail)[n..] == tail;
    assert Frames(State(bytes, -1)) == Frames(State(p.payload + tail, n));
  }

  /** Parsing the encoding of any packets gives exactly the JPEG payloads, in order, and then parses the rest. */
  lemma {:induction false} EncodeRoundTrip(ps: seq<Packet>, tail: seq<Byte>)
    requires forall p :: p in ps ==> Sendable(p)
    ensures var r := Frames(State(tail, -1));
            Frames(State(Encode(ps) + tail, -1)) == (Images(ps) + r.0, r.1)
    decreases |ps|
  {
    hide Frames, EncodePacket;
    if |ps| == 0 {
      assert Encode(ps) + tail == tail;
      NothingBefore(Frames(State(tail, -1)).0);
    } else {
      assert ps[0] in ps && forall p :: p in ps[1..] ==> p in ps;
      EncodeRoundTrip(ps[1..], tail);
      PacketStep(ps[0], Encode(ps[1..]) + tail);
      assert Encode(ps) + tail == EncodePacket(ps[0]) + (Encode(ps[1..]) + tail);
      Assoc(if IsJpeg(ps[0].payload) then [ps[0].payload] else [], Images(ps[1..]), Frames(State(tail, -1)).0);
    }
  }

  /** Whatever packets are sent and however the network cuts them, the relay sees the images in order. */
  lemma StreamDelivers(ps: seq<Packet>, chunks: seq<seq<Byte>>)
    requires forall p :: p in ps ==> Sendable(p)
    requires Concat(chunks) == Encode(ps)
    ensures DrainAll(START, chunks) == (Images(ps), START)
  {
    hide Frames;
    ChunkingDoesNotMatter(chunks);
    EncodeRoundTrip(ps, []);
    StartIsEmpty();
    assert Encode(ps) + [] == Encode(ps) && START.acc + Encode(ps) == Encode(ps);
    assert Images(ps) + [] == Images(ps);
  }
}
