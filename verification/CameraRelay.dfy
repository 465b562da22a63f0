/**
 The camera relay (src/orchestrator/camera-relay.ts): one shared upstream socket for any number of
 listeners, a linger timer that keeps it for a while after the last one leaves, and reconnects with
 a doubling delay while somebody is watching. Sockets and timers deliver events; `connectOk` says
 whether opening a socket throws.
 */
module CameraRelay {
  import opened Wrappers
  import opened CameraStream

  /** What the invariants talk about besides the relay's own fields. */
  datatype World = World(
    live: set<nat>,                  // sockets opened and neither closed nor destroyed
    delays: seq<nat>,                // reconnect delays since the last frame or teardown
    received: seq<Byte>,             // bytes that arrived on the current socket
    shown: seq<seq<Byte>>)           // frames handed to the listeners from the current socket

  datatype Relay = Relay(
    listeners: set<nat>, subscriptions: map<nat, nat>, nextSubscription: nat,
    sock: Option<nat>, connecting: bool, latest: Option<seq<Byte>>,
    linger: bool, backoff: bool, backoffMs: nat, connects: nat, parser: State, world: World)

  datatype Config = Config(base: nat, max: nat)

  datatype Event =
    | Subscribe(listener: nat, connectOk: bool)
    | Unsubscribe(subscription: nat)
    | Data(socket: nat, chunk: seq<Byte>)
    | Close(socket: nat)
    | LingerFires
    | BackoffFires(connectOk: bool)

  function Initial(cfg: Config): Relay {
    Relay({}, map[], 0, None, false, None, false, false, cfg.base, 0, START, World({}, [], [], []))
  }

  function Min(a: nat, b: nat): nat { if a < b then a else b }

  // ---- the handlers as functions ----

  function ScheduleReconnect(r: Relay, cfg: Config): Relay {
    if r.backoff || r.sock.Some? || r.connecting then r
    else r.(backoff := true, backoffMs := Min(2 * r.backoffMs, cfg.max),
            world := r.world.(delays := r.world.delays + [r.backoffMs]))
  }

  function UpstreamGone(r: Relay, cfg: Config): Relay {
    var g := r.(sock := None, connecting := false);
    if g.listeners != {} then ScheduleReconnect(g, cfg) else g
  }

  function OpenUpstream(r: Relay, cfg: Config, ok: bool): Relay {
    var o := r.(connecting := true, connects := r.connects + 1);
    if !ok then UpstreamGone(o.(connecting := false), cfg)
    else o.(sock := Some(o.connects), parser := START,
            world := World(r.world.live + {o.connects}, r.world.delays, [], []))
  }

  function EnsureUpstream(r: Relay, cfg: Config, ok: bool): Relay {
    if r.sock.Some? || r.connecting || r.backoff then r else OpenUpstream(r, cfg, ok)
  }

  /** Each frame marks the stream as healthy. */
  function OnFrames(r: Relay, cfg: Config, frames: seq<seq<Byte>>): Relay {
    if |frames| == 0 then r
    else r.(connecting := false, backoffMs := cfg.base, latest := Some(frames[|frames| - 1]),
            world := r.world.(delays := [], shown := r.world.shown + frames))
  }

  function Teardown(r: Relay, cfg: Config): Relay {
    r.(backoff := false, backoffMs := cfg.base, latest := None, sock := None, connecting := false,
       world := r.world.(delays := [], live := if r.sock.Some? then r.world.live - {r.sock.value} else r.world.live))
  }

  /** An event that cannot occur in `r` changes nothing. */
  function Handle(r: Relay, e: Event, cfg: Config): Relay {
    match e
    case Subscribe(l, ok) =>
      var s := r.(listeners := r.listeners + {l}, subscriptions := r.subscriptions[r.nextSubscription := l],
                  nextSubscription := r.nextSubscription + 1, linger := false);
      EnsureUpstream(s, cfg, ok)
    case Unsubscribe(h) =>
      if h !in r.subscriptions then r
      else
        var u := r.(listeners := r.listeners - {r.subscriptions[h]}, subscriptions := r.subscriptions - {h});
        if u.listeners == {} then u.(linger := true) else u
    case Data(s, chunk) =>
      if s !in r.world.live || r.sock != Some(s) then r
      else
        var (frames, left) := Frames(Fed(r.parser, chunk));
        OnFrames(r.(parser := left, world := r.world.(received := r.world.received + chunk)), cfg, frames)
    case Close(s) =>
      if s !in r.world.live then r
      else
        var c := r.(world := r.world.(live := r.world.live - {s}));
        if c.sock == Some(s) then UpstreamGone(c, cfg) else c
    case LingerFires =>
      if !r.linger then r
      else
        var f := r.(linger := false);
        if f.listeners == {} then Teardown(f, cfg) else f
    case BackoffFires(ok) =>
      if !r.backoff then r
      else
        var b := r.(backoff := false);
        if b.listeners != {} then OpenUpstream(b, cfg, ok) else b
  }

  // ---- the invariant ----

  function Pow2(n: nat): nat { if n == 0 then 1 else 2 * Pow2(n - 1) }

  /** The n-th consecutive reconnect delay: the base, doubled n times up to the maximum. */
  function Delay(cfg: Config, n: nat): nat { if n == 0 then cfg.base else Min(cfg.base * Pow2(n), cfg.max) }

  predicate OneSocket(r: Relay) {
    && r.world.live == (if r.sock.Some? then {r.sock.value} else {})
    && (r.sock.Some? ==> r.sock.value <= r.connects)
    && (r.connecting ==> r.sock.Some?)
    && (r.backoff ==> r.sock.None?)
  }

  predicate Watched(r: Relay) {
    && (r.listeners != {} ==> r.sock.Some? || r.backoff)
    && (r.listeners == {} && r.sock.Some? ==> r.linger)
    && (r.linger ==> r.listeners == {})
  }

  predicate DelaysDouble(r: Relay, cfg: Config) {
    && r.backoffMs == Delay(cfg, |r.world.delays|)
    && forall i :: 0 <= i < |r.world.delays| ==> r.world.delays[i] == Delay(cfg, i)
  }

  predicate StreamParsed(r: Relay) {
    r.sock.Some? ==> Frames(Fed(START, r.world.received)) == (r.world.shown, r.parser)
  }

  predicate Inv(r: Relay, cfg: Config) { OneSocket(r) && Watched(r) && DelaysDouble(r, cfg) && StreamParsed(r) }

  lemma NextDelay(cfg: Config, n: nat)
    ensures Delay(cfg, n + 1) == Min(2 * Delay(cfg, n), cfg.max)
    ensures Delay(cfg, 0) == cfg.base
  {
    assert cfg.base * Pow2(n + 1) == 2 * (cfg.base * Pow2(n));
  }

  lemma GoneKeeps(r: Relay, cfg: Config)
    requires DelaysDouble(r, cfg)
    requires r.world.live == {} && (r.linger ==> r.listeners == {}) && !r.backoff
    ensures Inv(UpstreamGone(r, cfg), cfg)
  {
    hide Delay;
    NextDelay(cfg, |r.world.delays|);
  }

  lemma OpenKeeps(r: Relay, cfg: Config, ok: bool)
    requires OneSocket(r) && DelaysDouble(r, cfg)
    requires r.sock.None? && !r.backoff && r.listeners != {} && !r.linger
    ensures Inv(OpenUpstream(r, cfg, ok), cfg)
  {
    hide Delay;
    StartIsEmpty();
    GoneKeeps(r.(connects := r.connects + 1, connecting := false), cfg);
  }

  lemma DataKeeps(r: Relay, cfg: Config, chunk: seq<Byte>)
    requires Inv(r, cfg) && r.sock.Some?
    ensures Inv(Handle(r, Data(r.sock.value, chunk), cfg), cfg)
  {
    hide Delay, Frames;
    NextDelay(cfg, 0);
    FramesSplit(Fed(START, r.world.received), chunk);
    FedTwice(START, r.world.received, chunk);
    assert r.world.shown + [] == r.world.shown;
    assert Frames(Fed(START, r.world.received + chunk))
           == (r.world.shown + Frames(Fed(r.parser, chunk)).0, Frames(Fed(r.parser, chunk)).1);
  }

  /** Every event keeps the invariant. */
  lemma HandleKeeps(r: Relay, e: Event, cfg: Config)
    requires Inv(r, cfg)
    ensures Inv(Handle(r, e, cfg), cfg)
  {
    hide Delay, Frames;
    NextDelay(cfg, |r.world.delays|);
    match e
    case Subscribe(l, ok) =>
      if r.sock.None? && !r.connecting && !r.backoff {
        OpenKeeps(r.(listeners := r.listeners + {l}, subscriptions := r.subscriptions[r.nextSubscription := l],
                     nextSubscription := r.nextSubscription + 1, linger := false), cfg, ok);
      }
    case Unsubscribe(h) =>
    case Data(s, chunk) => if r.sock == Some(s) { DataKeeps(r, cfg, chunk); }
    case Close(s) => if s in r.world.live { GoneKeeps(r.(world := r.world.(live := r.world.live - {s})), cfg); }
    case LingerFires => NextDelay(cfg, 0);
    case BackoffFires(ok) => if r.backoff && r.listeners != {} { OpenKeeps(r.(backoff := false), cfg, ok); }
  }

  function Run(r: Relay, es: seq<Event>, cfg: Config): Relay
    decreases |es|
  {
    if |es| == 0 then r else Handle(Run(r, es[..|es| - 1], cfg), es[|es| - 1], cfg)
  }

  lemma {:induction false} RunKeeps(es: seq<Event>, cfg: Config)
    ensures Inv(Run(Initial(cfg), es, cfg), cfg)
    decreases |es|
  {
    hide Inv, Handle;
    if |es| == 0 {
      InitialInv(cfg);
    } else {
      RunKeeps(es[..|es| - 1], cfg);
      HandleKeeps(Run(Initial(cfg), es[..|es| - 1], cfg), es[|es| - 1], cfg);
    }
  }

  lemma InitialInv(cfg: Config)
    ensures Inv(Initial(cfg), cfg)
  {
    NextDelay(cfg, 0);
  }

  /** In every reachable state: at most one live socket; a listener implies a socket or a scheduled
      reconnect; an unwatched socket implies the linger timer; the consecutive reconnect delays are the
      base, doubled each time up to the maximum; and what the current socket has shown is the parse of
      what it has received. */
  lemma RelaySafe(es: seq<Event>, cfg: Config)
    ensures var r := Run(Initial(cfg), es, cfg);
            && (forall a, b :: a in r.world.live && b in r.world.live ==> a == b)
            && (r.listeners != {} ==> r.sock.Some? || r.backoff)
            && (r.listeners == {} && r.sock.Some? ==> r.linger)
            && (forall n :: 0 <= n < |r.world.delays| ==> r.world.delays[n] == Delay(cfg, n))
            && (r.sock.Some? ==> r.world.shown == Frames(Fed(START, r.world.received)).0)
  {
    hide Run, Frames;
    RunKeeps(es, cfg);
    assert Inv(Run(Initial(cfg), es, cfg), cfg);
  }

  predicate DelaysCapped(es: seq<Event>, cfg: Config) {
    var ds := Run(Initial(cfg), es, cfg).world.delays;
    forall n :: 0 <= n < |ds| ==> ds[n] == Min(cfg.base * Pow2(n), cfg.max)
  }

  /** A first subscription whose connect throws schedules a reconnect after the base itself, capped or not. */
  lemma FirstDelay(cfg: Config)
    ensures Run(Initial(cfg), [Subscribe(0, false)], cfg).world.delays == [cfg.base]
  {
    var es := [Subscribe(0, false)];
    assert es[..0] == [];
    assert Run(Initial(cfg), es, cfg) == Handle(Initial(cfg), Subscribe(0, false), cfg);
  }

  /** The n-th consecutive delay is min(base * 2^n, max) in every run exactly when the base does not
      exceed the maximum. */
  lemma CappedExactly(cfg: Config)
    ensures (forall es: seq<Event> :: DelaysCapped(es, cfg)) <==> cfg.base <= cfg.max
  {
    hide Run;
    if cfg.base <= cfg.max {
      forall es: seq<Event>
        ensures DelaysCapped(es, cfg)
      { RelaySafe(es, cfg); }
    } else {
      FirstDelay(cfg);
      var ds := Run(Initial(cfg), [Subscribe(0, false)], cfg).world.delays;
      assert ds[0] != Min(cfg.base * Pow2(0), cfg.max);
      assert !DelaysCapped([Subscribe(0, false)], cfg);
    }
  }

  // ---- when there is a latest frame ----

  /** What the interface says of `latest()`: there is none while the upstream is down. */
  predicate NullWhenDown(r: Relay) { r.sock.None? ==> r.latest.None? }

  /** Step k completes a frame. */
  predicate Shows(es: seq<Event>, k: nat, cfg: Config)
    requires k < |es|
  {
    var r := Run(Initial(cfg), es[..k], cfg);
    es[k].Data? && r.sock == Some(es[k].socket) && |Frames(Fed(r.parser, es[k].chunk)).0| > 0
  }

  /** Step k tears the upstream down. */
  predicate TearsDown(es: seq<Event>, k: nat, cfg: Config)
    requires k < |es|
  {
    es[k].LingerFires? && Run(Initial(cfg), es[..k], cfg).linger
  }

  /** A frame was shown and nothing has been torn down since. */
  predicate FrameSinceTeardown(es: seq<Event>, cfg: Config) {
    exists k :: 0 <= k < |es| && Shows(es, k, cfg) && forall j :: k < j < |es| ==> !TearsDown(es, j, cfg)
  }

  lemma FrameSinceStep(es: seq<Event>, cfg: Config)
    requires |es| > 0
    ensures var front, n := es[..|es| - 1], |es| - 1;
            FrameSinceTeardown(es, cfg) <==>
            Shows(es, n, cfg) || (FrameSinceTeardown(front, cfg) && !TearsDown(es, n, cfg))
  {
    hide Shows, TearsDown;
    var front, n := es[..|es| - 1], |es| - 1;
    forall k | 0 <= k < n
      ensures Shows(es, k, cfg) == Shows(front, k, cfg) && TearsDown(es, k, cfg) == TearsDown(front, k, cfg)
    { SameBefore(es, k, cfg); }
    if FrameSinceTeardown(front, cfg) && !TearsDown(es, n, cfg) {
      var k :| 0 <= k < |front| && Shows(front, k, cfg) && forall j :: k < j < |front| ==> !TearsDown(front, j, cfg);
      assert Shows(es, k, cfg);
    }
    if FrameSinceTeardown(es, cfg) && !Shows(es, n, cfg) {
      var k :| 0 <= k < |es| && Shows(es, k, cfg) && forall j :: k < j < |es| ==> !TearsDown(es, j, cfg);
      assert Shows(front, k, cfg);
    }
  }

  lemma SameBefore(es: seq<Event>, k: nat, cfg: Config)
    requires k < |es| - 1
    ensures var front := es[..|es| - 1];
            Shows(es, k, cfg) == Shows(front, k, cfg) && TearsDown(es, k, cfg) == TearsDown(front, k, cfg)
  {
    assert es[..|es| - 1][..k] == es[..k];
  }

  /** Which events change the latest frame: the ones that complete a frame, and the teardown. */
  lemma LatestStep(r: Relay, e: Event, cfg: Config)
    requires Inv(r, cfg)
    ensures var shows := e.Data? && r.sock == Some(e.socket) && |Frames(Fed(r.parser, e.chunk)).0| > 0;
            var frames := if e.Data? then Frames(Fed(r.parser, e.chunk)).0 else [];
            Handle(r, e, cfg).latest == if shows then Some(frames[|frames| - 1])
                                        else if e.LingerFires? && r.linger then None
                                        else r.latest
  {
    hide Frames, Delay;
  }

  /** In every run there is a latest frame exactly when one was shown since the last teardown, whatever
      became of the upstream; so while it is down there is none exactly when none was shown since. */
  lemma {:induction false} LatestExactly(es: seq<Event>, cfg: Config)
    ensures var r := Run(Initial(cfg), es, cfg);
            && (r.latest.Some? <==> FrameSinceTeardown(es, cfg))
            && (NullWhenDown(r) <==> r.sock.Some? || !FrameSinceTeardown(es, cfg))
    decreases |es|
  {
    if |es| > 0 {
      var front := es[..|es| - 1];
      LatestExactly(front, cfg);
      RunKeeps(front, cfg);
      FrameSinceStep(es, cfg);
      LatestStep(Run(Initial(cfg), front, cfg), es[|es| - 1], cfg);
      hide Handle, Inv, FrameSinceTeardown, Frames;
    }
  }

  /** The one step that leaves a frame behind without an upstream is the close of the current socket after
      a frame; what ends that state is a new socket or the teardown, and nothing else. */
  lemma StaleExactly(r: Relay, e: Event, cfg: Config)
    requires Inv(r, cfg)
    ensures var h := Handle(r, e, cfg);
            && (NullWhenDown(r) ==> (!NullWhenDown(h) <==> e.Close? && r.sock == Some(e.socket) && r.latest.Some?))
            && (!NullWhenDown(r) ==> (NullWhenDown(h) <==> h.sock.Some? || (e.LingerFires? && r.linger)))
  {
    hide Frames, Delay;
    LatestStep(r, e, cfg);
  }

  /** One subscription, one image and a lost connection: the upstream is down and the image is still there. */
  lemma StaleRun(l: nat, p: Packet, cfg: Config)
    requires Sendable(p) && IsJpeg(p.payload)
    ensures var r := Run(Initial(cfg), [Subscribe(l, true), Data(1, Encode([p])), Close(1)], cfg);
            r.sock.None? && r.latest == Some(p.payload)
  {
    var es := [Subscribe(l, true), Data(1, Encode([p])), Close(1)];
    var a := Handle(Initial(cfg), es[0], cfg);
    var b := Handle(a, es[1], cfg);
    ThreeSteps(Initial(cfg), es, cfg);
    OneImage(p);
    hide Frames, Encode, IsJpeg;
    assert a.sock == Some(1) && a.parser == START && a.world.live == {1};
    assert b.latest == Some(p.payload) && b.sock == Some(1);
  }

  lemma OneImage(p: Packet)
    requires Sendable(p) && IsJpeg(p.payload)
    ensures Frames(Fed(START, Encode([p]))).0 == [p.payload]
  {
    hide Frames, Encode, IsJpeg;
    EncodeRoundTrip([p], []);
    StartIsEmpty();
    assert START.acc + Encode([p]) == Encode([p]) + [];
    assert Images([p]) == [p.payload];
  }

  lemma ThreeSteps(r: Relay, es: seq<Event>, cfg: Config)
    requires |es| == 3
    ensures Run(r, es, cfg) == Handle(Handle(Handle(r, es[0], cfg), es[1], cfg), es[2], cfg)
  {
    hide Handle;
    var two, one := es[..2], es[..1];
    assert two[..1] == one && one[..0] == [];
    assert Run(r, two, cfg) == Handle(Run(r, one, cfg), es[1], cfg);
  }

  // ---- the class ----

  class CameraRelay {
    const cfg: Config
    var listeners: set<nat>
    var subscriptions: map<nat, nat>
    var nextSubscription: nat
    var sock: Option<nat>
    var connecting: bool
    var latestFrame: Option<seq<Byte>>
    var lingerTimer: bool
    var backoffTimer: bool
    var backoffMs: nat
    var connects: nat
    var parser: CameraFrameParser
    ghost var world: World

    constructor (cfg: Config)
      ensures this.cfg == cfg && Now() == Initial(cfg) && fresh(parser)
    {
      this.cfg, listeners, subscriptions, nextSubscription := cfg, {}, map[], 0;
      sock, connecting, latestFrame := None, false, None;
      lingerTimer, backoffTimer, backoffMs, connects := false, false, cfg.base, 0;
      parser := new CameraFrameParser();
      world := World({}, [], [], []);
    }

    ghost function Now(): Relay
      reads this, parser
    {
      Relay(listeners, subscriptions, nextSubscription, sock, connecting, latestFrame, lingerTimer, backoffTimer,
            backoffMs, connects, parser.Now(), world)
    }

    method DoScheduleReconnect()
      modifies this
      ensures Now() == ScheduleReconnect(old(Now()), cfg) && parser == old(parser)
    {
      if backoffTimer || sock.Some? || connecting { return; }
      world := world.(delays := world.delays + [backoffMs]);
      backoffMs := Min(2 * backoffMs, cfg.max);
      backoffTimer := true;
    }

    method OnUpstreamGone()
      modifies this
      ensures Now() == UpstreamGone(old(Now()), cfg) && parser == old(parser)
    {
      sock, connecting := None, false;
      if listeners != {} { DoScheduleReconnect(); }
    }

    method DoOpenUpstream(connectOk: bool)
      modifies this
      ensures Now() == OpenUpstream(old(Now()), cfg, connectOk)
      ensures parser == old(parser) || fresh(parser)
    {
      hide Frames, First;
      connecting, connects := true, connects + 1;
      if !connectOk {
        connecting := false;
        OnUpstreamGone();
        return;
      }
      parser := new CameraFrameParser();
      sock, world := Some(connects), World(world.live + {connects}, world.delays, [], []);
    }

    /** Registers a listener and returns the handle that ends the subscription. */
    method DoSubscribe(listener: nat, connectOk: bool) returns (handle: nat)
      modifies this
      ensures Now() == Handle(old(Now()), Subscribe(listener, connectOk), cfg) && handle == old(nextSubscription)
      ensures parser == old(parser) || fresh(parser)
    {
      handle := nextSubscription;
      listeners := listeners + {listener};
      subscriptions, nextSubscription := subscriptions[handle := listener], nextSubscription + 1;
      lingerTimer := false;
      if sock.None? && !connecting && !backoffTimer { DoOpenUpstream(connectOk); }
    }

    method DoUnsubscribe(handle: nat)
      modifies this
      ensures Now() == Handle(old(Now()), Unsubscribe(handle), cfg) && parser == old(parser)
    {
      if handle !in subscriptions { return; }
      listeners := listeners - {subscriptions[handle]};
      subscriptions := subscriptions - {handle};
      if listeners == {} { lingerTimer := true; }
    }

    method OnData(socket: nat, chunk: seq<Byte>)
      requires sock == Some(socket) && socket in world.live
      modifies this, parser
      ensures Now() == Handle(old(Now()), Data(socket, chunk), cfg) && parser == old(parser)
    {
      var frames := parser.Drain(chunk);
      world := world.(received := world.received + chunk);
      ghost var base := Now();
      var k := 0;
      while k < |frames|
        invariant 0 <= k <= |frames| && parser == old(parser) && parser.Now() == base.parser
        invariant Now() == OnFrames(base, cfg, frames[..k])
      {
        assert frames[..k + 1][..k] == frames[..k]
               && base.world.shown + frames[..k] + [frames[k]] == base.world.shown + frames[..k + 1];
        OnFrame(frames[k]);
        k := k + 1;
      }
      assert frames[..k] == frames;
    }

    method OnFrame(jpeg: seq<Byte>)
      modifies this
      ensures parser == old(parser)
      ensures Now() == old(Now()).(connecting := false, backoffMs := cfg.base, latest := Some(jpeg),
                                   world := old(world).(delays := [], shown := old(world).shown + [jpeg]))
    {
      connecting := false;
      backoffMs := cfg.base;
      latestFrame := Some(jpeg);
      world := world.(delays := [], shown := world.shown + [jpeg]);
    }

    method OnClose(socket: nat)
      requires sock == Some(socket) ==> socket in world.live
      modifies this
      ensures Now() == Handle(old(Now()), Close(socket), cfg) && parser == old(parser)
    {
      assert socket !in world.live ==> world.live - {socket} == world.live;
      world := world.(live := world.live - {socket});
      if sock == Some(socket) { OnUpstreamGone(); }
    }

    method OnLinger()
      modifies this
      ensures Now() == Handle(old(Now()), LingerFires, cfg) && parser == old(parser)
    {
      if !lingerTimer { return; }
      lingerTimer := false;
      if listeners == {} { DoTeardown(); }
    }

    method DoTeardown()
      modifies this
      ensures Now() == Teardown(old(Now()), cfg) && parser == old(parser)
    {
      hide Frames, First;
      world := world.(delays := [], live := if sock.Some? then world.live - {sock.value} else world.live);
      backoffTimer, backoffMs, latestFrame, sock, connecting := false, cfg.base, None, None, false;
    }

    method OnBackoff(connectOk: bool)
      modifies this
      ensures Now() == Handle(old(Now()), BackoffFires(connectOk), cfg)
      ensures parser == old(parser) || fresh(parser)
    {
      if !backoffTimer { return; }
      backoffTimer := false;
      if listeners != {} { DoOpenUpstream(connectOk); }
    }
  }
}
