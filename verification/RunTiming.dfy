/**
 Timing one rehearsal from the printer's status reports (src/core/calibration.ts, `RunTimer`).
 */
module RunTiming {
  import opened Wrappers

  datatype GcodeState = RUNNING | FINISH | FAILED | Other(name: string)

  datatype Seen = Seen(state: GcodeState, now: int)

  datatype Timer = Timer(start: Option<int>, end: Option<int>, failed: bool)

  function OnState(t: Timer, e: Seen): Timer {
    if e.state == RUNNING && t.start.None? then t.(start := Some(e.now))
    else if e.state == FINISH && t.start.Some? && t.end.None? then t.(end := Some(e.now))
    else if e.state == FAILED && t.start.Some? then t.(failed := true)
    else t
  }

  function Timed(h: seq<Seen>): Timer {
    if |h| == 0 then Timer(None, None, false) else OnState(Timed(h[..|h| - 1]), h[|h| - 1])
  }

  function Duration(t: Timer): Option<int> {
    if t.failed || t.start.None? || t.end.None? then None else Some(t.end.value - t.start.value)
  }

  class RunTimer {
    var startMs: Option<int>
    var endMs: Option<int>
    var failed: bool
    ghost var history: seq<Seen>

    ghost predicate Valid()
      reads this
    { Timer(startMs, endMs, failed) == Timed(history) }

    constructor ()
      ensures Valid() && history == []
    {
      startMs, endMs, failed, history := None, None, false, [];
    }

    method Observe(state: GcodeState, now: int)
      requires Valid()
      modifies this
      ensures Valid() && history == old(history) + [Seen(state, now)]
    {
      if state == RUNNING && startMs.None? {
        startMs := Some(now);
      } else if state == FINISH && startMs.Some? && endMs.None? {
        endMs := Some(now);
      } else if state == FAILED && startMs.Some? {
        failed := true;
      }
      history := history + [Seen(state, now)];
    }

    method DurationMs() returns (d: Option<int>)
      requires Valid()
      ensures d == Duration(Timed(history))
    {
      if failed || startMs.None? || endMs.None? { return None; }
      d := Some(endMs.value - startMs.value);
    }

    method Reset()
      modifies this
      ensures Valid() && history == []
    {
      startMs, endMs, failed, history := None, None, false, [];
    }
  }

  predicate First(h: seq<Seen>, from: nat, i: nat, state: GcodeState) {
    from <= i < |h| && h[i].state == state && forall k :: from <= k < i ==> h[k].state != state
  }

  predicate Never(h: seq<Seen>, from: nat, state: GcodeState) { forall k :: from <= k < |h| ==> h[k].state != state }

  /** The run went from its first RUNNING to the next FINISH and never failed since it started. */
  predicate CleanRun(h: seq<Seen>, r: nat, f: nat) {
    First(h, 0, r, RUNNING) && First(h, r + 1, f, FINISH) && Never(h, r + 1, FAILED)
  }

  /** What the three fields remember of the whole history. */
  lemma {:induction false} TimerRemembers(h: seq<Seen>)
    ensures Timed(h).start.None? ==> Never(h, 0, RUNNING) && Timed(h) == Timer(None, None, false)
    ensures Timed(h).start.Some? ==> exists r: nat :: First(h, 0, r, RUNNING) && Remembers(h, r)
  {
    if |h| > 0 {
      var g, e := h[..|h| - 1], h[|h| - 1];
      TimerRemembers(g);
      if Timed(g).start.Some? {
        var r: nat :| First(g, 0, r, RUNNING) && Remembers(g, r);
        assert First(h, 0, r, RUNNING);
        RemembersNext(g, e, r);
        assert g + [e] == h;
      } else if e.state == RUNNING {
        assert First(h, 0, |g|, RUNNING) && Remembers(h, |g|);
      }
    }
  }

  ghost predicate Remembers(h: seq<Seen>, r: nat)
    requires r < |h|
  {
    && Timed(h).start == Some(h[r].now)
    && (Timed(h).failed <==> !Never(h, r + 1, FAILED))
    && (Timed(h).end.None? ==> Never(h, r + 1, FINISH))
    && (Timed(h).end.Some? ==> exists f: nat :: First(h, r + 1, f, FINISH) && Timed(h).end.value == h[f].now)
  }

  lemma RemembersNext(g: seq<Seen>, e: Seen, r: nat)
    requires First(g, 0, r, RUNNING) && Remembers(g, r)
    ensures Remembers(g + [e], r)
  {
    var h := g + [e];
    assert h[..|h| - 1] == g;
    if Timed(g).end.Some? {
      var f: nat :| First(g, r + 1, f, FINISH) && Timed(g).end.value == g[f].now;
      assert First(h, r + 1, f, FINISH);
    } else if e.state == FINISH {
      assert First(h, r + 1, |g|, FINISH);
    }
  }

  /** A duration is reported exactly for a clean run, and it is that run's. */
  lemma DurationExactly(h: seq<Seen>, d: int)
    ensures Duration(Timed(h)) == Some(d) <==> exists r: nat, f: nat :: CleanRun(h, r, f) && d == h[f].now - h[r].now
  {
    TimerRemembers(h);
  }
}
