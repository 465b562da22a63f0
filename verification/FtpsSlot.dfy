/**
 The printer's one FTPS slot (src/orchestrator/ftps-session.ts, `runSerialized`): a promise chain
 used as a first-in first-out lock. Every call makes two promises: `run`, which the caller gets, and
 the guard `run.catch(() => {})`, which becomes the tail of the chain. The steps below are the
 microtasks of that code, so a run is any interleaving of callers and bodies.
 */
module FtpsSlot {

  datatype Value = Undefined | Of(n: int)

  datatype Outcome = Fulfilled(value: Value) | Rejected(error: string)

  datatype Promise = Pending | Settled(outcome: Outcome)

  datatype Phase = Awaiting | Running | Done

  /** One call of `runSerialized`: the promises it waits for, returns and leaves as the tail. */
  datatype Call = Call(prev: nat, run: nat, guard: nat, phase: Phase)

  /** `started` lists the calls whose bodies began, in that order. */
  datatype Slot = Slot(promises: seq<Promise>, queue: nat, calls: seq<Call>, started: seq<nat>)

  datatype Event =
    | Arrive                                   // runSerialized is called
    | Resume(i: nat)                           // call i sees its predecessor settle and starts its body
    | BodySettles(i: nat, outcome: Outcome)    // the body of call i returns or throws
    | GuardSettles(i: nat)                     // the tail left by call i settles

  const INITIAL: Slot := Slot([Settled(Fulfilled(Undefined))], 0, [], [])

  predicate Enabled(s: Slot, e: Event) {
    match e
    case Arrive => true
    case Resume(i) =>
      i < |s.calls| && s.calls[i].phase == Awaiting && s.calls[i].prev < |s.promises|
        && s.promises[s.calls[i].prev].Settled?
    case BodySettles(i, _) => i < |s.calls| && s.calls[i].phase == Running && s.calls[i].run < |s.promises|
    case GuardSettles(i) =>
      && i < |s.calls| && s.calls[i].run < |s.promises| && s.promises[s.calls[i].run].Settled?
      && s.calls[i].guard < |s.promises| && s.promises[s.calls[i].guard].Pending?
  }

  /** What `p.catch(() => {})` settles with. */
  function Caught(o: Outcome): Outcome { if o.Fulfilled? then o else Fulfilled(Undefined) }

  /** An event that cannot occur in `s` changes nothing. */
  function Step(s: Slot, e: Event): Slot {
    if !Enabled(s, e) then s
    else
      match e
      case Arrive =>
        var n := |s.promises|;
        s.(promises := s.promises + [Pending, Pending], queue := n + 1,
           calls := s.calls + [Call(s.queue, n, n + 1, Awaiting)])
      case Resume(i) => s.(calls := s.calls[i := s.calls[i].(phase := Running)], started := s.started + [i])
      case BodySettles(i, o) =>
        s.(calls := s.calls[i := s.calls[i].(phase := Done)], promises := s.promises[s.calls[i].run := Settled(o)])
      case GuardSettles(i) =>
        s.(promises := s.promises[s.calls[i].guard := Settled(Caught(s.promises[s.calls[i].run].outcome))])
  }

  function Run(es: seq<Event>): Slot {
    if |es| == 0 then INITIAL else Step(Run(es[..|es| - 1]), es[|es| - 1])
  }

  // ---- the invariant ----

  /** The calls form one chain: each waits for the guard of the call before it. */
  predicate Chained(s: Slot) {
    && |s.promises| == 2 * |s.calls| + 1
    && s.queue == 2 * |s.calls|
    && forall i :: 0 <= i < |s.calls| ==>
         s.calls[i].prev == 2 * i && s.calls[i].run == 2 * i + 1 && s.calls[i].guard == 2 * i + 2
  }

  function RunOf(s: Slot, i: nat): Promise
    requires Chained(s) && i < |s.calls|
  { s.promises[s.calls[i].run] }

  function GuardOf(s: Slot, i: nat): Promise
    requires Chained(s) && i < |s.calls|
  { s.promises[s.calls[i].guard] }

  /**
   A body that is done settled its promise, only such a body's guard can have settled, and a body
   that started saw its predecessor settle.
   */
  predicate Settling(s: Slot)
    requires Chained(s)
  {
    && s.promises[0].Settled?
    && forall i :: 0 <= i < |s.calls| ==>
         && (s.calls[i].phase == Done <==> RunOf(s, i).Settled?)
         && (s.calls[i].phase != Awaiting ==> s.promises[s.calls[i].prev].Settled?)
         && (GuardOf(s, i).Settled? ==> RunOf(s, i).Settled? && GuardOf(s, i).outcome == Caught(RunOf(s, i).outcome))
  }

  /** Bodies start in call order, and all but the last one that started are done. */
  predicate InOrder(s: Slot) {
    && |s.started| <= |s.calls|
    && (forall k :: 0 <= k < |s.started| ==> s.started[k] == k)
    && (forall i :: 0 <= i < |s.calls| ==> (s.calls[i].phase == Awaiting <==> |s.started| <= i))
    && (forall i :: 0 <= i < |s.started| - 1 ==> s.calls[i].phase == Done)
  }

  predicate Inv(s: Slot) { Chained(s) && Settling(s) && InOrder(s) }

  /** Call `i` may start exactly when every earlier call has settled, its guard included. */
  lemma ResumeIsNext(s: Slot, i: nat)
    requires Inv(s) && Enabled(s, Resume(i))
    ensures i == |s.started|
    ensures forall j :: 0 <= j < i ==> s.calls[j].phase == Done
  {
    if i > 0 {
      assert s.calls[i - 1].guard == s.calls[i].prev;
      assert GuardOf(s, i - 1).Settled?;
    }
  }

  lemma ArriveKeeps(s: Slot)
    requires Inv(s)
    ensures Inv(Step(s, Arrive))
  {
    var t := Step(s, Arrive);
    assert Chained(t) && InOrder(t);
    assert forall i :: 0 <= i < |s.calls| ==>
             t.calls[i] == s.calls[i] && RunOf(t, i) == RunOf(s, i) && GuardOf(t, i) == GuardOf(s, i);
  }

  lemma ResumeKeeps(s: Slot, i: nat)
    requires Inv(s) && Enabled(s, Resume(i))
    ensures Inv(Step(s, Resume(i)))
  {
    var t := Step(s, Resume(i));
    ResumeIsNext(s, i);
    assert forall j :: 0 <= j < |s.calls| ==> RunOf(t, j) == RunOf(s, j) && GuardOf(t, j) == GuardOf(s, j);
  }

  lemma BodyKeeps(s: Slot, i: nat, o: Outcome)
    requires Inv(s) && Enabled(s, BodySettles(i, o))
    ensures Inv(Step(s, BodySettles(i, o)))
  {
    var t := Step(s, BodySettles(i, o));
    assert forall j :: 0 <= j < |s.calls| && j != i ==> RunOf(t, j) == RunOf(s, j);
    assert forall j :: 0 <= j < |s.calls| ==> GuardOf(t, j) == GuardOf(s, j);
  }

  lemma GuardKeeps(s: Slot, i: nat)
    requires Inv(s) && Enabled(s, GuardSettles(i))
    ensures Inv(Step(s, GuardSettles(i)))
  {
    var t := Step(s, GuardSettles(i));
    assert forall j :: 0 <= j < |s.calls| ==> RunOf(t, j) == RunOf(s, j);
    assert forall j :: 0 <= j < |s.calls| && j != i ==> GuardOf(t, j) == GuardOf(s, j);
  }

  lemma StepKeeps(s: Slot, e: Event)
    requires Inv(s)
    ensures Inv(Step(s, e))
  {
    if Enabled(s, e) {
      match e
      case Arrive => ArriveKeeps(s);
      case Resume(i) => ResumeKeeps(s, i);
      case BodySettles(i, o) => BodyKeeps(s, i, o);
      case GuardSettles(i) => GuardKeeps(s, i);
    }
  }

  lemma {:induction false} RunKeeps(es: seq<Event>)
    ensures Inv(Run(es))
  {
    if |es| > 0 {
      RunKeeps(es[..|es| - 1]);
      StepKeeps(Run(es[..|es| - 1]), es[|es| - 1]);
    }
  }

  /**
   In every interleaving at most one body runs, bodies start in the order of the calls, and every
   call before a started one has settled.
   */
  lemma MutualExclusion(es: seq<Event>)
    ensures var s := Run(es);
            && (forall i, j :: 0 <= i < j < |s.calls| && s.calls[i].phase == Running ==> s.calls[j].phase != Running)
            && (forall k :: 0 <= k < |s.started| ==> s.started[k] == k)
            && (forall i, j :: 0 <= i < j < |s.calls| && s.calls[j].phase != Awaiting ==> s.calls[i].phase == Done)
  {
    RunKeeps(es);
  }

  // ---- each caller gets the outcome of its own body ----

  /**
   What a caller is given is what its own body settled with, at a moment when that body was the one
   running.
   */
  lemma {:induction false} ResultIsOwn(es: seq<Event>, i: nat)
    requires Inv(Run(es)) && i < |Run(es).calls| && RunOf(Run(es), i).Settled?
    ensures exists k ::
              0 <= k < |es| && es[k] == BodySettles(i, RunOf(Run(es), i).outcome) && Enabled(Run(es[..k]), es[k])
  {
    var before := es[..|es| - 1];
    var s, e := Run(before), es[|es| - 1];
    RunKeeps(before);
    if i < |s.calls| && RunOf(s, i).Settled? {
      assert RunOf(Step(s, e), i) == RunOf(s, i);
      ResultIsOwn(before, i);
      var k :| 0 <= k < |before| && before[k] == BodySettles(i, RunOf(s, i).outcome)
          && Enabled(Run(before[..k]), before[k]);
      assert es[..k] == before[..k] && es[k] == before[k];
    } else {
      assert Run(es) == Step(s, e) && Enabled(s, e);
      assert es[|es| - 1] == BodySettles(i, RunOf(Run(es), i).outcome) && Enabled(Run(es[..|es| - 1]), es[|es| - 1]);
    }
  }

  /** The same event, or the same other body settling with any outcome. */
  predicate AlikeBut(e: Event, f: Event, i: nat) {
    e == f || (e.BodySettles? && f.BodySettles? && e.i == f.i && e.i != i)
  }

  /** The same calls in the same phases, and the same outcome for call `i`. */
  predicate SameBut(s: Slot, t: Slot, i: nat) {
    && Inv(s) && Inv(t)
    && s.calls == t.calls && s.started == t.started
    && (forall p :: 0 <= p < |s.promises| ==> s.promises[p].Settled? == t.promises[p].Settled?)
    && (i < |s.calls| ==> RunOf(s, i) == RunOf(t, i))
  }

  lemma StepSameBut(s: Slot, t: Slot, e: Event, f: Event, i: nat)
    requires SameBut(s, t, i) && AlikeBut(e, f, i)
    ensures SameBut(Step(s, e), Step(t, f), i)
  {
    StepKeeps(s, e);
    StepKeeps(t, f);
    assert Enabled(s, e) == Enabled(t, f);
    match e
    case Arrive =>
    case Resume(_) =>
    case BodySettles(_, _) =>
    case GuardSettles(_) =>
  }

  /**
   Whether and with what the other bodies fail changes nothing for a caller: two interleavings that
   differ only in the outcomes of other calls start the same bodies in the same order and give call
   `i` the same result at the same point.
   */
  lemma {:induction false} OthersDoNotMatter(es: seq<Event>, fs: seq<Event>, i: nat)
    requires |es| == |fs| && forall k :: 0 <= k < |es| ==> AlikeBut(es[k], fs[k], i)
    ensures SameBut(Run(es), Run(fs), i)
  {
    if |es| > 0 {
      OthersDoNotMatter(es[..|es| - 1], fs[..|fs| - 1], i);
      StepSameBut(Run(es[..|es| - 1]), Run(fs[..|fs| - 1]), es[|es| - 1], fs[|fs| - 1], i);
    }
  }

  // ---- nobody is blocked ----

  /** The steps call `i` still has to take. */
  function Left(s: Slot, i: nat): nat
    requires Chained(s) && i < |s.calls|
  {
    match s.calls[i].phase
    case Awaiting => 3
    case Running => 2
    case Done => if GuardOf(s, i).Pending? then 1 else 0
  }

  function Work(s: Slot, n: nat): nat
    requires Chained(s) && n <= |s.calls|
  { if n == 0 then 0 else Work(s, n - 1) + Left(s, n - 1) }

  function TotalWork(s: Slot): nat
    requires Chained(s)
  { Work(s, |s.calls|) }

  lemma {:induction false} WorkFalls(s: Slot, t: Slot, i: nat, n: nat)
    requires Chained(s) && Chained(t) && |s.calls| == |t.calls| && n <= |s.calls| && i < |s.calls|
    requires forall j :: 0 <= j < |s.calls| && j != i ==> Left(t, j) == Left(s, j)
    requires Left(s, i) == Left(t, i) + 1
    ensures Work(s, n) == Work(t, n) + (if i < n then 1 else 0)
  {
    if n > 0 { WorkFalls(s, t, i, n - 1); }
  }

  lemma StepWorks(s: Slot, e: Event)
    requires Inv(s) && e != Arrive && Enabled(s, e)
    ensures Inv(Step(s, e)) && |Step(s, e).calls| == |s.calls|
    ensures TotalWork(s) == TotalWork(Step(s, e)) + 1
  {
    StepKeeps(s, e);
    var t := Step(s, e);
    assert e.i < |s.calls| && Left(s, e.i) == Left(t, e.i) + 1;
    assert forall j :: 0 <= j < |s.calls| && j != e.i ==> t.calls[j] == s.calls[j] && GuardOf(t, j) == GuardOf(s, j);
    WorkFalls(s, t, e.i, |s.calls|);
  }

  predicate AllSettled(s: Slot)
    requires Chained(s)
  { forall i :: 0 <= i < |s.calls| ==> s.calls[i].phase == Done && RunOf(s, i).Settled? && GuardOf(s, i).Settled? }

  lemma {:induction false} FirstUnsettled(s: Slot, n: nat) returns (i: nat)
    requires Inv(s) && n <= |s.calls| && Work(s, n) > 0
    ensures i < n && Left(s, i) > 0 && forall j :: 0 <= j < i ==> Left(s, j) == 0
  {
    if Work(s, n - 1) > 0 { i := FirstUnsettled(s, n - 1); } else { i := n - 1; NoWork(s, i); }
  }

  lemma {:induction false} NoWork(s: Slot, n: nat)
    requires Chained(s) && n <= |s.calls| && Work(s, n) == 0
    ensures forall j :: 0 <= j < n ==> Left(s, j) == 0
  {
    if n > 0 { NoWork(s, n - 1); }
  }

  /** The step the code takes next as soon as the event loop, or the running body, gets there. */
  function NextStep(s: Slot, i: nat, o: Outcome): Event
    requires Chained(s) && i < |s.calls|
  {
    match s.calls[i].phase
    case Awaiting => Resume(i)
    case Running => BodySettles(i, o)
    case Done => GuardSettles(i)
  }

  /** While some call has work left, the first such call can take its next step. */
  lemma NobodyBlocks(s: Slot, o: Outcome) returns (e: Event)
    requires Inv(s) && TotalWork(s) > 0
    ensures e != Arrive && Enabled(s, e)
  {
    var i := FirstUnsettled(s, |s.calls|);
    e := NextStep(s, i, o);
    if i > 0 {
      assert Left(s, i - 1) == 0;
      assert s.calls[i - 1].guard == s.calls[i].prev && GuardOf(s, i - 1).Settled?;
    }
  }

  function RunFrom(s: Slot, es: seq<Event>): Slot {
    if |es| == 0 then s else Step(RunFrom(s, es[..|es| - 1]), es[|es| - 1])
  }

  /** No new calls, and every event of the schedule really happens. */
  predicate Progresses(s: Slot, es: seq<Event>) {
    |es| == 0 || (Progresses(s, es[..|es| - 1]) && es[|es| - 1] != Arrive
                  && Enabled(RunFrom(s, es[..|es| - 1]), es[|es| - 1]))
  }

  lemma {:induction false} ProgressWorks(s: Slot, es: seq<Event>)
    requires Inv(s) && Progresses(s, es)
    ensures Inv(RunFrom(s, es)) && |RunFrom(s, es).calls| == |s.calls|
    ensures TotalWork(s) == TotalWork(RunFrom(s, es)) + |es|
  {
    if |es| > 0 {
      ProgressWorks(s, es[..|es| - 1]);
      StepWorks(RunFrom(s, es[..|es| - 1]), es[|es| - 1]);
    }
  }

  /**
   However the bodies end and whichever step goes first: a schedule without new calls takes at most
   `TotalWork` steps, it can be continued as long as it has taken fewer, and once it has taken them
   all every call has settled.
   */
  lemma EveryCallSettles(s: Slot, es: seq<Event>, o: Outcome)
    requires Inv(s) && Progresses(s, es)
    ensures |es| <= TotalWork(s)
    ensures Inv(RunFrom(s, es)) && |RunFrom(s, es).calls| == |s.calls|
    ensures |es| == TotalWork(s) <==> AllSettled(RunFrom(s, es))
    ensures |es| < TotalWork(s) ==> exists e :: e != Arrive && Enabled(RunFrom(s, es), e)
  {
    ProgressWorks(s, es);
    var t := RunFrom(s, es);
    if TotalWork(t) == 0 {
      NoWork(t, |t.calls|);
      forall i | 0 <= i < |t.calls|
        ensures t.calls[i].phase == Done && RunOf(t, i).Settled? && GuardOf(t, i).Settled?
      { assert Left(t, i) == 0; }
    } else {
      var e := NobodyBlocks(t, o);
      var i := FirstUnsettled(t, |t.calls|);
    }
  }

  // ---- the module variable and the two halves of a call ----

  class SessionQueue {
    var queue: nat
    var promises: seq<Promise>
    var calls: seq<Call>
    ghost var started: seq<nat>

    ghost function View(): Slot
      reads this
    { Slot(promises, queue, calls, started) }

    constructor ()
      ensures View() == INITIAL && Inv(View())
    {
      queue, promises, calls, started := 0, [Settled(Fulfilled(Undefined))], [], [];
    }

    /** `runSerialized` up to its return: the new call waits for the old tail and becomes the tail. */
    method RunSerialized() returns (call: nat)
      requires Inv(View())
      modifies this
      ensures Inv(View()) && View() == Step(old(View()), Arrive)
      ensures call == |old(calls)| && calls[call].prev == old(queue) && calls[call].guard == queue
    {
      StepKeeps(View(), Arrive);
      var prev := queue;
      var run := |promises|;
      promises := promises + [Pending, Pending];
      call := |calls|;
      calls := calls + [Call(prev, run, run + 1, Awaiting)];
      queue := run + 1;
    }

    /** The continuation after `await prev.catch(...)`; false while the predecessor is pending. */
    method Continue(i: nat) returns (starts: bool)
      requires Inv(View()) && i < |calls| && calls[i].phase == Awaiting
      modifies this
      ensures Inv(View()) && View() == Step(old(View()), Resume(i))
      ensures starts <==> forall j :: 0 <= j < i ==> old(calls[j].phase == Done && GuardOf(View(), j).Settled?)
    {
      StepKeeps(View(), Resume(i));
      StartsExactly(View(), i);
      starts := promises[calls[i].prev].Settled?;
      if starts {
        calls := calls[i := calls[i].(phase := Running)];
        started := started + [i];
      }
    }

    /** The body of call `i` returns or throws: `run` settles with exactly that. */
    method Settle(i: nat, outcome: Outcome)
      requires Inv(View()) && i < |calls| && calls[i].phase == Running
      modifies this
      ensures Inv(View()) && View() == Step(old(View()), BodySettles(i, outcome))
      ensures RunOf(View(), i) == Settled(outcome)
    {
      StepKeeps(View(), BodySettles(i, outcome));
      promises := promises[calls[i].run := Settled(outcome)];
      calls := calls[i := calls[i].(phase := Done)];
    }

    /** The tail left by call `i` settles, fulfilled whatever the body did. */
    method SettleGuard(i: nat)
      requires Inv(View()) && Enabled(View(), GuardSettles(i))
      modifies this
      ensures Inv(View()) && View() == Step(old(View()), GuardSettles(i))
      ensures GuardOf(View(), i).Settled? && GuardOf(View(), i).outcome.Fulfilled?
    {
      StepKeeps(View(), GuardSettles(i));
      promises := promises[calls[i].guard := Settled(Caught(promises[calls[i].run].outcome))];
    }
  }

  /** An awaiting call can start exactly when every earlier call is done and its guard has settled. */
  lemma StartsExactly(s: Slot, i: nat)
    requires Inv(s) && i < |s.calls| && s.calls[i].phase == Awaiting
    ensures s.promises[s.calls[i].prev].Settled?
            <==> forall j :: 0 <= j < i ==> s.calls[j].phase == Done && GuardOf(s, j).Settled?
  {
    if s.promises[s.calls[i].prev].Settled? {
      ResumeIsNext(s, i);
      forall j | 0 <= j < i
        ensures GuardOf(s, j).Settled?
      { assert s.calls[j].guard == s.calls[j + 1].prev; }
    } else {
      assert i > 0 && s.calls[i - 1].guard == s.calls[i].prev;
      assert !GuardOf(s, i - 1).Settled?;
    }
  }
}
