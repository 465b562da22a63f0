/**
 The closed loop of virtual printer, report channel, monitor and dispatcher, with nobody intervening:
 for every schedule of ticks, faults, duplicated and withheld reports, full polls, failed, timed-out and
 late starts and queue kicks, an accepted print triggers at most one of onFinished and onFailed, always
 for its own job, and exactly one once a final state of it has been reported and the reports are worked
 off. The exception is a job of which the printer took a start that the dispatcher had given up, before
 or after; the theorems say that this exception is exact.

 The loop is a transition system over the same functions that specify the classes VirtualPrinter,
 Monitor and Dispatcher; the handler and dispatch pieces are cut at their awaits. Commands reach the
 printer some time after they were sent, those of one job in the order in which they were sent.
 */
module ClosedLoop {
  import opened Wrappers
  import opened QueueStore
  import opened Dispatch
  import opened ArtifactNames
  import opened Monitoring
  import I = Interleaving
  import P = PrinterStub

  datatype Loop = Loop(
    desk: Desk, printer: P.Printer,
    chan: seq<P.Report>,           // reports on their way to the monitor or waiting in its chain
    log: seq<P.Report>,            // every report ever emitted
    lastKey: string,
    starting: set<nat>,            // starts that have not settled, their project_file not yet at the printer
    sent: set<nat>,                // starts that settled well before their project_file reached the printer
    late: multiset<nat>,           // project_files of starts that failed, which may still reach the printer
    confirming: set<nat>,          // starts that the printer took and that have not settled
    monitorWaits: Option<nat>,     // the start that the monitor's handler awaits
    ejecting: Option<nat>,         // onFailed waiting for the eject
    stops: nat, ejects: nat,       // stop and eject commands on their way to the printer
    events: seq<Event>,            // onFinished and onFailed calls so far
    accepted: seq<nat>,            // jobs whose project_file the printer took
    unsure: set<nat>)              // of these, the jobs of which it took a start that was given up

  datatype Move =
    | PrinterMoves(command: P.Command)
    | Kick
    | MonitorHandles
    | StartArrives(job: nat, mappingLength: nat)
    | StartFails(job: nat, sent: bool)     // before the printer takes it; `sent` when it may still arrive
    | StartAssumed(job: nat, sent: bool)   // some other report confirms it; not `sent` when it was refused
    | SentArrives(job: nat, mappingLength: nat)
    | LateArrives(job: nat, mappingLength: nat)
    | StartConfirmed(job: nat)
    | StartTimesOut(job: nat)              // after the printer has taken it
    | StopArrives
    | EjectArrives
    | EjectSettles(ok: bool, sendsEject: bool)

  function Emit(l: Loop, r: P.Reaction): Loop {
    l.(printer := r.printer, chan := l.chan + r.reports, log := l.log + r.reports)
  }

  predicate MonitorIdle(l: Loop) { l.ejecting.None? && l.monitorWaits.None? }

  function Suspend(l: Loop, c: Cut, byMonitor: bool): Loop {
    if c.start.None? then l.(desk := c.desk)
    else l.(desk := c.desk, starting := l.starting + {c.start.value},
            monitorWaits := if byMonitor then c.start else l.monitorWaits)
  }

  /** The start of job k has settled. */
  function Resumed(l: Loop, k: nat): Loop {
    l.(starting := l.starting - {k}, confirming := l.confirming - {k},
       monitorWaits := if l.monitorWaits == Some(k) then None else l.monitorWaits)
  }

  /** The dispatcher puts the job back into the queue. */
  function Reverted(l: Loop, k: nat): Loop { Resumed(l.(desk := Marked(l.desk, k, Queued)), k) }

  /** A newer command of job k has arrived, so an older one that has not never will. */
  function Overtaken(l: Loop, k: nat): Loop { l.(late := l.late[k := 0]) }

  function Accepted(l: Loop, k: nat): Loop {
    Overtaken(l, k).(starting := l.starting - {k}, confirming := l.confirming + {k}, accepted := l.accepted + [k])
  }

  function Handle(l: Loop, low: int): Loop
    requires |l.chan| > 0
  {
    var r := l.chan[0];
    var ev := Noticed(l.desk.db, l.lastKey, r);
    var rest := l.(chan := l.chan[1..], lastKey := Key(r));
    match ev
    case None => rest
    case Some(Finishes(j)) => Suspend(rest.(events := l.events + [ev.value]), FinishPiece(l.desk, j, low), true)
    case Some(Fails(j)) =>
      rest.(events := l.events + [ev.value], desk := FailPiece(l.desk, j, ""), ejecting := Some(j),
            stops := l.stops + 1)
  }

  /** The project_file of an unsettled start reaches the printer; a refusal fails the start. */
  function Arrived(l: Loop, k: nat, n: nat): Loop {
    var r := P.Received(l.printer, PrintArtifactName(k), n);
    if r.None? then Reverted(Overtaken(l, k), k) else Emit(Accepted(l, k), r.value)
  }

  /** The project_file of a start that is taken for confirmed reaches the printer. */
  function SentArrived(l: Loop, k: nat, n: nat): Loop {
    var r := P.Received(l.printer, PrintArtifactName(k), n);
    var m := Overtaken(l, k).(sent := l.sent - {k});
    if r.None? then m else Emit(m.(accepted := l.accepted + [k]), r.value)
  }

  /** The project_file of a start that was given up reaches the printer. */
  function LateArrived(l: Loop, k: nat, n: nat): Loop {
    var r := P.Received(l.printer, PrintArtifactName(k), n);
    var m := l.(late := l.late - multiset{k});
    if r.None? then m else Emit(m.(accepted := l.accepted + [k], unsure := l.unsure + {k}), r.value)
  }

  function EjectArrived(l: Loop): Loop {
    var r := P.Received(l.printer, EJECT_ARTIFACT_NAME, 4);
    var m := l.(ejects := if l.ejects > 0 then l.ejects - 1 else 0);
    if r.None? then m else Emit(m, r.value)
  }

  /** A move that is not possible in `l` changes nothing. */
  function Step(l: Loop, m: Move, low: int): Loop {
    match m
    case PrinterMoves(c) => Emit(l, P.React(l.printer, c))
    case Kick => Suspend(l, NextPiece(l.desk), false)
    case MonitorHandles => if MonitorIdle(l) && |l.chan| > 0 then Handle(l, low) else l
    case StartArrives(k, n) => if k in l.starting then Arrived(l, k, n) else l
    case StartFails(k, sent) =>
      if k !in l.starting then l
      else Reverted(if sent then l.(late := l.late + multiset{k}) else l, k)
    case StartAssumed(k, sent) =>
      if k !in l.starting then l
      else Resumed(if sent then l.(sent := l.sent + {k}) else Overtaken(l, k), k)
    case SentArrives(k, n) => if k in l.sent then SentArrived(l, k, n) else l
    case LateArrives(k, n) => if k in l.late then LateArrived(l, k, n) else l
    case StartConfirmed(k) => if k in l.confirming then Resumed(l, k) else l
    case StartTimesOut(k) => if k in l.confirming then Reverted(l, k).(unsure := l.unsure + {k}) else l
    case StopArrives => if l.stops > 0 then Emit(l.(stops := l.stops - 1), P.React(l.printer, P.Stop)) else l
    case EjectArrives => if l.ejects > 0 then EjectArrived(l) else l
    case EjectSettles(ok, sendsEject) =>
      if l.ejecting.None? then l
      else if !ok then l.(ejecting := None)
      else l.(desk := FailEjected(l.desk, l.ejecting.value, low).desk, ejecting := None,
              ejects := if sendsEject then l.ejects + 1 else l.ejects)
  }

  function Run(l: Loop, ms: seq<Move>, low: int): Loop
    decreases |ms|
  {
    if |ms| == 0 then l else Step(Run(l, ms[..|ms| - 1], low), ms[|ms| - 1], low)
  }

  /** A printer that holds no job and has reported nothing yet; the queue is arbitrary. */
  predicate Initial(l: Loop) {
    && Consistent(l.desk.db)
    && P.Subtask(l.printer) == "" && l.chan == [] && l.log == [] && l.lastKey == ""
    && l.starting == {} && l.sent == {} && l.late == multiset{} && l.confirming == {}
    && l.monitorWaits.None? && l.ejecting.None? && l.stops == 0 && l.ejects == 0
    && l.events == [] && l.accepted == [] && l.unsure == {}
  }

  function JobOf(e: Event): nat { e.job }

  /** How many calls there have been for job j. */
  function Times(events: seq<Event>, j: nat): nat
    decreases |events|
  {
    if |events| == 0 then 0 else Times(events[..|events| - 1], j) + if JobOf(events[|events| - 1]) == j then 1 else 0
  }

  function StatusOf(db: Db, j: nat): Option<Status> {
    if GetJob(db, j).Some? then Some(GetJob(db, j).value.status) else None
  }

  // ---- the invariant ----

  predicate Known(subtask: string, accepted: seq<nat>) {
    subtask == "" || subtask == EJECT_ARTIFACT_NAME || exists j :: j in accepted && subtask == PrintArtifactName(j)
  }

  predicate FinalReport(r: P.Report, j: nat) { P.Terminal(r.state) && r.subtask == PrintArtifactName(j) }

  /** A job whose print was accepted is printing until its one call, and settled afterwards. */
  predicate Settled(l: Loop, j: nat) {
    && Times(l.events, j) <= 1
    && (Times(l.events, j) == 0 ==> StatusOf(l.desk.db, j) == Some(Printing))
    && (Times(l.events, j) == 1 ==> StatusOf(l.desk.db, j) in {Some(Success), Some(Failed)})
  }

  predicate Sure(l: Loop, j: nat) { j in l.accepted && j !in l.unsure }

  /** The starts whose project_file has yet to reach the printer and that nobody has given up. */
  function Pending(l: Loop): set<nat> { l.starting + l.sent }

  predicate Waiting(l: Loop, s: nat) { StatusOf(l.desk.db, s) == Some(Printing) && s !in l.accepted }

  /** A job with a late project_file is back in the queue, or has been started again. */
  predicate GivenUp(l: Loop, s: nat) {
    s !in l.accepted &&
    (StatusOf(l.desk.db, s) == Some(Queued) || (StatusOf(l.desk.db, s) == Some(Printing) && s in Pending(l)))
  }

  /** What holds of the jobs; nothing is known of the unsure ones. */
  ghost predicate JobsSettled(l: Loop) {
    && (forall s :: s in Pending(l) && s !in l.unsure ==> Waiting(l, s))
    && (forall s :: s in l.starting && s in l.sent ==> s in l.unsure)
    && (forall s :: s in l.late && s !in l.unsure ==> GivenUp(l, s))
    && (forall s :: s in l.confirming && s !in l.unsure ==> s in l.accepted)
    && (forall j :: Sure(l, j) ==> Settled(l, j))
  }

  predicate AcceptedOnce(l: Loop) {
    forall a, b :: 0 <= a < b < |l.accepted| && l.accepted[a] == l.accepted[b] ==> l.accepted[a] in l.unsure
  }

  /** Whoever waits for a start waits for one that has yet to settle. */
  predicate WaitsForStart(l: Loop) {
    l.monitorWaits.Some? ==> l.monitorWaits.value in l.starting || l.monitorWaits.value in l.confirming
  }

  ghost predicate Inv(l: Loop) {
    && Consistent(l.desk.db)
    && JobsSettled(l)
    && WaitsForStart(l)
    && (forall j :: Times(l.events, j) > 0 ==> j in l.accepted)
    && AcceptedOnce(l)
    && ReportsKnown(l)
    && EndsHandled(l)
  }

  ghost predicate ReportsKnown(l: Loop) {
    && Known(P.Subtask(l.printer), l.accepted)
    && (forall r :: r in l.log ==> Known(r.subtask, l.accepted))
    && (forall r :: r in l.chan ==> r in l.log)
  }

  /** A reported end still waits in the channel or has had its call, and so has the one remembered last. */
  ghost predicate EndsHandled(l: Loop) {
    && (forall r, j :: r in l.log && FinalReport(r, j) && j !in l.unsure ==> r in l.chan || Times(l.events, j) == 1)
    && (forall r, j :: FinalReport(r, j) && l.lastKey == Key(r) && j !in l.unsure ==> Times(l.events, j) == 1)
  }

  // ---- what the pieces do to the statuses ----

  lemma MarkedStatus(d: Desk, id: nat, s: Status, x: nat)
    ensures StatusOf(Marked(d, id, s).db, x)
         == if x == id && StatusOf(d.db, x).Some? then Some(s) else StatusOf(d.db, x)
  {
    FindUpdate(d.db.jobs, id, SetStatus(s, None), x);
  }

  lemma NextStatus(d: Desk, x: nat)
    requires Consistent(d.db)
    ensures var c := NextPiece(d);
            && StatusOf(c.desk.db, x) == (if c.start == Some(x) then Some(Printing) else StatusOf(d.db, x))
            && (c.start.Some? ==> NoneStatus(d.db, Printing) && StatusOf(d.db, c.start.value) == Some(Queued))
  {
    hide Consistent, Sort, Filter, Find, Update;
    if NextPiece(d).start.Some? {
      HeadQueued(d.db);
      MarkedStatus(d, Choose(d.db).job, Printing, x);
      MarkedStatus(d, Choose(d.db).job, Printing, Choose(d.db).job);
    }
  }

  lemma HeadQueued(db: Db)
    requires Consistent(db) && |Eligible(db)| > 0
    ensures StatusOf(db, Eligible(db)[0].id) == Some(Queued)
  {
    FilterMembers(ListJobs(db), CanStart(db.pending));
    SortMembers(db.jobs);
    assert Eligible(db)[0] in Eligible(db);
    I.FindRow(db, Eligible(db)[0]);
  }

  lemma PrintingExists(db: Db, x: nat)
    requires StatusOf(db, x) == Some(Printing)
    ensures !NoneStatus(db, Printing)
  {
    assert GetJob(db, x).value in db.jobs;
  }

  lemma {:induction false} PropagatedStatus(db: Db, rows: seq<JobRow>, project: nat, slot: int, color: string, x: nat)
    ensures StatusOf(Propagated(db, rows, project, slot, color), x) == StatusOf(db, x)
    decreases |rows|
  {
    if |rows| > 0 {
      PropagatedStatus(db, rows[..|rows| - 1], project, slot, color, x);
      FindUpdate(Propagated(db, rows[..|rows| - 1], project, slot, color).jobs, rows[|rows| - 1].id,
                 SetSubstitution(slot, color), x);
    }
  }

  lemma FinishedBeforeNextStatus(d: Desk, id: nat, low: int, x: nat)
    ensures StatusOf(I.FinishedBeforeNext(d, id, low).db, x)
         == if x == id && StatusOf(d.db, x).Some? then Some(Success) else StatusOf(d.db, x)
  {
    hide Find, Update, Propagated, Sort, Filter;
    MarkedStatus(d, id, Success, x);
    var job, s := GetJob(d.db, id), Swapped(Marked(d, id, Success), low);
    if s.Some? && job.Some? && job.value.substitutedColor.Some? && job.value.substitutedSlot.Some?
        && job.value.project.Some? {
      PropagatedStatus(s.value.db, ListByStatus(s.value.db, Queued), job.value.project.value,
                       job.value.substitutedSlot.value, job.value.substitutedColor.value, x);
    }
  }

  lemma FinishStatus(d: Desk, id: nat, low: int, x: nat)
    requires Consistent(d.db) && StatusOf(d.db, id) == Some(Printing)
    ensures var c := FinishPiece(d, id, low);
            && Consistent(c.desk.db)
            && StatusOf(c.desk.db, x)
               == (if c.start == Some(x) then Some(Printing) else if x == id then Some(Success) else StatusOf(d.db, x))
            && (c.start.Some? ==> StatusOf(d.db, c.start.value) == Some(Queued))
            && (c.start.Some? && x != id ==> StatusOf(d.db, x) != Some(Printing))
  {
    hide Consistent, NextPiece, ColorApplied, StatusOf, NoneStatus;
    var b := I.FinishedBeforeNext(d, id, low);
    I.FinishedConsistent(d, id, low);
    I.NextKeepsConsistent(b);
    FinishedBeforeNextStatus(d, id, low, x);
    NextStatus(b, x);
    if Swapped(Marked(d, id, Success), low).Some? && NextPiece(b).start.Some? {
      FinishedBeforeNextStatus(d, id, low, NextPiece(b).start.value);
      if x != id && StatusOf(d.db, x) == Some(Printing) { PrintingExists(b.db, x); }
    }
  }

  lemma FailStatus(d: Desk, id: nat, x: nat)
    requires Consistent(d.db) && StatusOf(d.db, id) == Some(Printing)
    ensures Consistent(FailPiece(d, id, "").db)
    ensures StatusOf(FailPiece(d, id, "").db, x) == if x == id then Some(Failed) else StatusOf(d.db, x)
  {
    hide Consistent, Update;
    I.FailConsistent(d, id, "");
    FindUpdate(d.db.jobs, id, SetStatus(Failed, Some("")), x);
    FindUpdate(Update(d.db.jobs, id, SetStatus(Failed, Some(""))), id, BumpAttempts, x);
  }

  lemma EjectedStatus(d: Desk, id: nat, low: int, x: nat)
    requires Consistent(d.db)
    ensures Consistent(FailEjected(d, id, low).desk.db)
    ensures StatusOf(FailEjected(d, id, low).desk.db, x) == StatusOf(d.db, x)
  {
    hide Consistent;
    I.FailEjectedConsistent(d, id, low);
    I.FailEjectedJobs(d, id, low);
  }

  // ---- every move keeps the invariant ----

  lemma TimesAppend(events: seq<Event>, e: Event, j: nat)
    ensures Times(events + [e], j) == Times(events, j) + if JobOf(e) == j then 1 else 0
  {
    assert (events + [e])[..|events|] == events;
  }

  lemma NameInjective(i: nat, j: nat)
    ensures PrintArtifactName(i) == PrintArtifactName(j) <==> i == j
    ensures PrintArtifactName(i) != "" && PrintArtifactName(i) != EJECT_ARTIFACT_NAME
  {
    AttributionIsInjective(i, j);
    AttributionIsInjective(j, j);
    AttributionIsInjective(i, i);
    OtherArtifactsUnattributed(i);
    EmptyIncludesNothing(i);
  }

  /** Emitting reports about known subtasks keeps the report invariants. */
  lemma EmitKeeps(l: Loop, r: P.Reaction)
    requires ReportsKnown(l) && EndsHandled(l)
    requires Known(P.Subtask(r.printer), l.accepted) && forall x :: x in r.reports ==> Known(x.subtask, l.accepted)
    ensures ReportsKnown(Emit(l, r)) && EndsHandled(Emit(l, r))
  {
  }

  lemma CommandKeeps(l: Loop, c: P.Command)
    requires ReportsKnown(l) && EndsHandled(l)
    ensures ReportsKnown(Emit(l, P.React(l.printer, c))) && EndsHandled(Emit(l, P.React(l.printer, c)))
  {
    hide ReportsKnown, EndsHandled;
    P.ReportsOwnJob(l.printer, c);
    assert Known(P.Subtask(l.printer), l.accepted) by { PrinterKnown(l); }
    EmitKeeps(l, P.React(l.printer, c));
  }

  lemma PrinterKnown(l: Loop)
    requires ReportsKnown(l)
    ensures Known(P.Subtask(l.printer), l.accepted)
  {
  }

  lemma KickKeeps(l: Loop)
    requires Inv(l)
    ensures Inv(Suspend(l, NextPiece(l.desk), false))
  {
    hide Consistent, NextPiece, StatusOf, NoneStatus, ReportsKnown, EndsHandled, AcceptedOnce;
    var c := NextPiece(l.desk);
    var m := Suspend(l, c, false);
    I.NextKeepsConsistent(l.desk);
    if c.start.Some? { NextStatus(l.desk, c.start.value); }
    forall j | Sure(m, j) ensures Settled(m, j) {
      assert Sure(l, j);
      NextStatus(l.desk, j);
    }
    forall s | s in Pending(m) && s !in m.unsure ensures Waiting(m, s) {
      NextStatus(l.desk, s);
      assert s in l.accepted ==> Sure(l, s) && Settled(l, s);
    }
    forall s | s in m.late && s !in m.unsure ensures GivenUp(m, s) { NextStatus(l.desk, s); }
    SameReports(l, m);
  }

  /** The report invariants look at the reports, the accepted jobs and the calls only. */
  lemma SameReports(l: Loop, m: Loop)
    requires ReportsKnown(l) && EndsHandled(l) && AcceptedOnce(l)
    requires m.printer == l.printer && m.chan == l.chan && m.log == l.log && m.lastKey == l.lastKey
    requires m.events == l.events && m.accepted == l.accepted && l.unsure <= m.unsure
    ensures ReportsKnown(m) && EndsHandled(m) && AcceptedOnce(m)
  {
  }

  /** The job invariants look at the store, the starts and the calls only. */
  lemma SameJobs(l: Loop, m: Loop)
    requires JobsSettled(l) && m.desk == l.desk && m.events == l.events && m.accepted == l.accepted
             && m.unsure == l.unsure
    requires m.starting == l.starting && m.sent == l.sent && m.confirming == l.confirming
    requires forall s :: s in m.late ==> s in l.late
    ensures JobsSettled(m)
  {
    hide StatusOf, Times;
    forall j | Sure(m, j) ensures Settled(m, j) { assert Sure(l, j) && Settled(l, j); }
    forall s | s in m.late && s !in m.unsure ensures GivenUp(m, s) { assert GivenUp(l, s); }
    forall s | s in Pending(m) && s !in m.unsure ensures Waiting(m, s) { assert Waiting(l, s); }
  }

  /** A start that is given up: its job goes back into the queue, and every other one stays as it is. */
  lemma RevertKeeps(l: Loop, k: nat, late: multiset<nat>, unsure: set<nat>)
    requires Inv(l) && l.unsure <= unsure && (k in l.starting || k in unsure)
    requires forall s :: s in late ==> s in l.late || s == k
    ensures Inv(Reverted(l.(late := late), k).(unsure := unsure))
  {
    hide Consistent, StatusOf, ReportsKnown, EndsHandled, AcceptedOnce, Times;
    var m := Reverted(l.(late := late), k).(unsure := unsure);
    PatchConsistent(l.desk.db, k, SetStatus(Queued, None));
    forall j | Sure(m, j) ensures Settled(m, j) {
      assert Sure(l, j) && Settled(l, j);
      assert k in l.starting && k !in l.unsure ==> Waiting(l, k);
      MarkedStatus(l.desk, k, Queued, j);
    }
    forall s | s in Pending(m) && s !in m.unsure ensures Waiting(m, s) {
      assert Waiting(l, s);
      MarkedStatus(l.desk, k, Queued, s);
    }
    forall s | s in m.late && s !in m.unsure ensures GivenUp(m, s) {
      assert if s == k then Waiting(l, s) else GivenUp(l, s);
      MarkedStatus(l.desk, k, Queued, s);
    }
    SameReports(l, m);
  }

  /** A start that settles well; it may still have its project_file on the way. */
  lemma ResumeKeeps(l: Loop, k: nat, sent: set<nat>)
    requires Inv(l) && l.sent <= sent <= l.sent + {k} && (k in sent ==> k in l.sent || k in l.starting)
    requires k in l.starting && k in l.late && k !in l.unsure ==> k in sent
    ensures Inv(Resumed(l.(sent := sent), k))
  {
    hide Consistent, StatusOf, ReportsKnown, EndsHandled, AcceptedOnce, Times;
    var m := Resumed(l.(sent := sent), k);
    forall j | Sure(m, j) ensures Settled(m, j) { assert Sure(l, j) && Settled(l, j); }
    forall s | s in Pending(m) && s !in m.unsure ensures Waiting(m, s) { assert Waiting(l, s); }
    forall s | s in m.late && s !in m.unsure ensures GivenUp(m, s) { assert GivenUp(l, s); }
    SameReports(l, m);
  }

  /** Fewer late project_files. */
  lemma DropKeeps(l: Loop, late: multiset<nat>)
    requires Inv(l) && forall s :: s in late ==> s in l.late
    ensures Inv(l.(late := late))
  {
    hide Consistent, JobsSettled, ReportsKnown, EndsHandled, AcceptedOnce, Times;
    SameJobs(l, l.(late := late));
    SameReports(l, l.(late := late));
  }

  lemma KnownGrows(t: string, accepted: seq<nat>, k: nat)
    requires Known(t, accepted)
    ensures Known(t, accepted + [k])
  {
    hide PrintArtifactName;
    if t != "" && t != EJECT_ARTIFACT_NAME {
      var j :| j in accepted && t == PrintArtifactName(j);
      assert j in accepted + [k];
    }
  }

  /** What changes when the printer takes the project_file of job k. */
  predicate Takes(l: Loop, m: Loop, k: nat) {
    && m.accepted == l.accepted + [k] && l.unsure <= m.unsure <= l.unsure + {k}
    && m.desk == l.desk && m.events == l.events && m.lastKey == l.lastKey
    && m.printer == l.printer && m.chan == l.chan && m.log == l.log
    && Pending(m) <= Pending(l) && (forall s :: s in m.late ==> s in l.late)
    && m.confirming <= l.confirming + {k} && m.starting <= l.starting && m.sent <= l.sent
    && (k !in m.unsure ==> k in Pending(l) && k !in Pending(m) && k !in m.late)
    && (forall s :: s in Pending(l) && s !in Pending(m) ==> s == k)
  }

  lemma TakeKeeps(l: Loop, m: Loop, k: nat, r: P.Reaction)
    requires Inv(l) && Takes(l, m, k) && WaitsForStart(m)
    requires P.Subtask(r.printer) == PrintArtifactName(k)
    requires forall x :: x in r.reports ==> x.subtask == PrintArtifactName(k)
    ensures Inv(Emit(m, r))
  {
    hide Consistent, StatusOf, PrintArtifactName;
    TakeKeepsReports(l, m, k, r);
    TakeKeepsJobs(l, m, k);
    hide ReportsKnown, EndsHandled, Times;
    SettledElsewhere(m, Emit(m, r));
  }

  lemma TakeKeepsReports(l: Loop, m: Loop, k: nat, r: P.Reaction)
    requires Inv(l) && Takes(l, m, k)
    requires P.Subtask(r.printer) == PrintArtifactName(k)
    requires forall x :: x in r.reports ==> x.subtask == PrintArtifactName(k)
    ensures ReportsKnown(Emit(m, r)) && EndsHandled(Emit(m, r))
  {
    hide Consistent, JobsSettled, StatusOf, PrintArtifactName, Times, AcceptedOnce, Pending;
    assert k in m.accepted;
    forall t | Known(t, l.accepted) ensures Known(t, m.accepted) { KnownGrows(t, l.accepted, k); }
    assert ReportsKnown(m) && EndsHandled(m);
    EmitKeeps(m, r);
  }

  lemma TakeKeepsJobs(l: Loop, m: Loop, k: nat)
    requires Inv(l) && Takes(l, m, k)
    ensures JobsSettled(m) && AcceptedOnce(m) && forall j :: Times(m.events, j) > 0 ==> j in m.accepted
  {
    hide Consistent, StatusOf, ReportsKnown, EndsHandled, Times, Pending;
    assert forall j :: j in m.accepted <==> j in l.accepted || j == k;
    assert k in Pending(l) && k !in m.unsure ==> Waiting(l, k);
    forall j | Sure(m, j) ensures Settled(m, j) { assert j in l.accepted ==> Sure(l, j) && Settled(l, j); }
    forall s | s in Pending(m) && s !in m.unsure ensures Waiting(m, s) { assert Waiting(l, s); }
    forall s | s in m.late && s !in m.unsure ensures GivenUp(m, s) { assert GivenUp(l, s); }
  }

  lemma EjectKeeps(l: Loop, low: int, ejects: nat)
    requires Inv(l) && l.ejecting.Some?
    ensures Inv(l.(desk := FailEjected(l.desk, l.ejecting.value, low).desk, ejecting := None, ejects := ejects))
  {
    hide Consistent, StatusOf, ReportsKnown, EndsHandled, AcceptedOnce, FailEjected, Times;
    var m := l.(desk := FailEjected(l.desk, l.ejecting.value, low).desk, ejecting := None, ejects := ejects);
    EjectedStatus(l.desk, l.ejecting.value, low, 0);
    forall j | Sure(m, j) ensures Settled(m, j) {
      assert Sure(l, j) && Settled(l, j);
      EjectedStatus(l.desk, l.ejecting.value, low, j);
    }
    forall s | s in Pending(m) && s !in m.unsure ensures Waiting(m, s) {
      assert Waiting(l, s);
      EjectedStatus(l.desk, l.ejecting.value, low, s);
    }
    forall s | s in m.late && s !in m.unsure ensures GivenUp(m, s) {
      assert GivenUp(l, s);
      EjectedStatus(l.desk, l.ejecting.value, low, s);
    }
    SameReports(l, m);
  }

  /** What the monitor notices: an event only for the printing job that the report names; without one, a
      named job whose start was not given up has had its call already. */
  lemma NoticedOwnJob(l: Loop, r: P.Report)
    requires Inv(l) && r in l.chan
    ensures var ev := Noticed(l.desk.db, l.lastKey, r);
            && (ev.Some? ==> FinalReport(r, ev.value.job) && ev.value.job in l.accepted
                             && StatusOf(l.desk.db, ev.value.job) == Some(Printing)
                             && (ev.value.Finishes? <==> r.state == P.Finish))
            && (ev.None? ==> forall j :: FinalReport(r, j) && j !in l.unsure ==> Times(l.events, j) == 1)
  {
    hide Consistent, CurrentJob, PrintArtifactName, Key;
    assert r in l.log && Known(r.subtask, l.accepted);
    if r.subtask == "" || r.subtask == EJECT_ARTIFACT_NAME {
      ForeignReport(l.desk.db, r.subtask);
      forall j ensures !FinalReport(r, j) { NameInjective(j, j); }
    } else {
      var i :| i in l.accepted && r.subtask == PrintArtifactName(i);
      OwnReport(l.desk.db, i);
      assert Sure(l, i) ==> Settled(l, i);
      forall j | FinalReport(r, j) ensures j == i { NameInjective(i, j); }
    }
  }

  lemma HandleKeepsReports(l: Loop, events: seq<Event>)
    requires Inv(l) && |l.chan| > 0
    requires forall j :: Sure(l, j) ==> Times(l.events, j) <= Times(events, j) <= 1
    requires forall j :: FinalReport(l.chan[0], j) && j !in l.unsure ==> Times(events, j) == 1
    ensures var m := l.(chan := l.chan[1..], lastKey := Key(l.chan[0]), events := events);
            ReportsKnown(m) && EndsHandled(m)
  {
    hide Consistent, JobsSettled, AcceptedOnce, PrintArtifactName, StatusOf, Times;
    var m := l.(chan := l.chan[1..], lastKey := Key(l.chan[0]), events := events);
    assert l.chan == [l.chan[0]] + m.chan;
    forall r, j | r in m.log && FinalReport(r, j) && j !in l.unsure ensures r in m.chan || Times(m.events, j) == 1 {
      assert r in l.chan ==> r == l.chan[0] || r in m.chan;
      assert Sure(l, j) by { FinalIsAccepted(l, r, j); }
    }
    forall r, j | FinalReport(r, j) && m.lastKey == Key(r) && j !in l.unsure ensures Times(m.events, j) == 1 {
      KeyInjective(r, l.chan[0]);
    }
  }

  lemma FinalIsAccepted(l: Loop, r: P.Report, j: nat)
    requires ReportsKnown(l) && r in l.log && FinalReport(r, j)
    ensures j in l.accepted
  {
    hide PrintArtifactName;
    NameInjective(j, j);
    var i :| i in l.accepted && r.subtask == PrintArtifactName(i);
    NameInjective(i, j);
  }

  lemma HandleKeeps(l: Loop, low: int)
    requires Inv(l) && |l.chan| > 0
    ensures Inv(Handle(l, low))
  {
    hide Consistent, StatusOf, Noticed, Known, FinishPiece, FailPiece, ReportsKnown, EndsHandled, AcceptedOnce,
         PrintArtifactName, Key, Times, P.React;
    var r := l.chan[0];
    var ev := Noticed(l.desk.db, l.lastKey, r);
    NoticedOwnJob(l, r);
    var events := if ev.Some? then l.events + [ev.value] else l.events;
    CallCounted(l, r, ev, events);
    HandleKeepsReports(l, events);
    var rest := l.(chan := l.chan[1..], lastKey := Key(r), events := events);
    assert AcceptedOnce(rest) by { SameAccepted(l, rest); }
    if ev.None? {
      SameJobs(l, rest);
    } else if ev.value.Finishes? {
      FinishKeeps(l, rest, ev.value.job, low);
    } else {
      FailKeeps(l, rest, ev.value.job);
    }
  }

  lemma SameAccepted(l: Loop, m: Loop)
    requires AcceptedOnce(l) && m.accepted == l.accepted && m.unsure == l.unsure
    ensures AcceptedOnce(m)
  {
  }

  /** The call that a report causes is the first one for its job. */
  lemma CallCounted(l: Loop, r: P.Report, ev: Option<Event>, events: seq<Event>)
    requires Inv(l) && events == if ev.Some? then l.events + [ev.value] else l.events
    requires ev.Some? ==> FinalReport(r, ev.value.job) && StatusOf(l.desk.db, ev.value.job) == Some(Printing)
    requires ev.None? ==> forall j :: FinalReport(r, j) && j !in l.unsure ==> Times(l.events, j) == 1
    ensures forall j :: Times(events, j) == Times(l.events, j) + if ev.Some? && j == ev.value.job then 1 else 0
    ensures forall j :: Sure(l, j) ==> Times(l.events, j) <= Times(events, j) <= 1
    ensures ev.Some? && ev.value.job in l.accepted ==>
              forall j :: FinalReport(r, j) && j !in l.unsure ==> Times(events, j) == 1
    ensures ev.None? ==> forall j :: FinalReport(r, j) && j !in l.unsure ==> Times(events, j) == 1
  {
    hide Consistent, StatusOf, ReportsKnown, EndsHandled, AcceptedOnce, PrintArtifactName, Times;
    forall j ensures Times(events, j) == Times(l.events, j) + if ev.Some? && j == ev.value.job then 1 else 0 {
      if ev.Some? { TimesAppend(l.events, ev.value, j); }
    }
    forall j | Sure(l, j) ensures Times(l.events, j) <= Times(events, j) <= 1 { assert Settled(l, j); }
    if ev.Some? && ev.value.job in l.accepted {
      forall j | FinalReport(r, j) && j !in l.unsure ensures Times(events, j) == 1 {
        NameInjective(ev.value.job, j);
        assert Sure(l, j) && Settled(l, j);
      }
    }
  }

  /** The effect of a finish on the job invariants, once the report invariants are known. */
  lemma FinishKeeps(l: Loop, rest: Loop, id: nat, low: int)
    requires Inv(l) && id in l.accepted && StatusOf(l.desk.db, id) == Some(Printing)
    requires rest == l.(chan := rest.chan, lastKey := rest.lastKey, events := rest.events)
    requires forall j :: Times(rest.events, j) == Times(l.events, j) + if j == id then 1 else 0
    requires ReportsKnown(rest) && EndsHandled(rest) && AcceptedOnce(rest)
    ensures Inv(Suspend(rest, FinishPiece(l.desk, id, low), true))
  {
    hide Consistent, StatusOf, ReportsKnown, EndsHandled, AcceptedOnce, FinishPiece, Times;
    var c := FinishPiece(l.desk, id, low);
    var m := Suspend(rest, c, true);
    FinishStatus(l.desk, id, low, id);
    if c.start.Some? { FinishStatus(l.desk, id, low, c.start.value); }
    forall j | Sure(m, j) ensures Settled(m, j) {
      assert Sure(l, j) && Settled(l, j);
      FinishStatus(l.desk, id, low, j);
    }
    forall s | s in Pending(m) && s !in m.unsure ensures Waiting(m, s) {
      FinishStatus(l.desk, id, low, s);
      assert s in l.accepted ==> Sure(l, s) && Settled(l, s);
    }
    forall s | s in m.late && s !in m.unsure ensures GivenUp(m, s) {
      assert GivenUp(l, s);
      FinishStatus(l.desk, id, low, s);
    }
    SameReports(rest, m);
  }

  lemma FailKeeps(l: Loop, rest: Loop, id: nat)
    requires Inv(l) && id in l.accepted && StatusOf(l.desk.db, id) == Some(Printing)
    requires rest == l.(chan := rest.chan, lastKey := rest.lastKey, events := rest.events)
    requires forall j :: Times(rest.events, j) == Times(l.events, j) + if j == id then 1 else 0
    requires ReportsKnown(rest) && EndsHandled(rest) && AcceptedOnce(rest)
    ensures Inv(rest.(desk := FailPiece(l.desk, id, ""), ejecting := Some(id), stops := l.stops + 1))
  {
    hide Consistent, StatusOf, ReportsKnown, EndsHandled, AcceptedOnce, FailPiece, Times;
    FailStatus(l.desk, id, id);
    var m := rest.(desk := FailPiece(l.desk, id, ""), ejecting := Some(id), stops := l.stops + 1);
    forall j | Sure(m, j) ensures Settled(m, j) {
      assert Sure(l, j) && Settled(l, j);
      FailStatus(l.desk, id, j);
    }
    forall s | s in Pending(m) && s !in m.unsure ensures Waiting(m, s) {
      assert Waiting(l, s);
      FailStatus(l.desk, id, s);
    }
    forall s | s in m.late && s !in m.unsure ensures GivenUp(m, s) {
      assert GivenUp(l, s);
      FailStatus(l.desk, id, s);
    }
    SameReports(rest, m);
  }

  lemma ArriveKeeps(l: Loop, k: nat, n: nat)
    requires Inv(l) && k in l.starting
    ensures Inv(Arrived(l, k, n))
  {
    hide Consistent, JobsSettled, ReportsKnown, EndsHandled, AcceptedOnce, Times, Marked, P.Received, PrintArtifactName;
    var r := P.Received(l.printer, PrintArtifactName(k), n);
    if r.None? {
      RevertKeeps(l, k, l.late[k := 0], l.unsure);
    } else {
      P.ReceivedReportsOwnJob(l.printer, PrintArtifactName(k), n);
      NotBoth(l, k);
      TakeKeeps(l, Accepted(l, k), k, r.value);
    }
  }

  lemma NotBoth(l: Loop, k: nat)
    requires JobsSettled(l)
    ensures k in l.starting && k in l.sent ==> k in l.unsure
    ensures k in l.late && k !in l.unsure ==> k !in l.accepted
  {
  }

  lemma SentArriveKeeps(l: Loop, k: nat, n: nat)
    requires Inv(l) && k in l.sent
    ensures Inv(SentArrived(l, k, n))
  {
    hide Consistent, JobsSettled, ReportsKnown, EndsHandled, AcceptedOnce, Times, P.Received, PrintArtifactName;
    var r := P.Received(l.printer, PrintArtifactName(k), n);
    var m := Overtaken(l, k).(sent := l.sent - {k});
    NotBoth(l, k);
    if r.None? {
      RefusedKeeps(l, m, k);
    } else {
      P.ReceivedReportsOwnJob(l.printer, PrintArtifactName(k), n);
      TakeKeeps(l, m.(accepted := l.accepted + [k]), k, r.value);
    }
  }

  /** A job whose project_file was refused unnoticed stays as it is. */
  lemma RefusedKeeps(l: Loop, m: Loop, k: nat)
    requires Inv(l) && m == Overtaken(l, k).(sent := l.sent - {k})
    ensures Inv(m)
  {
    hide Consistent, StatusOf, ReportsKnown, EndsHandled, AcceptedOnce, Times;
    forall j | Sure(m, j) ensures Settled(m, j) { assert Sure(l, j) && Settled(l, j); }
    forall s | s in Pending(m) && s !in m.unsure ensures Waiting(m, s) { assert Waiting(l, s); }
    forall s | s in m.late && s !in m.unsure ensures GivenUp(m, s) { assert GivenUp(l, s); }
    SameReports(l, m);
  }

  lemma LateArriveKeeps(l: Loop, k: nat, n: nat)
    requires Inv(l) && k in l.late
    ensures Inv(LateArrived(l, k, n))
  {
    hide Consistent, JobsSettled, ReportsKnown, EndsHandled, AcceptedOnce, Times, P.Received, PrintArtifactName;
    var r := P.Received(l.printer, PrintArtifactName(k), n);
    var m := l.(late := l.late - multiset{k});
    if r.None? {
      DropKeeps(l, m.late);
    } else {
      P.ReceivedReportsOwnJob(l.printer, PrintArtifactName(k), n);
      TakeKeeps(l, m.(accepted := l.accepted + [k], unsure := l.unsure + {k}), k, r.value);
    }
  }

  lemma EjectArriveKeeps(l: Loop)
    requires Inv(l)
    ensures Inv(EjectArrived(l))
  {
    hide Consistent, JobsSettled, ReportsKnown, EndsHandled, AcceptedOnce, Times, P.Received;
    var r := P.Received(l.printer, EJECT_ARTIFACT_NAME, 4);
    var m := l.(ejects := if l.ejects > 0 then l.ejects - 1 else 0);
    SameReports(l, m);
    if r.None? {
      SettledElsewhere(l, m);
    } else {
      P.ReceivedReportsOwnJob(l.printer, EJECT_ARTIFACT_NAME, 4);
      EjectPrintKeeps(m, r.value);
      SettledElsewhere(l, Emit(m, r.value));
    }
  }

  lemma CommandKeepsAll(l: Loop, c: P.Command, stops: nat)
    requires Inv(l)
    ensures Inv(Emit(l.(stops := stops), P.React(l.printer, c)))
  {
    hide Consistent, JobsSettled, ReportsKnown, EndsHandled, AcceptedOnce, Times, P.React;
    var m := l.(stops := stops);
    SameReports(l, m);
    CommandKeeps(m, c);
    SettledElsewhere(l, Emit(m, P.React(l.printer, c)));
  }

  lemma SettleKeeps(l: Loop, m: Move, low: int)
    requires Inv(l) && (m.StartFails? || m.StartAssumed? || m.StartConfirmed? || m.StartTimesOut? || m.EjectSettles?)
    ensures Inv(Step(l, m, low))
  {
    hide Consistent, Times, AcceptedOnce, ReportsKnown, EndsHandled, FailEjected, Marked, StatusOf;
    match m
    case StartFails(k, sent) =>
      if k in l.starting { RevertKeeps(l, k, if sent then l.late + multiset{k} else l.late, l.unsure); }
    case StartAssumed(k, sent) =>
      if k in l.starting {
        if sent {
          ResumeKeeps(l, k, l.sent + {k});
        } else {
          DropKeeps(l, l.late[k := 0]);
          ResumeKeeps(l.(late := l.late[k := 0]), k, l.sent);
        }
      }
    case StartConfirmed(k) =>
      if k in l.confirming {
        if k !in l.unsure { ConfirmedIsTaken(l, k); }
        ResumeKeeps(l, k, l.sent);
      }
    case StartTimesOut(k) => if k in l.confirming { RevertKeeps(l, k, l.late, l.unsure + {k}); }
    case EjectSettles(ok, sendsEject) =>
      if l.ejecting.Some? {
        EjectOver(l);
        EjectKeeps(l, low, if sendsEject then l.ejects + 1 else l.ejects);
      }
  }

  lemma ConfirmedIsTaken(l: Loop, k: nat)
    requires JobsSettled(l) && k in l.confirming && k !in l.unsure
    ensures k in l.accepted && k !in l.starting && k !in l.late
  {
  }

  /** Every move keeps the invariant. */
  lemma StepKeeps(l: Loop, m: Move, low: int)
    requires Inv(l)
    ensures Inv(Step(l, m, low))
  {
    hide Inv, Handle, NextPiece, P.React, P.Received, Arrived, SentArrived, LateArrived, EjectArrived, FailEjected,
         Marked;
    match m
    case PrinterMoves(c) => CommandKeepsAll(l, c, l.stops);
    case Kick => KickKeeps(l);
    case MonitorHandles => if |l.chan| > 0 { HandleKeeps(l, low); }
    case StartArrives(k, n) => if k in l.starting { ArriveKeeps(l, k, n); }
    case SentArrives(k, n) => if k in l.sent { SentArriveKeeps(l, k, n); }
    case LateArrives(k, n) => if k in l.late { LateArriveKeeps(l, k, n); }
    case StopArrives => if l.stops > 0 { CommandKeepsAll(l, P.Stop, l.stops - 1); }
    case EjectArrives => EjectArriveKeeps(l);
    case _ => SettleKeeps(l, m, low);
  }

  lemma EjectPrintKeeps(l: Loop, r: P.Reaction)
    requires ReportsKnown(l) && EndsHandled(l)
    requires P.Subtask(r.printer) == EJECT_ARTIFACT_NAME
    requires forall x :: x in r.reports ==> x.subtask == EJECT_ARTIFACT_NAME
    ensures ReportsKnown(Emit(l, r)) && EndsHandled(Emit(l, r))
  {
    EmitKeeps(l, r);
  }

  lemma EjectOver(l: Loop)
    requires Inv(l)
    ensures Inv(l.(ejecting := None))
  {
    hide Consistent, JobsSettled, ReportsKnown, EndsHandled, AcceptedOnce, Times;
    SameJobs(l, l.(ejecting := None));
    SameReports(l, l.(ejecting := None));
  }

  /** The job invariants do not look at the printer, the channel, the stops or the ejects. */
  lemma SettledElsewhere(l: Loop, m: Loop)
    requires Consistent(l.desk.db) && JobsSettled(l) && AcceptedOnce(l) && WaitsForStart(l)
    requires forall j :: Times(l.events, j) > 0 ==> j in l.accepted
    requires m == l.(printer := m.printer, chan := m.chan, log := m.log, stops := m.stops, ejects := m.ejects)
    requires ReportsKnown(m) && EndsHandled(m)
    ensures Inv(m)
  {
    hide Consistent, JobsSettled, ReportsKnown, EndsHandled, AcceptedOnce, Times;
    SameJobs(l, m);
    SameAccepted(l, m);
  }

  // ---- exactly once ----

  lemma {:induction false} RunKeeps(l: Loop, ms: seq<Move>, low: int)
    requires Inv(l)
    ensures Inv(Run(l, ms, low))
    decreases |ms|
  {
    hide Inv, Step;
    if |ms| > 0 {
      RunKeeps(l, ms[..|ms| - 1], low);
      StepKeeps(Run(l, ms[..|ms| - 1], low), ms[|ms| - 1], low);
    }
  }

  lemma InitialInv(l: Loop)
    requires Initial(l)
    ensures Inv(l)
  {
    forall r ensures Key(r) != l.lastKey { KeyInjective(r, r); }
  }

  /** What is promised of job j: it is accepted at most once, printing until its call and settled afterwards,
      called for at most once and only after it was accepted, and exactly once when a final state of it has
      been reported and the reports are worked off. */
  ghost predicate Tracked(l: Loop, j: nat) {
    && (forall a, b :: 0 <= a < b < |l.accepted| && l.accepted[a] == j ==> l.accepted[b] != j)
    && (j in l.accepted ==> Settled(l, j))
    && Times(l.events, j) <= 1
    && (Times(l.events, j) > 0 ==> j in l.accepted)
    && ((exists r :: r in l.log && FinalReport(r, j)) && l.chan == [] ==> Times(l.events, j) == 1)
  }

  lemma SureIsTracked(l: Loop, j: nat)
    requires Inv(l) && j !in l.unsure
    ensures Tracked(l, j)
  {
    hide Consistent, Key, PrintArtifactName, StatusOf, P.Terminal;
    assert j in l.accepted ==> Sure(l, j) && Settled(l, j);
  }

  /** Over every schedule, a job of which the printer took no start that was given up is tracked, whatever
      happens to the other jobs. */
  lemma ExactlyOnce(l: Loop, ms: seq<Move>, low: int, j: nat)
    requires Initial(l) && j !in Run(l, ms, low).unsure
    ensures Tracked(Run(l, ms, low), j)
  {
    hide Run, Initial, Inv, Tracked;
    InitialInv(l);
    RunKeeps(l, ms, low);
    SureIsTracked(Run(l, ms, low), j);
  }

  // ---- the exception is exact ----

  /** Move m makes the printer take, or have taken, a start of j that was given up. */
  predicate TakesGivenUp(l: Loop, m: Move, j: nat) {
    || (m == StartTimesOut(j) && j in l.confirming)
    || (m.LateArrives? && m.job == j && j in l.late
        && P.Received(l.printer, PrintArtifactName(j), m.mappingLength).Some?)
  }

  /** A job becomes unsure by such a move and by no other, and stays so. */
  lemma UnsureExactly(l: Loop, m: Move, low: int, j: nat)
    ensures j in Step(l, m, low).unsure <==> j in l.unsure || TakesGivenUp(l, m, j)
  {
    hide NextPiece, FinishPiece, FailPiece, FailEjected, Marked, P.React, P.Received, Noticed, Key, PrintArtifactName;
  }

  /** No start of j that was given up is taken in these moves. */
  predicate NoneGivenUp(ms: seq<Move>, j: nat) {
    forall i :: 0 <= i < |ms| ==> ms[i] != StartTimesOut(j) && !(ms[i].LateArrives? && ms[i].job == j)
  }

  lemma {:induction false} UnsureGrows(l: Loop, ms: seq<Move>, low: int, j: nat, k: nat)
    requires k <= |ms| && j in Run(l, ms[..k], low).unsure
    ensures j in Run(l, ms, low).unsure
    decreases |ms| - k
  {
    if k == |ms| {
      assert ms[..k] == ms;
    } else {
      RunOneMore(l, ms, low, k);
      UnsureExactly(Run(l, ms[..k], low), ms[k], low, j);
      UnsureGrows(l, ms, low, j, k + 1);
    }
  }

  lemma {:induction false} StaysSure(l: Loop, ms: seq<Move>, low: int, j: nat)
    requires j !in l.unsure && NoneGivenUp(ms, j)
    ensures j !in Run(l, ms, low).unsure
    decreases |ms|
  {
    if |ms| > 0 {
      StaysSure(l, ms[..|ms| - 1], low, j);
      UnsureExactly(Run(l, ms[..|ms| - 1], low), ms[|ms| - 1], low, j);
      hide Step, P.Received, PrintArtifactName;
    }
  }

  /** The first step at which j becomes unsure. */
  lemma {:induction false} FirstUnsure(l: Loop, ms: seq<Move>, low: int, j: nat) returns (k: nat)
    requires j !in l.unsure && j in Run(l, ms, low).unsure
    ensures k < |ms| && j !in Run(l, ms[..k], low).unsure && j in Run(l, ms[..k + 1], low).unsure
    decreases |ms|
  {
    var front := ms[..|ms| - 1];
    if j in Run(l, front, low).unsure {
      k := FirstUnsure(l, front, low, j);
      assert front[..k] == ms[..k] && front[..k + 1] == ms[..k + 1];
    } else {
      k := |ms| - 1;
      assert ms[..k + 1] == ms;
    }
  }

  /** After a timeout the job is back in the queue although it was accepted. */
  lemma TimeoutUntracks(l: Loop, low: int, j: nat)
    requires Inv(l) && j !in l.unsure && j in l.confirming
    ensures !Tracked(Step(l, StartTimesOut(j), low), j)
  {
    hide Consistent, Marked, Times, StatusOf;
    assert Sure(l, j) && Settled(l, j);
    MarkedStatus(l.desk, j, Queued, j);
    assert !Settled(Step(l, StartTimesOut(j), low), j);
  }

  lemma RunShort(l: Loop, a: Move, b: Move, low: int)
    ensures Run(l, [], low) == l && Run(l, [a], low) == Step(l, a, low)
    ensures Run(l, [a, b], low) == Step(Step(l, a, low), b, low)
  {
    hide Step;
    assert [a, b][..1] == [a] && [a][..0] == [];
    assert Run(l, [a], low) == Step(l, a, low);
  }

  lemma LateTaken(l: Loop, low: int, j: nat, n: nat)
    requires Inv(l) && j !in l.unsure && TakesGivenUp(l, LateArrives(j, n), j)
    ensures var e := Step(l, LateArrives(j, n), low);
            && j in e.accepted && e.desk == l.desk && e.events == l.events && e.starting == l.starting
            && Times(e.events, j) == 0 && GivenUp(l, j)
  {
    hide Consistent, StatusOf, Times, PrintArtifactName, ReportsKnown, EndsHandled, AcceptedOnce, P.Received;
  }

  lemma FailedAgain(l: Loop, low: int, j: nat)
    requires j in l.starting && j in l.accepted && Times(l.events, j) == 0 && StatusOf(l.desk.db, j).Some?
    ensures !Tracked(Step(l, StartFails(j, false), low), j)
  {
    hide Marked, Times, StatusOf, Tracked;
    MarkedStatus(l.desk, j, Queued, j);
    NotSettled(Step(l, StartFails(j, false), low), j);
  }

  /** A late start that is taken: the job is in the queue, or its new start can fail, or the new start's own
      project_file can arrive once the print has ended. */
  lemma LateUntracks(l: Loop, low: int, j: nat, n: nat) returns (more: seq<Move>)
    requires Inv(l) && j !in l.unsure && TakesGivenUp(l, LateArrives(j, n), j)
    ensures NoneGivenUp(more, j) && !Tracked(Run(Step(l, LateArrives(j, n), low), more, low), j)
  {
    hide Inv, Times, StatusOf, Run, Step, Tracked, TakesGivenUp, P.Received, PrintArtifactName;
    LateTaken(l, low, j, n);
    var e := Step(l, LateArrives(j, n), low);
    RunShort(e, StartFails(j, false), Kick, low);
    RunShort(e, PrinterMoves(P.ForceFinish), SentArrives(j, 4), low);
    if StatusOf(l.desk.db, j) == Some(Queued) {
      more := [];
      NotSettled(e, j);
    } else if j in l.starting {
      more := [StartFails(j, false)];
      FailedAgain(e, low, j);
    } else {
      more := [PrinterMoves(P.ForceFinish), SentArrives(j, 4)];
      TakenTwice(l, low, j, n);
    }
  }

  lemma NotSettled(l: Loop, j: nat)
    requires j in l.accepted && Times(l.events, j) == 0 && StatusOf(l.desk.db, j) == Some(Queued)
    ensures !Tracked(l, j)
  {
    hide Times, StatusOf;
  }

  lemma TakenTwice(l: Loop, low: int, j: nat, n: nat)
    requires TakesGivenUp(l, LateArrives(j, n), j) && j in l.sent
    ensures var ended := Step(Step(l, LateArrives(j, n), low), PrinterMoves(P.ForceFinish), low);
            !Tracked(Step(ended, SentArrives(j, 4), low), j)
  {
    hide Tracked;
    var taken := Step(l, LateArrives(j, n), low);
    assert taken.accepted == l.accepted + [j] && j in taken.sent && taken.printer.state in {P.Running, P.Fail} by {
      hide PrintArtifactName;
    }
    hide TakesGivenUp, PrintArtifactName;
    TakenAgain(taken, low, j);
  }

  /** Once the print has ended the printer takes the next project_file. */
  lemma TakenAgain(l: Loop, low: int, j: nat)
    requires j in l.accepted && j in l.sent && l.printer.state in {P.Running, P.Fail}
    ensures !Tracked(Step(Step(l, PrinterMoves(P.ForceFinish), low), SentArrives(j, 4), low), j)
  {
    hide PrintArtifactName, Settled, FinalReport, Times;
    var e := Step(l, PrinterMoves(P.ForceFinish), low);
    var i :| 0 <= i < |l.accepted| && l.accepted[i] == j;
    var f := Step(e, SentArrives(j, 4), low);
    assert f.accepted == l.accepted + [j];
    assert f.accepted[i] == j && f.accepted[|l.accepted|] == j;
  }

  lemma BecomesUnsure(l: Loop, m: Move, low: int, j: nat) returns (more: seq<Move>)
    requires Inv(l) && j !in l.unsure && j in Step(l, m, low).unsure
    ensures NoneGivenUp(more, j) && !Tracked(Run(Step(l, m, low), more, low), j)
  {
    hide Inv, Tracked, Step, P.Received, PrintArtifactName;
    UnsureExactly(l, m, low, j);
    if m == StartTimesOut(j) {
      more := [];
      TimeoutUntracks(l, low, j);
      RunShort(Step(l, m, low), Kick, Kick, low);
    } else {
      more := LateUntracks(l, low, j, m.mappingLength);
    }
  }

  /** A run up to step k and any continuation that takes no given-up start of j leave j tracked. */
  ghost predicate TrackedFrom(l: Loop, ms: seq<Move>, low: int, j: nat, k: nat, more: seq<Move>)
    requires k <= |ms|
  {
    NoneGivenUp(more, j) ==> Tracked(Run(Run(l, ms[..k], low), more, low), j)
  }

  /** For every schedule: job j is tracked at every point of it and in all that can follow, short of taking a
      given-up start of j from there on, exactly when the schedule took none. */
  lemma TrackedExactly(l: Loop, ms: seq<Move>, low: int, j: nat)
    requires Initial(l)
    ensures (forall k: nat, more: seq<Move> :: k <= |ms| ==> TrackedFrom(l, ms, low, j, k, more))
            <==> j !in Run(l, ms, low).unsure
  {
    InitialInv(l);
    hide Run, Inv, Tracked, Step, NoneGivenUp;
    if j in Run(l, ms, low).unsure {
      var k := FirstUnsure(l, ms, low, j);
      RunKeeps(l, ms[..k], low);
      RunOneMore(l, ms, low, k);
      var more := BecomesUnsure(Run(l, ms[..k], low), ms[k], low, j);
      assert !TrackedFrom(l, ms, low, j, k + 1, more);
    } else {
      forall k: nat, more: seq<Move> | k <= |ms|
        ensures TrackedFrom(l, ms, low, j, k, more)
      {
        if NoneGivenUp(more, j) { TrackedAfter(l, ms, low, j, k, more); }
      }
    }
  }

  lemma TrackedAfter(l: Loop, ms: seq<Move>, low: int, j: nat, k: nat, more: seq<Move>)
    requires Inv(l) && k <= |ms| && NoneGivenUp(more, j) && j !in Run(l, ms, low).unsure
    ensures Tracked(Run(Run(l, ms[..k], low), more, low), j)
  {
    hide Run, Inv, Tracked, NoneGivenUp;
    var m := Run(l, ms[..k], low);
    if j in m.unsure { UnsureGrows(l, ms, low, j, k); }
    RunKeeps(l, ms[..k], low);
    StaysSure(m, more, low, j);
    RunKeeps(m, more, low);
    SureIsTracked(Run(m, more, low), j);
  }

  // ---- the reports can always be worked off ----

  /** A start or an eject settles without a command being sent, or the monitor handles a report. */
  predicate Settling(m: Move) {
    m.MonitorHandles? || (m.StartFails? && !m.sent) || m.StartConfirmed? || m == EjectSettles(true, false)
  }

  predicate AllSettling(ms: seq<Move>) { forall i :: 0 <= i < |ms| ==> Settling(ms[i]) }

  lemma {:induction false} RunAppend(l: Loop, a: seq<Move>, b: seq<Move>, low: int)
    ensures Run(l, a + b, low) == Run(Run(l, a, low), b, low)
    decreases |b|
  {
    hide Step;
    if |b| == 0 {
      assert a + b == a;
    } else {
      RunAppend(l, a, b[..|b| - 1], low);
      assert (a + b)[..|a + b| - 1] == a + b[..|b| - 1];
    }
  }

  /** What the settling moves leave alone. */
  predicate Kept(l: Loop, m: Loop) { m.log == l.log && m.unsure == l.unsure && m.accepted == l.accepted }

  lemma BecomeIdle(l: Loop, low: int) returns (ms: seq<Move>)
    requires WaitsForStart(l)
    ensures var m := Run(l, ms, low); AllSettling(ms) && MonitorIdle(m) && Kept(l, m) && m.chan == l.chan
  {
    hide Run, Marked, FailEjected;
    var eject := EjectSettles(true, false);
    var e := Step(l, eject, low);
    var wait: Move := if l.monitorWaits.None? then eject
                      else if l.monitorWaits.value in l.starting then StartFails(l.monitorWaits.value, false)
                      else StartConfirmed(l.monitorWaits.value);
    ms := [eject, wait];
    RunShort(l, eject, wait, low);
  }

  lemma HandleOne(l: Loop, low: int)
    requires MonitorIdle(l) && |l.chan| > 0
    ensures var m := Step(l, MonitorHandles, low); m.chan == l.chan[1..] && Kept(l, m)
  {
    hide NextPiece, FinishPiece, FailPiece, Noticed, Key;
  }

  /** From every state of every run some settling moves work all the reports off. */
  lemma {:induction false} Drain(l: Loop, low: int) returns (ms: seq<Move>)
    requires Inv(l)
    ensures var m := Run(l, ms, low); AllSettling(ms) && m.chan == [] && Kept(l, m)
    decreases |l.chan|
  {
    hide Run, Step, Inv, WaitsForStart, MonitorIdle;
    if |l.chan| == 0 {
      ms := [];
      RunShort(l, Kick, Kick, low);
    } else {
      InvWaits(l);
      var idle := BecomeIdle(l, low);
      var m := Run(l, idle, low);
      RunKeeps(l, idle, low);
      HandleOne(m, low);
      StepKeeps(m, MonitorHandles, low);
      var rest := Drain(Step(m, MonitorHandles, low), low);
      ms := idle + ([MonitorHandles] + rest);
      RunShort(m, MonitorHandles, Kick, low);
      RunAppend(m, [MonitorHandles], rest, low);
      RunAppend(l, idle, [MonitorHandles] + rest, low);
    }
  }

  lemma InvWaits(l: Loop)
    requires Inv(l)
    ensures WaitsForStart(l)
  {
    hide Consistent, JobsSettled, ReportsKnown, EndsHandled, AcceptedOnce, Times;
  }

  // ---- an end is not lost, reported or not ----

  /** The print of job j has ended, reported or not, and the printer has not moved on. */
  predicate EndedWith(l: Loop, j: nat) { P.Terminal(l.printer.state) && P.Subtask(l.printer) == PrintArtifactName(j) }

  /** A move that cannot make the printer take something new. */
  predicate Quiet(m: Move) {
    !m.StartArrives? && !m.SentArrives? && !m.LateArrives? && !m.EjectArrives? && m != PrinterMoves(P.Reset)
  }

  /** A command that ends j's print reports the end, or withholds it with the printer in its final state. */
  lemma EndBegins(l: Loop, c: P.Command, low: int, j: nat)
    requires P.Subtask(l.printer) == PrintArtifactName(j) && !P.Terminal(l.printer.state) && !l.printer.suppressed
    requires P.Terminal(P.React(l.printer, c).printer.state)
    ensures var e := Step(l, PrinterMoves(c), low);
            EndedWith(e, j) && (e.printer.suppressed || exists r :: r in e.log && FinalReport(r, j))
  {
    hide PrintArtifactName, P.React;
    P.EndsReportedOrWithheld(l.printer, c);
    var e := Step(l, PrinterMoves(c), low);
    assert !e.printer.suppressed ==> P.Report(e.printer.state, PrintArtifactName(j)) in e.log;
  }

  lemma EndStays(l: Loop, m: Move, low: int, j: nat)
    requires EndedWith(l, j) && Quiet(m)
    ensures EndedWith(Step(l, m, low), j)
  {
    hide NextPiece, FinishPiece, FailPiece, FailEjected, Marked, Noticed, Key, PrintArtifactName;
    NameInjective(j, j);
  }

  lemma {:induction false} EndStaysOver(l: Loop, ms: seq<Move>, low: int, j: nat, end: nat, later: nat)
    requires end <= later <= |ms| && EndedWith(Run(l, ms[..end], low), j)
    requires forall i :: end <= i < later ==> Quiet(ms[i])
    ensures EndedWith(Run(l, ms[..later], low), j)
    decreases later
  {
    if end < later {
      EndStaysOver(l, ms, low, j, end, later - 1);
      RunOneMore(l, ms, low, later - 1);
      EndStays(Run(l, ms[..later - 1], low), ms[later - 1], low, j);
    }
  }

  lemma RunOneMore(l: Loop, ms: seq<Move>, low: int, k: nat)
    requires k < |ms|
    ensures Run(l, ms[..k + 1], low) == Step(Run(l, ms[..k], low), ms[k], low)
  {
    hide Step;
    assert ms[..k + 1][..k] == ms[..k];
  }

  lemma StepKeepsLog(l: Loop, m: Move, low: int, r: P.Report)
    requires r in l.log
    ensures r in Step(l, m, low).log
  {
    hide NextPiece, FinishPiece, FailPiece, FailEjected, Marked, Noticed, Key, P.React, P.Received, PrintArtifactName;
  }

  lemma {:induction false} RunKeepsLog(l: Loop, ms: seq<Move>, low: int, k: nat, r: P.Report)
    requires k <= |ms| && r in Run(l, ms[..k], low).log
    ensures r in Run(l, ms, low).log
    decreases |ms| - k
  {
    if k == |ms| {
      assert ms[..k] == ms;
    } else {
      RunOneMore(l, ms, low, k);
      StepKeepsLog(Run(l, ms[..k], low), ms[k], low, r);
      RunKeepsLog(l, ms, low, k + 1, r);
    }
  }

  /** Withheld or not: when a print has ended and a full poll comes before the printer moves on, the reports
      can be worked off, and whenever they are, the job has exactly one call. */
  lemma EndIsNotLost(l: Loop, ms: seq<Move>, low: int, j: nat, end: nat, poll: nat) returns (more: seq<Move>)
    requires Initial(l) && j !in Run(l, ms, low).unsure
    requires end <= poll < |ms| && EndedWith(Run(l, ms[..end], low), j) && ms[poll] == PrinterMoves(P.PushAll)
    requires forall i :: end <= i < poll ==> Quiet(ms[i])
    ensures Run(l, ms, low).chan == [] ==> Times(Run(l, ms, low).events, j) == 1
    ensures var e := Run(Run(l, ms, low), more, low);
            AllSettling(more) && e.chan == [] && Times(e.events, j) == 1
  {
    hide Run, Quiet, PrintArtifactName, P.Terminal, Step;
    EndStaysOver(l, ms, low, j, end, poll);
    RunOneMore(l, ms, low, poll);
    PollReports(Run(l, ms[..poll], low), low, j);
    var r := P.BuildReport(Run(l, ms[..poll], low).printer);
    RunKeepsLog(l, ms, low, poll + 1, r);
    more := EveryEndIsCalled(l, ms, low, j, r);
  }

  /** Once a final state of j has been reported, some settling moves lead to its one call. */
  lemma EveryEndIsCalled(l: Loop, ms: seq<Move>, low: int, j: nat, r: P.Report) returns (more: seq<Move>)
    requires Initial(l) && j !in Run(l, ms, low).unsure && r in Run(l, ms, low).log && FinalReport(r, j)
    ensures Run(l, ms, low).chan == [] ==> Times(Run(l, ms, low).events, j) == 1
    ensures var e := Run(Run(l, ms, low), more, low);
            AllSettling(more) && e.chan == [] && Times(e.events, j) == 1
  {
    hide Run, Inv, Initial, FinalReport, AllSettling;
    InitialInv(l);
    RunKeeps(l, ms, low);
    var m := Run(l, ms, low);
    SureIsTracked(m, j);
    more := Drain(m, low);
    RunKeeps(m, more, low);
    SureIsTracked(Run(m, more, low), j);
  }

  lemma PollReports(l: Loop, low: int, j: nat)
    requires EndedWith(l, j)
    ensures var r := P.BuildReport(l.printer); FinalReport(r, j) && r in Step(l, PrinterMoves(P.PushAll), low).log
  {
    hide PrintArtifactName;
    var r := P.BuildReport(l.printer);
    assert P.React(l.printer, P.PushAll).reports == [r];
  }

  // ---- why a start that is given up is excepted ----

  /** A report of a job that is not printing is worked off without a call. */
  lemma NotNoticed(l: Loop, low: int, j: nat)
    requires Consistent(l.desk.db) && !IsPrinting(l.desk.db, j) && MonitorIdle(l)
    requires |l.chan| > 0 && l.chan[0].subtask == PrintArtifactName(j)
    ensures Step(l, MonitorHandles, low) == l.(chan := l.chan[1..], lastKey := Key(l.chan[0]))
  {
    hide Consistent, Key, PrintArtifactName, CurrentJob;
    OwnReport(l.desk.db, j);
  }

  predicate IdlePrinter(p: P.Printer) { p.state == P.Idle && p.fault.None? && !p.suppressed }

  lemma QueuedAgain(d: Desk, j: nat)
    requires Consistent(d.db)
    ensures Consistent(Marked(d, j, Queued).db) && !IsPrinting(Marked(d, j, Queued).db, j)
  {
    PatchConsistent(d.db, j, SetStatus(Queued, None));
    MarkedStatus(d, j, Queued, j);
    hide Marked, Consistent, Find;
  }

  /** The first job is chosen, its start fails, and an idle printer takes it all the same. */
  lemma TakenLate(l: Loop, low: int, j: nat)
    requires Initial(l) && NextPiece(l.desk).start == Some(j) && IdlePrinter(l.printer)
    ensures var e := Step(Step(Step(l, Kick, low), StartFails(j, true), low), LateArrives(j, 4), low);
            var name := PrintArtifactName(j);
            && e.desk == Marked(NextPiece(l.desk).desk, j, Queued) && e.accepted == [j] && e.events == []
               && MonitorIdle(e)
            && e.printer
               == P.Printer(P.Running, P.DEFAULT_MINUTES, Some(P.ActiveJob(name, P.DEFAULT_MINUTES)), None, false)
            && e.chan == e.log == [P.Report(P.Prepare, name), P.Report(P.Running, name)]
  {
    hide Consistent, NextPiece, PrintArtifactName, Marked;
  }

  lemma FinishedQuietly(l: Loop, low: int)
    requires l.printer.state == P.Running && l.printer.fault.None? && !l.printer.suppressed
    ensures var e := Step(l, PrinterMoves(P.ForceFinish), low);
            var end := P.Report(P.Finish, P.Subtask(l.printer));
            && e == l.(printer := e.printer, chan := l.chan + [end], log := l.log + [end])
  {
  }

  /** Three reports of a job that is not printing are worked off without a call. */
  lemma ThreeHandled(l: Loop, low: int, j: nat)
    requires Consistent(l.desk.db) && !IsPrinting(l.desk.db, j) && MonitorIdle(l)
    requires |l.chan| == 3 && forall i :: 0 <= i < 3 ==> l.chan[i].subtask == PrintArtifactName(j)
    ensures var e := Step(Step(Step(l, MonitorHandles, low), MonitorHandles, low), MonitorHandles, low);
            e.chan == [] && e.log == l.log && e.accepted == l.accepted && e.events == l.events
  {
    hide Consistent, Key, PrintArtifactName, Step;
    NotNoticed(l, low, j);
    NotNoticed(Step(l, MonitorHandles, low), low, j);
    NotNoticed(Step(Step(l, MonitorHandles, low), MonitorHandles, low), low, j);
  }

  lemma SevenMoves(l: Loop, ms: seq<Move>, low: int)
    requires |ms| == 7
    ensures var three := Step(Step(Step(l, ms[0], low), ms[1], low), ms[2], low);
            Run(l, ms, low) == Step(Step(Step(Step(three, ms[3], low), ms[4], low), ms[5], low), ms[6], low)
  {
    hide Step;
    assert ms[..0] == [] && ms[..7] == ms;
    assert Run(l, ms[..0], low) == l;
    hide Run;
    RunOneMore(l, ms, low, 0);
    RunOneMore(l, ms, low, 1);
    RunOneMore(l, ms, low, 2);
    RunOneMore(l, ms, low, 3);
    RunOneMore(l, ms, low, 4);
    RunOneMore(l, ms, low, 5);
    RunOneMore(l, ms, low, 6);
  }

  /** Whatever the queue: when the start of the first job fails while its project_file is on the way to an idle
      printer, the print runs and its end is reported and handled, but nobody is told. */
  lemma LateStartLosesEnd(l: Loop, low: int, j: nat)
    requires Initial(l) && NextPiece(l.desk).start == Some(j) && IdlePrinter(l.printer)
    ensures var e := Run(l, [Kick, StartFails(j, true), LateArrives(j, 4), PrinterMoves(P.ForceFinish),
                             MonitorHandles, MonitorHandles, MonitorHandles], low);
            && j in e.accepted && P.Report(P.Finish, PrintArtifactName(j)) in e.log && e.chan == []
            && Times(e.events, j) == 0
  {
    hide Run, Step, Consistent, NextPiece, PrintArtifactName, MonitorIdle, IsPrinting, Marked;
    SevenMoves(l, [Kick, StartFails(j, true), LateArrives(j, 4), PrinterMoves(P.ForceFinish),
                   MonitorHandles, MonitorHandles, MonitorHandles], low);
    TakenLate(l, low, j);
    I.NextKeepsConsistent(l.desk);
    QueuedAgain(NextPiece(l.desk).desk, j);
    var taken := Step(Step(Step(l, Kick, low), StartFails(j, true), low), LateArrives(j, 4), low);
    FinishedQuietly(taken, low);
    var ended := Step(taken, PrinterMoves(P.ForceFinish), low);
    IdleStays(taken, ended);
    assert ended.log[2] == P.Report(P.Finish, PrintArtifactName(j));
    ThreeHandled(ended, low, j);
  }

  lemma IdleStays(l: Loop, m: Loop)
    requires MonitorIdle(l) && m.ejecting == l.ejecting && m.monitorWaits == l.monitorWaits
    ensures MonitorIdle(m)
  {
  }

  /** Each call is for the job that the handled report names, and of the kind that the report shows. */
  lemma CallsOwnJob(l: Loop, ms: seq<Move>, low: int)
    requires Initial(l)
    ensures var e := Run(l, ms, low); var f := Step(e, MonitorHandles, low);
            |f.events| > |e.events| ==>
              && |e.chan| > 0 && f.events == e.events + [f.events[|e.events|]]
              && FinalReport(e.chan[0], f.events[|e.events|].job)
              && (f.events[|e.events|].Finishes? <==> e.chan[0].state == P.Finish)
  {
    hide Run, Inv, Noticed, FinishPiece, FailPiece, Key, PrintArtifactName;
    InitialInv(l);
    RunKeeps(l, ms, low);
    var e := Run(l, ms, low);
    if |e.chan| > 0 { NoticedOwnJob(e, e.chan[0]); }
  }
}
