/**
 The monitor (src/orchestrator/monitor.ts): a FIFO chain of printer reports handled one at a time.
 Identical consecutive reports are dropped, and a final state is attributed to the printing job whose
 artifact name the report carries, or to nobody.
 */
module Monitoring {
  import opened Wrappers
  import opened QueueStore
  import opened Dispatch
  import opened ArtifactNames
  import opened Text
  import P = PrinterStub

  function StateName(s: P.GcodeState): string {
    match s
    case Idle => "IDLE"
    case Prepare => "PREPARE"
    case Running => "RUNNING"
    case Pause => "PAUSE"
    case Finish => "FINISH"
    case Fail => "FAILED"
  }

  /** The edge-detection key of a report. */
  function Key(r: P.Report): string { StateName(r.state) + ":" + r.subtask }

  datatype Event = Finishes(job: nat) | Fails(job: nat)

  /** The first printing job, in queue order, whose prefix the subtask name contains. */
  function Attributed(rows: seq<JobRow>, subtask: string): (id: Option<nat>)
    ensures id.Some? ==> exists r :: r in rows && r.id == id.value && Includes(subtask, JobSubtaskPrefix(r.id))
    ensures id.None? ==> forall r :: r in rows ==> !Includes(subtask, JobSubtaskPrefix(r.id))
    decreases |rows|
  {
    if |rows| == 0 then None
    else if Includes(subtask, JobSubtaskPrefix(rows[0].id)) then Some(rows[0].id)
    else Attributed(rows[1..], subtask)
  }

  function CurrentJob(db: Db, subtask: string): Option<nat> { Attributed(ListByStatus(db, Printing), subtask) }

  /** What a report makes the monitor do. */
  function Noticed(db: Db, lastKey: string, r: P.Report): Option<Event> {
    if Key(r) == lastKey then None
    else
      var job := CurrentJob(db, r.subtask);
      if job.None? then None
      else if r.state == P.Finish then Some(Finishes(job.value))
      else if r.state == P.Fail then Some(Fails(job.value))
      else None
  }

  // ---- keys tell reports apart ----

  lemma {:induction false} SplitAtColon(a: string, b: string, x: string, y: string)
    requires ':' !in a && ':' !in b && a + ":" + x == b + ":" + y
    ensures a == b && x == y
  {
    var s, t := a + ":" + x, b + ":" + y;
    assert s[|a|] == ':' && t[|b|] == ':';
    assert forall i :: 0 <= i < |a| ==> s[i] == a[i];
    assert forall i :: 0 <= i < |b| ==> t[i] == b[i];
    assert |a| == |b|;
    assert s[..|a|] == a && t[..|b|] == b && s[|a| + 1..] == x && t[|b| + 1..] == y;
  }

  /** Two reports have the same key exactly when they agree on state and subtask. */
  lemma KeyInjective(r: P.Report, s: P.Report)
    ensures Key(r) == Key(s) <==> r == s
    ensures |Key(r)| > 0
  {
    if Key(r) == Key(s) {
      SplitAtColon(StateName(r.state), StateName(s.state), r.subtask, s.subtask);
    }
  }

  // ---- attribution ----

  /** The report of job j's own artifact is attributed to j exactly when j is printing. */
  lemma OwnReport(db: Db, j: nat)
    requires Consistent(db)
    ensures CurrentJob(db, PrintArtifactName(j)) == if IsPrinting(db, j) then Some(j) else None
  {
    hide Sort, Filter, Find, Includes, JobSubtaskPrefix, PrintArtifactName;
    var rows := ListByStatus(db, Printing);
    SortMembers(Filter(db.jobs, HasStatus(Printing)));
    FilterMembers(db.jobs, HasStatus(Printing));
    var id := CurrentJob(db, PrintArtifactName(j));
    if IsPrinting(db, j) { assert GetJob(db, j).value in rows; }
    if id.Some? {
      var r :| r in rows && r.id == id.value && Includes(PrintArtifactName(j), JobSubtaskPrefix(r.id));
      AttributionIsInjective(j, r.id);
      PrintingRow(db, r);
    } else if IsPrinting(db, j) {
      AttributionIsInjective(j, j);
    }
  }

  lemma PrintingRow(db: Db, r: JobRow)
    requires Consistent(db) && r in db.jobs && r.status == Printing
    ensures IsPrinting(db, r.id)
  {
    var i :| 0 <= i < |db.jobs| && db.jobs[i] == r;
    FindUnique(db.jobs, i);
  }

  /** A report of the eject artifact, or of no job at all, is attributed to nobody. */
  lemma ForeignReport(db: Db, subtask: string)
    requires subtask == EJECT_ARTIFACT_NAME || subtask == DRY_REHEARSAL_ARTIFACT || subtask == ""
    ensures CurrentJob(db, subtask).None?
  {
    hide Sort, Includes, Find;
    var id := CurrentJob(db, subtask);
    if id.Some? {
      OtherArtifactsUnattributed(id.value);
      EmptyIncludesNothing(id.value);
    }
  }

  lemma EmptyIncludesNothing(j: nat)
    ensures !Includes("", JobSubtaskPrefix(j))
  {
  }

  // ---- the class ----

  class Monitor {
    const dispatcher: Dispatcher
    var lastKey: string
    /** The promise chain: reports that wait for their turn, oldest first. */
    var chain: seq<P.Report>
    var started: bool

    constructor (dispatcher: Dispatcher)
      ensures this.dispatcher == dispatcher && lastKey == "" && chain == [] && !started
    {
      this.dispatcher, lastKey, chain, started := dispatcher, "", [], false;
    }

    method Start()
      modifies this`started
      ensures started
    {
      started := true;
    }

    method Stop()
      modifies this`started
      ensures !started
    {
      started := false;
    }

    /** A status event of the client; it is heard only between start and stop. */
    method OnStatus(r: P.Report)
      modifies this`chain
      ensures chain == if started then old(chain) + [r] else old(chain)
    {
      if started { chain := chain + [r]; }
    }

    /** Handles the oldest waiting report. Errors of the dispatcher are logged, not passed on;
        `error` is the text made from the report's HMS codes. */
    method HandleNext(error: string, startOk: bool, ejectOk: bool) returns (event: Option<Event>)
      requires |chain| > 0 && dispatcher.Valid()
      modifies this`chain, this`lastKey, dispatcher`notes, dispatcher.repo
      ensures dispatcher.Valid() && chain == old(chain)[1..] && lastKey == Key(old(chain)[0])
      ensures event == Noticed(old(dispatcher.repo.db), old(lastKey), old(chain)[0])
      ensures dispatcher.Now() == match event
                                  case None => old(dispatcher.Now())
                                  case Some(Finishes(j)) =>
                                    Finished(old(dispatcher.Now()), j, dispatcher.lowStock, startOk).desk
                                  case Some(Fails(j)) =>
                                    FailedOp(old(dispatcher.Now()), j, error, dispatcher.lowStock, ejectOk).desk
    {
      var r := chain[0];
      chain := chain[1..];
      var key := Key(r);
      if key == lastKey { return None; }
      lastKey := key;
      var job := CurrentJob(dispatcher.repo.db, r.subtask);
      event := None;
      if r.state == P.Finish {
        if job.Some? {
          event := Some(Finishes(job.value));
          var _ := dispatcher.OnFinished(job.value, startOk);
        }
      } else if r.state == P.Fail {
        if job.Some? {
          event := Some(Fails(job.value));
          var _ := dispatcher.OnFailed(job.value, error, ejectOk);
        }
      }
    }
  }
}
