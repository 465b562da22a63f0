/**
 The dispatcher (src/core/dispatcher.ts). Its decisions are functions of the tables; each
 asynchronous operation is given in the pieces that its awaits cut it into, and the class runs
 the pieces against a repository. `startOk` and `ejectOk` say whether the awaited printer call
 resolved; `threw` says that the operation ended with an exception.
 */
module Dispatch {
  import opened Wrappers
  import opened QueueStore

  datatype Note =
    | StockerLow(remaining: int)
    | JobFinished(job: nat, substituted: Option<string>)
    | JobFailed(job: nat)
    | JobAborted(job: nat)
    | RefillRequested
    | ColorPending(job: nat, project: nat)

  /** What the dispatcher can change: the tables, and the notifications it has sent. */
  datatype Desk = Desk(db: Db, notes: seq<Note>)

  /** A piece of an operation: it may ask for a start, and it may have thrown. */
  datatype Cut = Cut(desk: Desk, start: Option<nat>, threw: bool)

  datatype Choice = Busy | BlockedQueue | StockerEmpty | NoEligibleJob | Start(job: nat)

  // ---- which job starts next ----

  /** A project waiting for a colour decision is paused. */
  predicate Paused(pending: seq<PendingRow>, r: JobRow) {
    r.project.Some? &&
    exists i :: 0 <= i < |pending| && !pending[i].resolved && pending[i].kind == ColorDecision
      && pending[i].project == r.project
  }

  function CanStart(pending: seq<PendingRow>): JobRow -> bool {
    (r: JobRow) => r.status == Queued && !Paused(pending, r)
  }

  /** The queued jobs of projects that are not paused, in queue order. */
  function Eligible(db: Db): seq<JobRow> { Filter(ListJobs(db), CanStart(db.pending)) }

  predicate NoneStatus(db: Db, s: Status) { forall r :: r in db.jobs ==> r.status != s }

  function Choose(db: Db): Choice {
    if !NoneStatus(db, Printing) then Busy
    else if AnyBlockingQueue(db) then BlockedQueue
    else if db.stocker.None? || db.stocker.value.remaining <= 0 then StockerEmpty
    else if |Eligible(db)| == 0 then NoEligibleJob
    else Start(Eligible(db)[0].id)
  }

  // ---- the pieces ----

  function WithRefillPending(d: Desk): Desk {
    if AnyUnresolved(d.db, StockerRefill) then d
    else Desk(WithPending(d.db, StockerRefill, BlockingQueue, None, None), d.notes + [RefillRequested])
  }

  function Marked(d: Desk, id: nat, s: Status): Desk { d.(db := Patched(d.db, id, SetStatus(s, None))) }

  /** dispatchNext up to its await: the chosen job is already marked as printing. */
  function NextPiece(d: Desk): Cut {
    match Choose(d.db)
    case Start(id) => Cut(Marked(d, id, Printing), Some(id), false)
    case StockerEmpty => Cut(WithRefillPending(d), None, false)
    case _ => Cut(d, None, false)
  }

  /** A start that failed puts the job back into the queue and rethrows. */
  function StartReturned(c: Cut, ok: bool): Cut {
    if c.start.Some? && !ok then Cut(Marked(c.desk, c.start.value, Queued), None, true) else c
  }

  function Next(d: Desk, startOk: bool): Cut { StartReturned(NextPiece(d), startOk) }

  /** One plate fewer, and a warning at or below the low-water mark; `None` when the CHECK fails. */
  function Swapped(d: Desk, low: int): Option<Desk> {
    var r := Decremented(d.db);
    if r.None? then None
    else if r.value.stocker.Some? && r.value.stocker.value.remaining <= low then
      Some(Desk(r.value, d.notes + [StockerLow(r.value.stocker.value.remaining)]))
    else Some(Desk(r.value, d.notes))
  }

  function Propagated(db: Db, rows: seq<JobRow>, project: nat, slot: int, color: string): Db
    decreases |rows|
  {
    if |rows| == 0 then db
    else
      var r := Propagated(db, rows[..|rows| - 1], project, slot, color);
      var q := rows[|rows| - 1];
      if q.project == Some(project) then Patched(r, q.id, SetSubstitution(slot, color)) else r
  }

  /** What a finished job's substitution does to the rest of its project. */
  function ColorApplied(d: Desk, job: JobRow): Desk {
    if job.substitutedColor.None? || job.project.None? || job.project.value !in d.db.projects then d
    else
      var p := job.project.value;
      match d.db.projects[p]
      case Strict =>
        Desk(WithPending(d.db, ColorDecision, BlockingJob, Some(job.id), Some(p)), d.notes + [ColorPending(job.id, p)])
      case Propagate =>
        if job.substitutedSlot.None? then d
        else d.(db := Propagated(d.db, ListByStatus(d.db, Queued), p, job.substitutedSlot.value,
                                 job.substitutedColor.value))
  }

  /** onFinished up to the await of the next start. */
  function FinishPiece(d: Desk, id: nat, low: int): Cut {
    var job := GetJob(d.db, id);
    var done := Marked(d, id, Success);
    var s := Swapped(done, low);
    if s.None? then Cut(done, None, true)
    else
      var noted := Desk(s.value.db,
                        s.value.notes + [JobFinished(id, if job.Some? then job.value.substitutedColor else None)]);
      NextPiece(if job.Some? then ColorApplied(noted, job.value) else noted)
  }

  /** onFailed up to the await of the eject. */
  function FailPiece(d: Desk, id: nat, error: string): Desk {
    d.(db := Patched(Patched(d.db, id, SetStatus(Failed, Some(error))), id, BumpAttempts))
  }

  /** onFailed after the eject. */
  function FailEjected(d: Desk, id: nat, low: int): Cut {
    var s := Swapped(d, low);
    if s.None? then Cut(d, None, true)
    else if GetJob(s.value.db, id).None? then Cut(s.value, None, true)
    else Cut(Desk(WithPending(s.value.db, RetryDecision, BlockingJob, Some(id), None), s.value.notes + [JobFailed(id)]),
             None, false)
  }

  predicate IsPrinting(db: Db, id: nat) { GetJob(db, id).Some? && GetJob(db, id).value.status == Printing }

  /** abort after the eject, up to the await of the next start. */
  function AbortEjected(d: Desk, id: nat, low: int): Cut {
    var done := Marked(d, id, Aborted);
    var s := Swapped(done, low);
    if s.None? then Cut(done, None, true)
    else NextPiece(Desk(s.value.db, s.value.notes + [JobAborted(id)]))
  }

  /** retry; the flag says whether the job was put back into the queue. */
  function Retried(d: Desk, id: nat, limit: int): (Desk, bool) {
    var job := GetJob(d.db, id);
    if job.None? then (d, false)
    else if job.value.attempts > limit
        then (d.(db := WithPending(d.db, MechanicalCheck, Advisory, Some(id), None)), false)
    else (Marked(d, id, Queued), true)
  }

  // ---- whole operations, one at a time ----

  function Finished(d: Desk, id: nat, low: int, startOk: bool): Cut { StartReturned(FinishPiece(d, id, low), startOk) }

  function FailedOp(d: Desk, id: nat, error: string, low: int, ejectOk: bool): Cut {
    if ejectOk then FailEjected(FailPiece(d, id, error), id, low) else Cut(FailPiece(d, id, error), None, true)
  }

  function AbortedOp(d: Desk, id: nat, low: int, ejectOk: bool, startOk: bool): Cut {
    if !IsPrinting(d.db, id) then Cut(d, None, false)
    else if !ejectOk then Cut(d, None, true)
    else StartReturned(AbortEjected(d, id, low), startOk)
  }

  // ---- lemmas about the choice ----

  lemma NoneListed(db: Db, s: Status)
    ensures |ListByStatus(db, s)| == 0 <==> NoneStatus(db, s)
  {
    SortMembers(Filter(db.jobs, HasStatus(s)));
    FilterMembers(db.jobs, HasStatus(s));
    if |ListByStatus(db, s)| > 0 {
      assert ListByStatus(db, s)[0] in db.jobs;
    }
  }

  /** Filtering the queued list for projects that are not paused gives the eligible jobs. */
  lemma {:induction false} FilterTwice(rows: seq<JobRow>, a: JobRow -> bool, b: JobRow -> bool, both: JobRow -> bool)
    requires forall r :: both(r) <==> a(r) && b(r)
    ensures Filter(Filter(rows, a), b) == Filter(rows, both)
    decreases |rows|
  {
    if |rows| > 0 {
      var front, last := rows[..|rows| - 1], rows[|rows| - 1];
      FilterTwice(front, a, b, both);
      if a(last) {
        assert (Filter(front, a) + [last])[..|Filter(front, a)|] == Filter(front, a);
      } else {
        assert Filter(front, a) + [] == Filter(front, a);
      }
    }
  }

  function NotPaused(pending: seq<PendingRow>): JobRow -> bool { (r: JobRow) => !Paused(pending, r) }

  lemma EligibleFromQueued(db: Db)
    requires Consistent(db)
    ensures Eligible(db) == Filter(ListByStatus(db, Queued), NotPaused(db.pending))
  {
    ListByStatusIsFilter(db, Queued);
    FilterTwice(ListJobs(db), HasStatus(Queued), NotPaused(db.pending), CanStart(db.pending));
  }

  /** The first job that starts is the head of the eligible list: scanning skips paused projects only. */
  lemma {:induction false} FirstKept(rows: seq<JobRow>, keep: JobRow -> bool, k: nat)
    requires k < |rows| && keep(rows[k]) && forall i :: 0 <= i < k ==> !keep(rows[i])
    ensures |Filter(rows, keep)| > 0 && Filter(rows, keep)[0] == rows[k]
    decreases |rows|
  {
    if k < |rows| - 1 {
      FirstKept(rows[..|rows| - 1], keep, k);
    } else {
      NoneKept(rows[..k], keep);
    }
  }

  lemma {:induction false} NoneKept(rows: seq<JobRow>, keep: JobRow -> bool)
    requires forall i :: 0 <= i < |rows| ==> !keep(rows[i])
    ensures Filter(rows, keep) == []
    decreases |rows|
  {
    if |rows| > 0 { NoneKept(rows[..|rows| - 1], keep); }
  }

  // ---- the operations against a repository ----

  datatype Outcome = Dispatched(job: nat) | NotDispatched(reason: Choice) | Rethrown

  class Dispatcher {
    const repo: Repo
    const retryLimit: int
    const lowStock: int
    var notes: seq<Note>

    constructor (repo: Repo, retryLimit: int := 3, lowStock: int := 1)
      ensures this.repo == repo && this.retryLimit == retryLimit && this.lowStock == lowStock && notes == []
    {
      this.repo, this.retryLimit, this.lowStock, notes := repo, retryLimit, lowStock, [];
    }

    function Now(): Desk
      reads this, repo
    {
      Desk(repo.db, notes)
    }

    predicate Valid()
      reads this, repo
    {
      Consistent(repo.db)
    }

    method EnsureStockerRefillPending()
      requires Valid()
      modifies repo, this`notes
      ensures Valid() && Now() == WithRefillPending(old(Now()))
    {
      if !AnyUnresolved(repo.db, StockerRefill) {
        var ok := repo.CreatePendingAction(StockerRefill, BlockingQueue, None, None);
        notes := notes + [RefillRequested];
      }
    }

    method SwapPlate() returns (ok: bool)
      requires Valid()
      modifies repo, this`notes
      ensures Valid() && ok == Swapped(old(Now()), lowStock).Some?
      ensures Now() == if ok then Swapped(old(Now()), lowStock).value else old(Now())
    {
      ok := repo.DecrementStocker();
      if ok && repo.db.stocker.Some? && repo.db.stocker.value.remaining <= lowStock {
        notes := notes + [StockerLow(repo.db.stocker.value.remaining)];
      }
    }

    method Enqueue(id: nat)
      requires Valid()
      modifies repo
      ensures Valid() && Now() == Marked(old(Now()), id, Queued)
    {
      repo.UpdateJob(id, SetStatus(Queued, None));
    }

    method DispatchNext(startOk: bool) returns (outcome: Outcome)
      requires Valid()
      modifies repo, this`notes
      ensures Valid() && Now() == Next(old(Now()), startOk).desk
      ensures outcome == match Choose(old(repo.db))
                         case Start(id) => if startOk then Dispatched(id) else Rethrown
                         case c => NotDispatched(c)
    {
      hide Sort, Consistent, Find, Order, AnyUnresolved, Filter;
      NoneListed(repo.db, Printing);
      if |ListByStatus(repo.db, Printing)| > 0 { return NotDispatched(Busy); }
      if AnyBlockingQueue(repo.db) { return NotDispatched(BlockedQueue); }
      if repo.db.stocker.None? || repo.db.stocker.value.remaining <= 0 {
        EnsureStockerRefillPending();
        return NotDispatched(StockerEmpty);
      }
      EligibleFromQueued(repo.db);
      var queued := ListByStatus(repo.db, Queued);
      var k := 0;
      while k < |queued|
        invariant 0 <= k <= |queued| && repo.db == old(repo.db) && notes == old(notes)
        invariant forall i :: 0 <= i < k ==> !NotPaused(repo.db.pending)(queued[i])
      {
        var job := queued[k];
        if !(job.project.Some? && HasUnresolved(repo.db, job.project.value, ColorDecision)) {
          FirstKept(queued, NotPaused(repo.db.pending), k);
          outcome := StartJob(job.id, startOk);
          return;
        }
        k := k + 1;
      }
      NoneKept(queued, NotPaused(repo.db.pending));
      outcome := NotDispatched(NoEligibleJob);
    }

    method StartJob(id: nat, startOk: bool) returns (outcome: Outcome)
      requires Valid()
      modifies repo
      ensures Valid() && Now() == StartReturned(Cut(Marked(old(Now()), id, Printing), Some(id), false), startOk).desk
      ensures outcome == if startOk then Dispatched(id) else Rethrown
    {
      repo.UpdateJob(id, SetStatus(Printing, None));
      if !startOk {
        repo.UpdateJob(id, SetStatus(Queued, None));
        return Rethrown;
      }
      outcome := Dispatched(id);
    }

    method ApplyColorConsistency(job: JobRow)
      requires Valid() && GetJob(repo.db, job.id).Some?
      modifies repo, this`notes
      ensures Valid() && Now() == ColorApplied(old(Now()), job)
    {
      if job.substitutedColor.None? || job.project.None? { return; }
      var p := job.project.value;
      if p !in repo.db.projects { return; }
      if repo.db.projects[p] == Strict {
        var ok := repo.CreatePendingAction(ColorDecision, BlockingJob, Some(job.id), Some(p));
        notes := notes + [ColorPending(job.id, p)];
      } else if job.substitutedSlot.Some? {
        ghost var was := repo.db;
        var queued := ListByStatus(repo.db, Queued);
        var k := 0;
        while k < |queued|
          invariant 0 <= k <= |queued| && Valid() && notes == old(notes)
          invariant repo.db == Propagated(was, queued[..k], p, job.substitutedSlot.value, job.substitutedColor.value)
        {
          assert queued[..k + 1][..k] == queued[..k];
          if queued[k].project == Some(p) {
            repo.UpdateJob(queued[k].id, SetSubstitution(job.substitutedSlot.value, job.substitutedColor.value));
          }
          k := k + 1;
        }
        assert queued[..k] == queued;
      }
    }

    method OnFinished(id: nat, startOk: bool) returns (threw: bool)
      requires Valid()
      modifies repo, this`notes
      ensures Valid()
      ensures var c := Finished(old(Now()), id, lowStock, startOk); Now() == c.desk && threw == c.threw
    {
      hide Sort, Consistent, Find, Order, Choose, ColorApplied;
      var job := GetJob(repo.db, id);
      repo.UpdateJob(id, SetStatus(Success, None));
      var swapped := SwapPlate();
      if !swapped { return true; }
      notes := notes + [JobFinished(id, if job.Some? then job.value.substitutedColor else None)];
      if job.Some? {
        FindUpdate(old(repo.db.jobs), id, SetStatus(Success, None), id);
        ApplyColorConsistency(job.value);
      }
      var outcome := DispatchNext(startOk);
      threw := outcome.Rethrown?;
    }

    method OnFailed(id: nat, error: string, ejectOk: bool) returns (threw: bool)
      requires Valid()
      modifies repo, this`notes
      ensures Valid()
      ensures var c := FailedOp(old(Now()), id, error, lowStock, ejectOk); Now() == c.desk && threw == c.threw
    {
      repo.UpdateJob(id, SetStatus(Failed, Some(error)));
      repo.UpdateJob(id, BumpAttempts);
      if !ejectOk { return true; }
      var swapped := SwapPlate();
      if !swapped { return true; }
      var created := repo.CreatePendingAction(RetryDecision, BlockingJob, Some(id), None);
      if !created { return true; }
      notes := notes + [JobFailed(id)];
      threw := false;
    }

    method Abort(id: nat, ejectOk: bool, startOk: bool) returns (aborted: bool, threw: bool)
      requires Valid()
      modifies repo, this`notes
      ensures Valid()
      ensures var c := AbortedOp(old(Now()), id, lowStock, ejectOk, startOk); Now() == c.desk && threw == c.threw
      ensures aborted <==> IsPrinting(old(repo.db), id) && !threw
    {
      if !IsPrinting(repo.db, id) { return false, false; }
      if !ejectOk { return false, true; }
      repo.UpdateJob(id, SetStatus(Aborted, None));
      var swapped := SwapPlate();
      if !swapped { return false, true; }
      notes := notes + [JobAborted(id)];
      var outcome := DispatchNext(startOk);
      threw := outcome.Rethrown?;
      aborted := !threw;
    }

    method Retry(id: nat) returns (requeued: bool)
      requires Valid()
      modifies repo
      ensures Valid() && Now() == Retried(old(Now()), id, retryLimit).0
              && requeued == Retried(old(Now()), id, retryLimit).1
    {
      var job := GetJob(repo.db, id);
      if job.None? { return false; }
      if job.value.attempts > retryLimit {
        var ok := repo.CreatePendingAction(MechanicalCheck, Advisory, Some(id), None);
        return false;
      }
      repo.UpdateJob(id, SetStatus(Queued, None));
      requeued := true;
    }
  }
}
