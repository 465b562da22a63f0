/**
 Concurrency of the dispatcher (src/core/dispatcher.ts) with the HTTP handlers (src/api/write-routes.ts):
 every asynchronous operation is cut at its awaits, and the pieces of all calls and handlers interleave
 freely. In every reachable state at most one job is printing, and a job only ever becomes printing
 when the queue rules allow it.
 */
module Interleaving {
  import opened Wrappers
  import opened QueueStore
  import opened Dispatch

  /** A call that is suspended at an await. */
  datatype Thread = StartPending(job: nat) | FailEjecting(job: nat) | AbortEjecting(job: nat)

  datatype World = World(desk: Desk, threads: multiset<Thread>)

  datatype Step =
    | CallNext
    | CallFinished(job: nat)
    | CallFailed(job: nat, error: string)
    | CallAbort(job: nat)
    | CallRetry(job: nat)
    | CallEnqueue(job: nat)
    | StartSettles(job: nat, ok: bool)
    | FailEjectSettles(job: nat, ok: bool)
    | AbortEjectSettles(job: nat, ok: bool)
    | CreateJob(inProject: Option<nat>, plan: Plan)
    | CloneJob(source: nat, plate: Option<string>)
    | EditJob(job: nat, patch: Patch)
    | DeleteJob(job: nat)
    | ReorderJobs(ids: seq<nat>)
    | SetStocker(capacity: int, remaining: int)
    | RefillStocker
    | CreateProject(project: nat, policy: Policy)
    | SetPolicy(project: nat, policy: Policy)
    | RaisePending(kind: PendingType, severity: Severity, about: Option<nat>, forProject: Option<nat>)
    | ResolvePending(action: nat)

  datatype Settings = Settings(low: int, retryLimit: int)

  /** The call goes on at its await when a start was asked for, and is over otherwise. */
  function Suspend(threads: multiset<Thread>, c: Cut): World {
    World(c.desk, if c.start.Some? then threads + multiset{StartPending(c.start.value)} else threads)
  }

  function OnDb(w: World, db: Db): World { w.(desk := w.desk.(db := db)) }

  /** One atomic piece. A step that is not possible in `w` leaves `w` as it is. */
  function Do(w: World, step: Step, cfg: Settings): World {
    var d, db := w.desk, w.desk.db;
    match step
    case CallNext => Suspend(w.threads, NextPiece(d))
    case CallFinished(id) => Suspend(w.threads, FinishPiece(d, id, cfg.low))
    case CallFailed(id, error) => World(FailPiece(d, id, error), w.threads + multiset{FailEjecting(id)})
    case CallAbort(id) => if IsPrinting(db, id) then w.(threads := w.threads + multiset{AbortEjecting(id)}) else w
    case CallRetry(id) => w.(desk := Retried(d, id, cfg.retryLimit).0)
    case CallEnqueue(id) => w.(desk := Marked(d, id, Queued))
    case StartSettles(id, ok) =>
      if StartPending(id) !in w.threads then w
      else World(if ok then d else Marked(d, id, Queued), w.threads - multiset{StartPending(id)})
    case FailEjectSettles(id, ok) =>
      if FailEjecting(id) !in w.threads then w
      else World(if ok then FailEjected(d, id, cfg.low).desk else d, w.threads - multiset{FailEjecting(id)})
    case AbortEjectSettles(id, ok) =>
      if AbortEjecting(id) !in w.threads then w
      else if ok then Suspend(w.threads - multiset{AbortEjecting(id)}, AbortEjected(d, id, cfg.low))
      else w.(threads := w.threads - multiset{AbortEjecting(id)})
    case CreateJob(project, plan) =>
      if project.Some? && project.value !in db.projects then w else OnDb(w, Created(db, project, plan))
    case CloneJob(source, plate) =>
      if GetJob(db, source).None? || !PlateAllowed(plate) then w
          else OnDb(w, Cloned(db, GetJob(db, source).value, plate))
    case EditJob(id, patch) =>
      if patch.SetStatus? || !Permitted(db, patch) then w
      else OnDb(w, Patched(db, id, patch))
    case DeleteJob(id) => if IsPrinting(db, id) || Referenced(db, id) then w else OnDb(w, Deleted(db, id))
    case ReorderJobs(ids) => OnDb(w, db.(jobs := Reordered(db.jobs, ids)))
    case SetStocker(capacity, remaining) =>
      if StockerSet(db, capacity, remaining).None? then w else OnDb(w, StockerSet(db, capacity, remaining).value)
    case RefillStocker => OnDb(w, Refilled(db))
    case CreateProject(p, policy) => if p in db.projects then w else OnDb(w, db.(projects := db.projects[p := policy]))
    case SetPolicy(p, policy) => if p !in db.projects then w else OnDb(w, db.(projects := db.projects[p := policy]))
    case RaisePending(kind, severity, job, project) =>
      if CanReference(db, job, project) then OnDb(w, WithPending(db, kind, severity, job, project)) else w
    case ResolvePending(action) => OnDb(w, Resolved(db, action))
  }

  function Run(w: World, steps: seq<Step>, cfg: Settings): World
    decreases |steps|
  {
    if |steps| == 0 then w else Do(Run(w, steps[..|steps| - 1], cfg), steps[|steps| - 1], cfg)
  }

  // ---- at most one job is printing ----

  predicate OnePrinting(rows: seq<JobRow>) {
    forall a, b :: a in rows && b in rows && a.status == Printing && b.status == Printing ==> a.id == b.id
  }

  lemma UpdateKeepsOne(rows: seq<JobRow>, id: nat, p: Patch)
    requires OnePrinting(rows) && (p.SetStatus? ==> p.status != Printing)
    ensures OnePrinting(Update(rows, id, p))
  {
    var out := Update(rows, id, p);
    forall x | x in out && x.status == Printing ensures exists y :: y in rows && y.status == Printing && y.id == x.id {
      var i :| 0 <= i < |out| && out[i] == x;
      assert rows[i] in rows;
    }
  }

  lemma AppendKeepsOne(rows: seq<JobRow>, r: JobRow)
    requires OnePrinting(rows) && r.status != Printing
    ensures OnePrinting(rows + [r])
  {
  }

  lemma FilterKeepsOne(rows: seq<JobRow>, keep: JobRow -> bool)
    requires OnePrinting(rows)
    ensures OnePrinting(Filter(rows, keep))
  {
    FilterMembers(rows, keep);
  }

  lemma FailEjectedJobs(d: Desk, id: nat, low: int)
    ensures FailEjected(d, id, low).desk.db.jobs == d.db.jobs
  {
  }

  lemma MarkPrinting(rows: seq<JobRow>, id: nat)
    requires forall r :: r in rows ==> r.status != Printing
    ensures OnePrinting(Update(rows, id, SetStatus(Printing, None)))
  {
    var out := Update(rows, id, SetStatus(Printing, None));
    forall x | x in out && x.status == Printing ensures x.id == id {
      var i :| 0 <= i < |out| && out[i] == x;
      assert rows[i] in rows;
    }
  }

  lemma NextKeepsOne(d: Desk)
    requires OnePrinting(d.db.jobs)
    ensures OnePrinting(NextPiece(d).desk.db.jobs)
  {
    if Choose(d.db).Start? { MarkPrinting(d.db.jobs, Choose(d.db).job); }
  }

  lemma {:induction false} PropagateKeepsOne(db: Db, rows: seq<JobRow>, project: nat, slot: int, color: string)
    requires OnePrinting(db.jobs)
    ensures OnePrinting(Propagated(db, rows, project, slot, color).jobs)
    decreases |rows|
  {
    if |rows| > 0 {
      PropagateKeepsOne(db, rows[..|rows| - 1], project, slot, color);
      UpdateKeepsOne(Propagated(db, rows[..|rows| - 1], project, slot, color).jobs, rows[|rows| - 1].id,
                     SetSubstitution(slot, color));
    }
  }

  lemma FinishKeepsOne(d: Desk, id: nat, low: int)
    requires OnePrinting(d.db.jobs)
    ensures OnePrinting(FinishPiece(d, id, low).desk.db.jobs)
  {
    hide NextPiece, OnePrinting;
    UpdateKeepsOne(d.db.jobs, id, SetStatus(Success, None));
    var job, s := GetJob(d.db, id), Swapped(Marked(d, id, Success), low);
    if s.Some? {
      var noted := Desk(s.value.db,
                        s.value.notes + [JobFinished(id, if job.Some? then job.value.substitutedColor else None)]);
      if job.Some? && job.value.substitutedColor.Some? && job.value.substitutedSlot.Some? && job.value.project.Some? {
        PropagateKeepsOne(noted.db, ListByStatus(noted.db, Queued), job.value.project.value,
                          job.value.substitutedSlot.value, job.value.substitutedColor.value);
      }
      NextKeepsOne(if job.Some? then ColorApplied(noted, job.value) else noted);
    }
  }

  lemma AbortKeepsOne(d: Desk, id: nat, low: int)
    requires OnePrinting(d.db.jobs)
    ensures OnePrinting(AbortEjected(d, id, low).desk.db.jobs)
  {
    hide NextPiece, OnePrinting;
    UpdateKeepsOne(d.db.jobs, id, SetStatus(Aborted, None));
    var s := Swapped(Marked(d, id, Aborted), low);
    if s.Some? { NextKeepsOne(Desk(s.value.db, s.value.notes + [JobAborted(id)])); }
  }

  lemma FailKeepsOne(d: Desk, id: nat, error: string)
    requires OnePrinting(d.db.jobs)
    ensures OnePrinting(FailPiece(d, id, error).db.jobs)
  {
    UpdateKeepsOne(d.db.jobs, id, SetStatus(Failed, Some(error)));
    UpdateKeepsOne(Update(d.db.jobs, id, SetStatus(Failed, Some(error))), id, BumpAttempts);
  }

  lemma {:induction false} ReorderKeepsOne(rows: seq<JobRow>, ids: seq<nat>)
    requires OnePrinting(rows)
    ensures OnePrinting(Reordered(rows, ids))
    decreases |ids|
  {
    if |ids| > 0 {
      ReorderKeepsOne(rows, ids[..|ids| - 1]);
      UpdateKeepsOne(Reordered(rows, ids[..|ids| - 1]), ids[|ids| - 1], SetPosition(|ids|));
    }
  }

  /** Every atomic piece, of the dispatcher or of a handler, keeps at most one job printing. */
  lemma StepKeepsOne(w: World, step: Step, cfg: Settings)
    requires OnePrinting(w.desk.db.jobs)
    ensures OnePrinting(Do(w, step, cfg).desk.db.jobs)
  {
    hide NextPiece, FinishPiece, AbortEjected, FailPiece, Update, Reordered, Find, Sort, OnePrinting, Filter,
         NextPosition, FailEjected, Resolve, Referenced;
    var d := w.desk;
    match step
    case CallNext => NextKeepsOne(d);
    case CallFinished(id) => FinishKeepsOne(d, id, cfg.low);
    case CallFailed(id, error) => FailKeepsOne(d, id, error);
    case CallAbort(id) =>
    case CallRetry(id) => UpdateKeepsOne(d.db.jobs, id, SetStatus(Queued, None));
    case CallEnqueue(id) => UpdateKeepsOne(d.db.jobs, id, SetStatus(Queued, None));
    case StartSettles(id, ok) => UpdateKeepsOne(d.db.jobs, id, SetStatus(Queued, None));
    case FailEjectSettles(id, ok) => FailEjectedJobs(d, id, cfg.low);
    case AbortEjectSettles(id, ok) => AbortKeepsOne(d, id, cfg.low);
    case CreateJob(project, plan) => AppendKeepsOne(d.db.jobs, NewRow(d.db, project, plan, None));
    case CloneJob(source, plate) =>
      var src := GetJob(d.db, source);
      if src.Some? { AppendKeepsOne(d.db.jobs, NewRow(d.db, src.value.project, src.value.plan, plate)); }
    case EditJob(id, patch) => if !patch.SetStatus? { UpdateKeepsOne(d.db.jobs, id, patch); }
    case DeleteJob(id) => FilterKeepsOne(d.db.jobs, OtherThan(id));
    case ReorderJobs(ids) => ReorderKeepsOne(d.db.jobs, ids);
    case SetStocker(capacity, remaining) =>
    case RefillStocker =>
    case CreateProject(p, policy) =>
    case SetPolicy(p, policy) =>
    case RaisePending(kind, severity, job, project) =>
    case ResolvePending(action) =>
  }

  /** In every interleaving, from any state that starts with at most one printing job, there is never a second. */
  lemma {:induction false} AtMostOnePrinting(w: World, steps: seq<Step>, cfg: Settings)
    requires OnePrinting(w.desk.db.jobs)
    ensures OnePrinting(Run(w, steps, cfg).desk.db.jobs)
    decreases |steps|
  {
    if |steps| > 0 {
      AtMostOnePrinting(w, steps[..|steps| - 1], cfg);
      StepKeepsOne(Run(w, steps[..|steps| - 1], cfg), steps[|steps| - 1], cfg);
    }
  }

  // ---- what a start requires ----

  /** Job `id` is printing and may be: a plate is in the stocker, nothing blocks the queue, its project is not
      paused, and every queued job before it belongs to a paused project. */
  predicate RightlyPrinting(db: Db, id: nat) {
    && IsPrinting(db, id)
    && !AnyBlockingQueue(db)
    && db.stocker.Some? && db.stocker.value.remaining > 0
    && forall r :: r in db.jobs && r.id == id ==>
         && !Paused(db.pending, r)
         && forall q :: q in db.jobs && q.status == Queued && Before(q, r) ==> Paused(db.pending, q)
  }

  /** The head of the eligible list has only paused projects' jobs queued before it. */
  lemma {:induction false} HeadIsFirst(rows: seq<JobRow>, keep: JobRow -> bool, q: JobRow)
    requires StrictlySorted(rows) && |Filter(rows, keep)| > 0 && q in rows && keep(q)
    ensures q == Filter(rows, keep)[0] || Before(Filter(rows, keep)[0], q)
    decreases |rows|
  {
    var front, last := rows[..|rows| - 1], rows[|rows| - 1];
    FilterMembers(front, keep);
    if |Filter(front, keep)| == 0 {
      assert q !in front;
      assert q == last;
    } else if q in front {
      HeadIsFirst(front, keep, q);
    } else {
      assert Filter(front, keep)[0] in front;
      var i :| 0 <= i < |front| && front[i] == Filter(front, keep)[0];
      assert Before(rows[i], last);
    }
  }

  lemma NextStartsRightly(d: Desk)
    requires Consistent(d.db) && NextPiece(d).start.Some?
    ensures RightlyPrinting(NextPiece(d).desk.db, NextPiece(d).start.value)
  {
    hide Filter, Sort, Find, Consistent;
    var db, head := d.db, Eligible(d.db)[0];
    FilterMembers(ListJobs(db), CanStart(db.pending));
    SortMembers(db.jobs);
    assert head in Eligible(db);
    HeadStarts(db, head);
    FindUpdate(db.jobs, head.id, SetStatus(Printing, None), head.id);
    FindRow(db, head);
  }

  lemma FindRow(db: Db, r: JobRow)
    requires Consistent(db) && r in db.jobs
    ensures GetJob(db, r.id) == Some(r)
  {
    var k :| 0 <= k < |db.jobs| && db.jobs[k] == r;
    FindUnique(db.jobs, k);
  }

  lemma HeadStarts(db: Db, head: JobRow)
    requires Consistent(db) && |Eligible(db)| > 0 && head == Eligible(db)[0]
    ensures head in db.jobs
    ensures var out := Patched(db, head.id, SetStatus(Printing, None));
            forall r :: r in out.jobs && r.id == head.id ==>
              && !Paused(db.pending, r)
              && forall q :: q in out.jobs && q.status == Queued && Before(q, r) ==> Paused(db.pending, q)
  {
    hide Filter, Sort, Update;
    var out := Patched(db, head.id, SetStatus(Printing, None));
    FilterMembers(ListJobs(db), CanStart(db.pending));
    SortMembers(db.jobs);
    SortSorted(db.jobs);
    assert head in Eligible(db);
    forall r, q | r in out.jobs && r.id == head.id && q in out.jobs && q.status == Queued && Before(q, r)
      ensures Paused(db.pending, q)
    {
      StartedRow(db, head, r, q);
      if !Paused(db.pending, q) { HeadIsFirst(ListJobs(db), CanStart(db.pending), q); }
    }
    forall r | r in out.jobs && r.id == head.id ensures !Paused(db.pending, r) {
      StartedRow(db, head, r, r);
    }
  }

  lemma StartedRow(db: Db, head: JobRow, r: JobRow, q: JobRow)
    requires Consistent(db) && head in db.jobs
    requires r in Update(db.jobs, head.id, SetStatus(Printing, None)) && r.id == head.id
    requires q in Update(db.jobs, head.id, SetStatus(Printing, None))
    ensures r == Apply(SetStatus(Printing, None), head)
    ensures q.status == Queued ==> q in db.jobs
  {
    var out := Update(db.jobs, head.id, SetStatus(Printing, None));
    var i :| 0 <= i < |out| && out[i] == r;
    var j :| 0 <= j < |out| && out[j] == q;
    var k :| 0 <= k < |db.jobs| && db.jobs[k] == head;
    assert i == k;
    assert db.jobs[j] in db.jobs;
  }

  // ---- every piece keeps the schema's constraints ----

  lemma SwapKeepsConsistent(d: Desk, low: int)
    requires Consistent(d.db) && Swapped(d, low).Some?
    ensures Consistent(Swapped(d, low).value.db) && Swapped(d, low).value.db.jobs == d.db.jobs
  {
  }

  lemma NextKeepsConsistent(d: Desk)
    requires Consistent(d.db)
    ensures Consistent(NextPiece(d).desk.db)
  {
    hide Choose, Eligible;
    if Choose(d.db).Start? { PatchConsistent(d.db, Choose(d.db).job, SetStatus(Printing, None)); }
  }

  lemma {:induction false} PropagateKeepsConsistent(db: Db, rows: seq<JobRow>, project: nat, slot: int, color: string)
    requires Consistent(db)
    ensures Consistent(Propagated(db, rows, project, slot, color))
    decreases |rows|
  {
    if |rows| > 0 {
      PropagateKeepsConsistent(db, rows[..|rows| - 1], project, slot, color);
      PatchConsistent(Propagated(db, rows[..|rows| - 1], project, slot, color), rows[|rows| - 1].id,
                      SetSubstitution(slot, color));
    }
  }

  /** The desk on which a finish, or an abort, looks for the next job. */
  function FinishedBeforeNext(d: Desk, id: nat, low: int): Desk {
    var job, s := GetJob(d.db, id), Swapped(Marked(d, id, Success), low);
    if s.None? then Marked(d, id, Success)
    else
      var noted := Desk(s.value.db,
                        s.value.notes + [JobFinished(id, if job.Some? then job.value.substitutedColor else None)]);
      if job.Some? then ColorApplied(noted, job.value) else noted
  }

  function AbortedBeforeNext(d: Desk, id: nat, low: int): Desk {
    var s := Swapped(Marked(d, id, Aborted), low);
    if s.None? then Marked(d, id, Aborted) else Desk(s.value.db, s.value.notes + [JobAborted(id)])
  }

  lemma FinishedConsistent(d: Desk, id: nat, low: int)
    requires Consistent(d.db)
    ensures Consistent(FinishedBeforeNext(d, id, low).db)
  {
    hide Consistent, Update;
    PatchConsistent(d.db, id, SetStatus(Success, None));
    FindUpdate(d.db.jobs, id, SetStatus(Success, None), id);
    var job, s := GetJob(d.db, id), Swapped(Marked(d, id, Success), low);
    if s.Some? {
      SwapKeepsConsistent(Marked(d, id, Success), low);
      if job.Some? && job.value.substitutedColor.Some? && job.value.project.Some? {
        PendingKeepsConsistent(s.value.db, ColorDecision, BlockingJob, Some(id), job.value.project);
        if job.value.substitutedSlot.Some? {
          PropagateKeepsConsistent(s.value.db, ListByStatus(s.value.db, Queued), job.value.project.value,
                                   job.value.substitutedSlot.value, job.value.substitutedColor.value);
        }
      }
    }
  }

  lemma AbortedConsistent(d: Desk, id: nat, low: int)
    requires Consistent(d.db)
    ensures Consistent(AbortedBeforeNext(d, id, low).db)
  {
    hide Consistent, Update;
    PatchConsistent(d.db, id, SetStatus(Aborted, None));
    if Swapped(Marked(d, id, Aborted), low).Some? { SwapKeepsConsistent(Marked(d, id, Aborted), low); }
  }

  lemma FailConsistent(d: Desk, id: nat, error: string)
    requires Consistent(d.db)
    ensures Consistent(FailPiece(d, id, error).db)
  {
    PatchConsistent(d.db, id, SetStatus(Failed, Some(error)));
    PatchConsistent(Patched(d.db, id, SetStatus(Failed, Some(error))), id, BumpAttempts);
  }

  lemma FailEjectedConsistent(d: Desk, id: nat, low: int)
    requires Consistent(d.db)
    ensures Consistent(FailEjected(d, id, low).desk.db)
  {
    hide Consistent;
    if Swapped(d, low).Some? {
      SwapKeepsConsistent(d, low);
      if GetJob(Swapped(d, low).value.db, id).Some? {
        PendingKeepsConsistent(Swapped(d, low).value.db, RetryDecision, BlockingJob, Some(id), None);
      }
    }
  }

  lemma CloneConsistent(db: Db, source: nat, plate: Option<string>)
    requires Consistent(db) && GetJob(db, source).Some? && PlateAllowed(plate)
    ensures Consistent(Cloned(db, GetJob(db, source).value, plate))
  {
    CloneAppends(db, source, plate);
  }

  /** Every atomic piece leaves tables that satisfy the schema. */
  lemma StepConsistent(w: World, step: Step, cfg: Settings)
    requires Consistent(w.desk.db)
    ensures Consistent(Do(w, step, cfg).desk.db)
  {
    hide Consistent, NextPiece, Update, Reordered, Find, Sort, Resolve, Swapped, ColorApplied, PlateAllowed;
    var d := w.desk;
    match step
    case CallNext => NextKeepsConsistent(d);
    case CallFinished(id) =>
      FinishedConsistent(d, id, cfg.low);
      NextKeepsConsistent(FinishedBeforeNext(d, id, cfg.low));
    case CallFailed(id, error) => FailConsistent(d, id, error);
    case CallAbort(id) =>
    case CallRetry(id) =>
      PatchConsistent(d.db, id, SetStatus(Queued, None));
      if GetJob(d.db, id).Some? { PendingKeepsConsistent(d.db, MechanicalCheck, Advisory, Some(id), None); }
    case CallEnqueue(id) => PatchConsistent(d.db, id, SetStatus(Queued, None));
    case StartSettles(id, ok) => PatchConsistent(d.db, id, SetStatus(Queued, None));
    case FailEjectSettles(id, ok) => FailEjectedConsistent(d, id, cfg.low);
    case AbortEjectSettles(id, ok) =>
      AbortedConsistent(d, id, cfg.low);
      NextKeepsConsistent(AbortedBeforeNext(d, id, cfg.low));
    case CreateJob(project, plan) =>
      if project.Some? ==> project.value in d.db.projects { CreateAppends(d.db, project, plan); }
    case CloneJob(source, plate) =>
      if GetJob(d.db, source).Some? && PlateAllowed(plate) { CloneConsistent(d.db, source, plate); }
    case EditJob(id, patch) =>
      if Permitted(d.db, patch) { PatchConsistent(d.db, id, patch); }
    case DeleteJob(id) => if !Referenced(d.db, id) { DeleteRemoves(d.db, id); }
    case ReorderJobs(ids) => ReorderedConsistent(d.db, ids);
    case SetStocker(capacity, remaining) => StockerConsistent(d.db, capacity, remaining);
    case RefillStocker => StockerConsistent(d.db, 0, 0);
    case CreateProject(p, policy) => ProjectsConsistent(d.db, p, policy);
    case SetPolicy(p, policy) => ProjectsConsistent(d.db, p, policy);
    case RaisePending(kind, severity, job, project) =>
      if CanReference(d.db, job, project) { PendingKeepsConsistent(d.db, kind, severity, job, project); }
    case ResolvePending(action) => ResolveConsistent(d.db, action);
  }

  lemma ProjectsConsistent(db: Db, p: nat, policy: Policy)
    requires Consistent(db)
    ensures Consistent(db.(projects := db.projects[p := policy]))
  {
    hide Find, DistinctIds;
  }

  lemma StockerConsistent(db: Db, capacity: int, remaining: int)
    requires Consistent(db)
    ensures StockerSet(db, capacity, remaining).Some? ==> Consistent(StockerSet(db, capacity, remaining).value)
    ensures Consistent(Refilled(db))
  {
  }

  /** Whenever a piece suspends at a start, the started job was entitled to start: the tables it leaves
      show a plate, no queue block, and only paused projects' jobs queued before it. */
  lemma StartsRightly(w: World, step: Step, cfg: Settings, id: nat)
    requires Consistent(w.desk.db)
    requires var v := Do(w, step, cfg); v.threads[StartPending(id)] > w.threads[StartPending(id)]
    ensures RightlyPrinting(Do(w, step, cfg).desk.db, id)
  {
    hide NextPiece, RightlyPrinting, Find, Sort, Update, Consistent, Swapped, ColorApplied, Reordered, Filter, Resolve,
         FailEjected, FailPiece, Permitted, PlateAllowed, CanReference, Referenced;
    var d := w.desk;
    match step
    case CallNext => NextStartsRightly(d);
    case CallFinished(job) =>
      FinishedConsistent(d, job, cfg.low);
      if FinishPiece(d, job, cfg.low).start.Some? { NextStartsRightly(FinishedBeforeNext(d, job, cfg.low)); }
    case AbortEjectSettles(job, ok) =>
      AbortedConsistent(d, job, cfg.low);
      if ok && AbortEjected(d, job, cfg.low).start.Some? { NextStartsRightly(AbortedBeforeNext(d, job, cfg.low)); }
    case _ =>
  }

  /** In every interleaving each start obeys the queue rules, and the schema's constraints hold throughout. */
  lemma {:induction false} EveryStartIsRight(w: World, steps: seq<Step>, cfg: Settings, k: nat, id: nat)
    requires Consistent(w.desk.db) && k < |steps|
    ensures Consistent(Run(w, steps[..k], cfg).desk.db)
    ensures var before, after := Run(w, steps[..k], cfg), Run(w, steps[..k + 1], cfg);
            after.threads[StartPending(id)] > before.threads[StartPending(id)] ==> RightlyPrinting(after.desk.db, id)
    decreases k
  {
    hide Consistent, Do, RightlyPrinting;
    assert steps[..k + 1][..k] == steps[..k];
    if k > 0 {
      EveryStartIsRight(w, steps, cfg, k - 1, id);
      assert steps[..k][..k - 1] == steps[..k - 1];
      StepConsistent(Run(w, steps[..k - 1], cfg), steps[k - 1], cfg);
    }
    var before := Run(w, steps[..k], cfg);
    if Do(before, steps[k], cfg).threads[StartPending(id)] > before.threads[StartPending(id)] {
      StartsRightly(before, steps[k], cfg, id);
    }
  }
}
