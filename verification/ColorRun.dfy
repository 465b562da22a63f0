/**
 Colour consistency over a run (src/core/dispatcher.ts): what a substituted colour does to the rest of
 its project. A strict project starts nothing, in any interleaving, until its decision is resolved; in a
 propagating project every job queued at that moment carries a substitution from then on and announces it.
 */
module ColorRun {
  import opened Wrappers
  import opened QueueStore
  import opened Dispatch
  import opened Interleaving

  // ---- strict projects ----

  /** Action `a` is an unresolved colour decision for project p. */
  predicate Waiting(db: Db, a: nat, p: nat) {
    exists i :: 0 <= i < |db.pending| && db.pending[i].id == a && !db.pending[i].resolved
              && db.pending[i].kind == ColorDecision && db.pending[i].project == Some(p)
  }

  /** When a plate with a substituted colour finishes in a strict project, a decision is asked for, and the
      job that starts next, if any, is not of that project. */
  lemma StrictFinishAsks(d: Desk, id: nat, low: int, p: nat)
    requires Consistent(d.db) && IsPrinting(d.db, id)
    requires var job := GetJob(d.db, id).value;
             job.substitutedColor.Some? && job.project == Some(p) && d.db.projects[p] == Strict
    requires Swapped(Marked(d, id, Success), low).Some?
    ensures var c := FinishPiece(d, id, low);
            && Waiting(c.desk.db, d.db.nextPending, p)
            && !c.threw
            && (c.start.Some? ==> RightlyPrinting(c.desk.db, c.start.value) && NotOf(c.desk.db, c.start.value, p))
  {
    assert p in d.db.projects;
    hide NextPiece, Consistent, Update, Find, RightlyPrinting, Paused;
    var b := FinishedBeforeNext(d, id, low);
    FinishedConsistent(d, id, low);
    assert b.db.pending
           == d.db.pending + [PendingRow(d.db.nextPending, ColorDecision, BlockingJob, Some(id), Some(p), false)] by {
      GetJobId(d.db, id);
    }
    assert b.db.pending[|d.db.pending|].id == d.db.nextPending;
    assert Waiting(b.db, d.db.nextPending, p);
    NextKeepsWaiting(b, d.db.nextPending, p);
    if NextPiece(b).start.Some? {
      NextStartsRightly(b);
      WaitingStops(NextPiece(b).desk.db, d.db.nextPending, p, NextPiece(b).start.value);
    }
    NextDoesNotThrow(b);
  }

  lemma GetJobId(db: Db, id: nat)
    requires GetJob(db, id).Some?
    ensures GetJob(db, id).value.id == id
  {
  }

  lemma NextDoesNotThrow(d: Desk)
    ensures !NextPiece(d).threw
  {
  }

  predicate NotOf(db: Db, id: nat, p: nat) { GetJob(db, id).Some? ==> GetJob(db, id).value.project != Some(p) }

  lemma WaitingStops(db: Db, a: nat, p: nat, id: nat)
    requires Waiting(db, a, p) && RightlyPrinting(db, id)
    ensures NotOf(db, id, p)
  {
    var r := GetJob(db, id).value;
    assert r in db.jobs;
    if r.project == Some(p) { WaitingPauses(db, a, p, r); }
  }

  lemma WaitingPauses(db: Db, a: nat, p: nat, r: JobRow)
    requires Waiting(db, a, p) && r.project == Some(p)
    ensures Paused(db.pending, r)
  {
  }

  lemma AppendKeepsWaiting(db: Db, e: Db, a: nat, p: nat)
    requires Waiting(db, a, p) && |e.pending| >= |db.pending| && e.pending[..|db.pending|] == db.pending
    ensures Waiting(e, a, p)
  {
    var i :| 0 <= i < |db.pending| && db.pending[i].id == a && !db.pending[i].resolved
             && db.pending[i].kind == ColorDecision && db.pending[i].project == Some(p);
    assert e.pending[..|db.pending|][i] == e.pending[i];
  }

  predicate Grown(db: Db, e: Db) { |e.pending| >= |db.pending| && e.pending[..|db.pending|] == db.pending }

  lemma NextGrows(d: Desk)
    ensures Grown(d.db, NextPiece(d).desk.db)
  {
  }

  lemma NextKeepsWaiting(d: Desk, a: nat, p: nat)
    requires Waiting(d.db, a, p)
    ensures Waiting(NextPiece(d).desk.db, a, p)
  {
    NextGrows(d);
    AppendKeepsWaiting(d.db, NextPiece(d).desk.db, a, p);
  }

  lemma {:induction false} PropagatedPending(db: Db, rows: seq<JobRow>, project: nat, slot: int, color: string)
    ensures Propagated(db, rows, project, slot, color).pending == db.pending
    decreases |rows|
  {
    if |rows| > 0 { PropagatedPending(db, rows[..|rows| - 1], project, slot, color); }
  }

  lemma FinishGrows(d: Desk, id: nat, low: int)
    ensures Grown(d.db, FinishPiece(d, id, low).desk.db)
  {
    hide NextPiece, Update, Find, Sort, Propagated;
    var b := FinishedBeforeNext(d, id, low);
    var job, s := GetJob(d.db, id), Swapped(Marked(d, id, Success), low);
    if s.Some? && job.Some? && job.value.substitutedColor.Some? && job.value.substitutedSlot.Some?
        && job.value.project.Some? {
      PropagatedPending(s.value.db, ListByStatus(s.value.db, Queued), job.value.project.value,
                        job.value.substitutedSlot.value, job.value.substitutedColor.value);
    }
    assert Grown(d.db, b.db);
    NextGrows(b);
  }

  lemma AbortGrows(d: Desk, id: nat, low: int)
    ensures Grown(d.db, AbortEjected(d, id, low).desk.db)
  {
    hide NextPiece, Update;
    NextGrows(AbortedBeforeNext(d, id, low));
  }

  lemma FailEjectedGrows(d: Desk, id: nat, low: int)
    ensures Grown(d.db, FailEjected(d, id, low).desk.db)
  {
  }

  lemma StockerGrows(db: Db, capacity: int, remaining: int)
    ensures StockerSet(db, capacity, remaining).Some? ==> Grown(db, StockerSet(db, capacity, remaining).value)
  {
  }

  lemma SameGrows(db: Db, e: Db)
    requires e.pending == db.pending
    ensures Grown(db, e)
  {
  }

  lemma RaiseGrows(db: Db, kind: PendingType, severity: Severity, job: Option<nat>, project: Option<nat>)
    ensures Grown(db, WithPending(db, kind, severity, job, project))
  {
  }

  lemma FailGrows(d: Desk, id: nat, error: string)
    ensures Grown(d.db, FailPiece(d, id, error).db)
  {
    hide Update, Find;
  }

  lemma RetryGrows(d: Desk, id: nat, limit: int)
    ensures Grown(d.db, Retried(d, id, limit).0.db)
  {
    hide Update, Find;
  }

  /** Pending actions are only ever appended, apart from being resolved. */
  lemma StepGrows(w: World, step: Step, cfg: Settings)
    requires !step.ResolvePending?
    ensures Grown(w.desk.db, Do(w, step, cfg).desk.db)
  {
    hide NextPiece, FinishPiece, AbortEjected, FailEjected, FailPiece, Retried, Update, Find, Reordered, Filter, Sort,
         NextPosition, Referenced, Resolve, StockerSet, Permitted, PlateAllowed, CanReference, IsPrinting, Grown;
    SameGrows(w.desk.db, w.desk.db);
    match step
    case CallNext => NextGrows(w.desk);
    case CallFinished(id) => FinishGrows(w.desk, id, cfg.low);
    case CallFailed(id, error) => FailGrows(w.desk, id, error);
    case CallRetry(id) => RetryGrows(w.desk, id, cfg.retryLimit);
    case FailEjectSettles(id, ok) => FailEjectedGrows(w.desk, id, cfg.low);
    case AbortEjectSettles(id, ok) => AbortGrows(w.desk, id, cfg.low);
    case SetStocker(capacity, remaining) => StockerGrows(w.desk.db, capacity, remaining);
    case RaisePending(kind, severity, job, project) => RaiseGrows(w.desk.db, kind, severity, job, project);
    case _ => SameGrows(w.desk.db, Do(w, step, cfg).desk.db);
  }

  /** A decision waits through every step but its own resolution. */
  lemma StepKeepsWaiting(w: World, step: Step, cfg: Settings, a: nat, p: nat)
    requires Waiting(w.desk.db, a, p) && step != ResolvePending(a)
    ensures Waiting(Do(w, step, cfg).desk.db, a, p)
  {
    hide Waiting;
    if step.ResolvePending? {
      ResolveKeepsWaiting(w.desk.db, step.action, a, p);
    } else {
      hide Do;
      StepGrows(w, step, cfg);
      AppendKeepsWaiting(w.desk.db, Do(w, step, cfg).desk.db, a, p);
    }
  }

  lemma ResolveKeepsWaiting(db: Db, other: nat, a: nat, p: nat)
    requires Waiting(db, a, p) && other != a
    ensures Waiting(Resolved(db, other), a, p)
  {
    var i :| 0 <= i < |db.pending| && db.pending[i].id == a && !db.pending[i].resolved
             && db.pending[i].kind == ColorDecision && db.pending[i].project == Some(p);
    assert Resolved(db, other).pending[i] == db.pending[i];
  }

  /** In every interleaving that does not resolve the decision it keeps waiting, and no job of the project
      starts; what starts instead is the first queued job of a project that is not paused. */
  lemma {:induction false} StrictProjectPaused(w: World, steps: seq<Step>, cfg: Settings, a: nat, p: nat)
    requires Consistent(w.desk.db) && Waiting(w.desk.db, a, p)
    requires forall i :: 0 <= i < |steps| ==> steps[i] != ResolvePending(a)
    ensures Consistent(Run(w, steps, cfg).desk.db) && Waiting(Run(w, steps, cfg).desk.db, a, p)
    ensures forall k, id :: 0 <= k < |steps| && Starts(w, steps, cfg, k, id) ==>
              RightlyPrinting(Run(w, steps[..k + 1], cfg).desk.db, id)
                && NotOf(Run(w, steps[..k + 1], cfg).desk.db, id, p)
    decreases |steps|
  {
    hide Consistent, Waiting, Do, RightlyPrinting, NotOf;
    if |steps| > 0 {
      var n, front := |steps| - 1, steps[..|steps| - 1];
      StrictProjectPaused(w, front, cfg, a, p);
      var v := Run(w, front, cfg);
      StepConsistent(v, steps[n], cfg);
      StepKeepsWaiting(v, steps[n], cfg, a, p);
      forall k, id | 0 <= k < |steps| && Starts(w, steps, cfg, k, id)
        ensures RightlyPrinting(Run(w, steps[..k + 1], cfg).desk.db, id)
                && NotOf(Run(w, steps[..k + 1], cfg).desk.db, id, p)
      {
        if k < n {
          assert front[..k] == steps[..k] && front[..k + 1] == steps[..k + 1];
          assert Starts(w, front, cfg, k, id);
        } else {
          assert steps[..k + 1] == steps && steps[..k] == front;
          StartsRightly(v, steps[n], cfg, id);
          WaitingStops(Run(w, steps, cfg).desk.db, a, p, id);
        }
      }
    }
  }

  /** The k-th step starts job `id`. */
  predicate Starts(w: World, steps: seq<Step>, cfg: Settings, k: nat, id: nat)
    requires k < |steps|
  {
    Run(w, steps[..k + 1], cfg).threads[StartPending(id)] > Run(w, steps[..k], cfg).threads[StartPending(id)]
  }

  // ---- propagating projects ----

  predicate Carries(db: Db, q: nat, slot: int, color: string) {
    GetJob(db, q).Some? && GetJob(db, q).value.substitutedSlot == Some(slot)
      && GetJob(db, q).value.substitutedColor == Some(color)
  }

  lemma {:induction false} PropagatedCarries(db: Db, rows: seq<JobRow>, project: nat, slot: int, color: string,
                                             row: JobRow)
    requires GetJob(db, row.id).Some? && row in rows && row.project == Some(project)
    ensures Carries(Propagated(db, rows, project, slot, color), row.id, slot, color)
    decreases |rows|
  {
    var front, last := rows[..|rows| - 1], rows[|rows| - 1];
    FindUpdate(Propagated(db, front, project, slot, color).jobs, last.id, SetSubstitution(slot, color), row.id);
    PropagatedKeeps(db, front, project, slot, color, row.id);
    if row in front {
      PropagatedCarries(db, front, project, slot, color, row);
    } else {
      assert rows == front + [last];
    }
  }

  lemma {:induction false} PropagatedKeeps(db: Db, rows: seq<JobRow>, project: nat, slot: int, color: string, q: nat)
    requires GetJob(db, q).Some?
    ensures GetJob(Propagated(db, rows, project, slot, color), q).Some?
    decreases |rows|
  {
    if |rows| > 0 {
      PropagatedKeeps(db, rows[..|rows| - 1], project, slot, color, q);
      FindUpdate(Propagated(db, rows[..|rows| - 1], project, slot, color).jobs, rows[|rows| - 1].id,
                 SetSubstitution(slot, color), q);
    }
  }

  /** When a plate with a substituted colour finishes in a propagating project, every job of the project
      that is queued at that moment carries the same substitution afterwards. */
  lemma PropagateFinishMarks(d: Desk, id: nat, low: int, p: nat, q: nat)
    requires Consistent(d.db) && IsPrinting(d.db, id)
    requires var job := GetJob(d.db, id).value;
             job.substitutedColor.Some? && job.substitutedSlot.Some? && job.project == Some(p)
               && d.db.projects[p] == Propagate
    requires Swapped(Marked(d, id, Success), low).Some?
    requires GetJob(d.db, q).Some? && GetJob(d.db, q).value.status == Queued && GetJob(d.db, q).value.project == Some(p)
    ensures var job := GetJob(d.db, id).value;
            Carries(FinishPiece(d, id, low).desk.db, q, job.substitutedSlot.value, job.substitutedColor.value)
  {
    hide NextPiece, FinishedBeforeNext, Consistent, Find, Swapped;
    PropagatedBeforeNext(d, id, low, p, q);
    FinishIsNext(d, id, low);
    NextKeepsRow(FinishedBeforeNext(d, id, low), q);
  }

  lemma FinishIsNext(d: Desk, id: nat, low: int)
    requires Swapped(Marked(d, id, Success), low).Some?
    ensures FinishPiece(d, id, low) == NextPiece(FinishedBeforeNext(d, id, low))
  {
    hide NextPiece, ColorApplied;
  }

  lemma PropagatedBeforeNext(d: Desk, id: nat, low: int, p: nat, q: nat)
    requires Consistent(d.db) && IsPrinting(d.db, id)
    requires var job := GetJob(d.db, id).value;
             job.substitutedColor.Some? && job.substitutedSlot.Some? && job.project == Some(p)
               && d.db.projects[p] == Propagate
    requires Swapped(Marked(d, id, Success), low).Some?
    requires GetJob(d.db, q).Some? && GetJob(d.db, q).value.status == Queued && GetJob(d.db, q).value.project == Some(p)
    ensures var job := GetJob(d.db, id).value;
            Carries(FinishedBeforeNext(d, id, low).db, q, job.substitutedSlot.value, job.substitutedColor.value)
  {
    ProjectExists(d.db, id);
    SwapKeepsQueued(d, id, low, q);
    hide NextPiece, Consistent, Update, Find, Sort, Filter, Propagated, Carries, IsPrinting, ListByStatus;
    var job := GetJob(d.db, id).value;
    var s := Swapped(Marked(d, id, Success), low).value;
    ListedQueued(s.db, q);
    PropagatedCarries(s.db, ListByStatus(s.db, Queued), p, job.substitutedSlot.value, job.substitutedColor.value,
                      GetJob(s.db, q).value);
  }

  lemma SwapKeepsQueued(d: Desk, id: nat, low: int, q: nat)
    requires IsPrinting(d.db, id) && GetJob(d.db, q).Some? && GetJob(d.db, q).value.status == Queued
    requires Swapped(Marked(d, id, Success), low).Some?
    ensures GetJob(Swapped(Marked(d, id, Success), low).value.db, q) == GetJob(d.db, q)
    ensures Swapped(Marked(d, id, Success), low).value.db.projects == d.db.projects
  {
    hide Update, Find;
    FindUpdate(d.db.jobs, id, SetStatus(Success, None), q);
  }

  lemma ProjectExists(db: Db, id: nat)
    requires Consistent(db) && GetJob(db, id).Some? && GetJob(db, id).value.project.Some?
    ensures GetJob(db, id).value.project.value in db.projects
  {
    hide Find, References, DistinctIds, PlateAllowed;
  }

  lemma ListedQueued(db: Db, q: nat)
    requires GetJob(db, q).Some? && GetJob(db, q).value.status == Queued
    ensures GetJob(db, q).value in ListByStatus(db, Queued) && GetJob(db, q).value.id == q
  {
    SortMembers(Filter(db.jobs, HasStatus(Queued)));
    FilterMembers(db.jobs, HasStatus(Queued));
  }

  /** Two rows agree on everything that a start or a finish does not touch. */
  predicate SameSubstitution(a: Option<JobRow>, b: Option<JobRow>) {
    && (a.Some? <==> b.Some?)
    && (a.Some? ==> a.value.substitutedSlot == b.value.substitutedSlot)
    && (a.Some? ==> a.value.substitutedColor == b.value.substitutedColor)
  }

  lemma NextKeepsRow(d: Desk, q: nat)
    ensures SameSubstitution(GetJob(d.db, q), GetJob(NextPiece(d).desk.db, q))
  {
    hide Choose, Update, Find;
    if Choose(d.db).Start? { FindUpdate(d.db.jobs, Choose(d.db).job, SetStatus(Printing, None), q); }
  }

  /** Job q carries some substitution. */
  predicate Substituted(db: Db, q: nat) { GetJob(db, q).Some? && GetJob(db, q).value.substitutedColor.Some? }

  lemma PatchKeepsSubstituted(db: Db, id: nat, p: Patch, q: nat)
    requires Substituted(db, q)
    ensures Substituted(Patched(db, id, p), q)
  {
    FindUpdate(db.jobs, id, p, q);
  }

  lemma {:induction false} PropagateKeepsSubstituted(db: Db, rows: seq<JobRow>, project: nat, slot: int, color: string,
                                                     q: nat)
    requires Substituted(db, q)
    ensures Substituted(Propagated(db, rows, project, slot, color), q)
    decreases |rows|
  {
    if |rows| > 0 {
      PropagateKeepsSubstituted(db, rows[..|rows| - 1], project, slot, color, q);
      PatchKeepsSubstituted(Propagated(db, rows[..|rows| - 1], project, slot, color), rows[|rows| - 1].id,
                            SetSubstitution(slot, color), q);
    }
  }

  lemma FinishKeepsSubstituted(d: Desk, id: nat, low: int, q: nat)
    requires Substituted(d.db, q)
    ensures Substituted(FinishPiece(d, id, low).desk.db, q)
  {
    hide NextPiece, Update, Find, Sort, Filter, Propagated;
    PatchKeepsSubstituted(d.db, id, SetStatus(Success, None), q);
    var job, s := GetJob(d.db, id), Swapped(Marked(d, id, Success), low);
    if s.Some? && job.Some? && job.value.substitutedColor.Some? && job.value.substitutedSlot.Some?
        && job.value.project.Some? {
      PropagateKeepsSubstituted(s.value.db, ListByStatus(s.value.db, Queued), job.value.project.value,
                                job.value.substitutedSlot.value, job.value.substitutedColor.value, q);
    }
    NextKeepsRow(FinishedBeforeNext(d, id, low), q);
  }

  lemma AbortKeepsSubstituted(d: Desk, id: nat, low: int, q: nat)
    requires Substituted(d.db, q)
    ensures Substituted(AbortEjected(d, id, low).desk.db, q)
  {
    hide NextPiece, Update, Find;
    PatchKeepsSubstituted(d.db, id, SetStatus(Aborted, None), q);
    NextKeepsRow(AbortedBeforeNext(d, id, low), q);
  }

  lemma {:induction false} ReorderKeepsSubstituted(db: Db, ids: seq<nat>, q: nat)
    requires Substituted(db, q)
    ensures Substituted(db.(jobs := Reordered(db.jobs, ids)), q)
    decreases |ids|
  {
    if |ids| > 0 {
      ReorderKeepsSubstituted(db, ids[..|ids| - 1], q);
      PatchKeepsSubstituted(db.(jobs := Reordered(db.jobs, ids[..|ids| - 1])), ids[|ids| - 1], SetPosition(|ids|), q);
    }
  }

  lemma AppendKeepsSubstituted(db: Db, r: JobRow, q: nat)
    requires Consistent(db) && Substituted(db, q) && r.id == db.nextJob
    ensures Substituted(Inserted(db, r), q)
  {
    assert (db.jobs + [r])[..|db.jobs|] == db.jobs;
  }

  lemma {:induction false} FilterKeepsRow(rows: seq<JobRow>, id: nat, q: nat)
    requires q != id
    ensures Find(Filter(rows, OtherThan(id)), q) == Find(rows, q)
    decreases |rows|
  {
    if |rows| > 0 {
      var front, last := Filter(rows[..|rows| - 1], OtherThan(id)), rows[|rows| - 1];
      FilterKeepsRow(rows[..|rows| - 1], id, q);
      if last.id != id {
        assert (front + [last])[..|front|] == front;
      } else {
        assert front + [] == front;
      }
    }
  }

  /** No step but deleting the job takes its substitution away. */
  lemma StepKeepsSubstituted(w: World, step: Step, cfg: Settings, q: nat)
    requires Consistent(w.desk.db) && Substituted(w.desk.db, q)
    requires step != DeleteJob(q)
    ensures Substituted(Do(w, step, cfg).desk.db, q)
  {
    hide NextPiece, FinishPiece, AbortEjected, FailEjected, Update, Reordered, Find, Filter, NextPosition, Consistent,
         Referenced;
    var d := w.desk;
    match step
    case CallNext => NextKeepsRow(d, q);
    case CallFinished(id) => FinishKeepsSubstituted(d, id, cfg.low, q);
    case CallFailed(id, error) =>
      PatchKeepsSubstituted(d.db, id, SetStatus(Failed, Some(error)), q);
      PatchKeepsSubstituted(Patched(d.db, id, SetStatus(Failed, Some(error))), id, BumpAttempts, q);
    case CallAbort(id) =>
    case CallRetry(id) => PatchKeepsSubstituted(d.db, id, SetStatus(Queued, None), q);
    case CallEnqueue(id) => PatchKeepsSubstituted(d.db, id, SetStatus(Queued, None), q);
    case StartSettles(id, ok) => PatchKeepsSubstituted(d.db, id, SetStatus(Queued, None), q);
    case FailEjectSettles(id, ok) => FailEjectedJobs(d, id, cfg.low);
    case AbortEjectSettles(id, ok) => AbortKeepsSubstituted(d, id, cfg.low, q);
    case CreateJob(project, plan) => AppendKeepsSubstituted(d.db, NewRow(d.db, project, plan, None), q);
    case CloneJob(source, plate) =>
      var src := GetJob(d.db, source);
      if src.Some? { AppendKeepsSubstituted(d.db, NewRow(d.db, src.value.project, src.value.plan, plate), q); }
    case EditJob(id, patch) => PatchKeepsSubstituted(d.db, id, patch, q);
    case DeleteJob(id) => FilterKeepsRow(d.db.jobs, id, q);
    case ReorderJobs(ids) => ReorderKeepsSubstituted(d.db, ids, q);
    case SetStocker(capacity, remaining) =>
    case RefillStocker =>
    case CreateProject(p, policy) =>
    case SetPolicy(p, policy) =>
    case RaisePending(kind, severity, about, forProject) =>
    case ResolvePending(action) =>
  }

  /** Between the two desks, the finish of job q has been announced with its substitution. */
  predicate Announced(d: Desk, e: Desk, q: nat)
    requires GetJob(d.db, q).Some?
  {
    exists i :: |d.notes| <= i < |e.notes| && e.notes[i] == JobFinished(q, GetJob(d.db, q).value.substitutedColor)
  }

  /** A finish of a job that carries a substitution tells so, unless the stocker CHECK cut it short. */
  lemma FinishAnnounces(d: Desk, q: nat, low: int)
    requires Substituted(d.db, q)
    ensures var c := FinishPiece(d, q, low);
            c.threw || Announced(d, c.desk, q)
  {
    hide NextPiece, Update, Find, Propagated;
    var s := Swapped(Marked(d, q, Success), low);
    if s.Some? {
      var b := FinishedBeforeNext(d, q, low);
      var k := |s.value.notes|;
      assert b.notes[k] == JobFinished(q, GetJob(d.db, q).value.substitutedColor);
      NextKeepsNotes(b);
      assert NextPiece(b).desk.notes[k] == b.notes[k];
    }
  }

  lemma NextKeepsNotes(d: Desk)
    ensures |NextPiece(d).desk.notes| >= |d.notes| && NextPiece(d).desk.notes[..|d.notes|] == d.notes
    ensures forall i :: 0 <= i < |d.notes| ==> NextPiece(d).desk.notes[i] == d.notes[i]
  {
  }

  /** In every interleaving that does not delete the job, a substitution once carried stays, and every
      later finish of the job announces it unless the stocker CHECK cut that finish short. */
  lemma {:induction false} SubstitutionAnnounced(w: World, steps: seq<Step>, cfg: Settings, q: nat)
    requires Consistent(w.desk.db) && Substituted(w.desk.db, q)
    requires forall i :: 0 <= i < |steps| ==> steps[i] != DeleteJob(q)
    ensures Consistent(Run(w, steps, cfg).desk.db) && Substituted(Run(w, steps, cfg).desk.db, q)
    ensures var d := Run(w, steps, cfg).desk; var c := FinishPiece(d, q, cfg.low);
            c.threw || Announced(d, c.desk, q)
    decreases |steps|
  {
    hide Consistent, Do, FinishPiece, Find;
    if |steps| > 0 {
      SubstitutionAnnounced(w, steps[..|steps| - 1], cfg, q);
      StepConsistent(Run(w, steps[..|steps| - 1], cfg), steps[|steps| - 1], cfg);
      StepKeepsSubstituted(Run(w, steps[..|steps| - 1], cfg), steps[|steps| - 1], cfg, q);
    }
    FinishAnnounces(Run(w, steps, cfg).desk, q, cfg.low);
  }
}
