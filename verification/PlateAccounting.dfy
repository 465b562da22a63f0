/**
 Plate accounting (src/core/dispatcher.ts, src/db/repo.ts) when every dispatcher call completes before
 the next one starts: as long as nobody sets the stock to zero under a running print, the CHECK on the
 stocker never fires, a printing job always has a plate left in the stocker, and the stock is the level
 last set minus the finishes, failures and aborts since.
 */
module PlateAccounting {
  import opened Wrappers
  import opened QueueStore
  import opened Dispatch
  import I = Interleaving

  /** A completed dispatcher call, or one of the synchronous handlers. The monitor reports only printing jobs. */
  datatype Op =
    | DispatchNext(startOk: bool)
    | JobFinishes(job: nat, startOk: bool)
    | JobFails(job: nat, error: string, ejectOk: bool)
    | Abort(job: nat, ejectOk: bool, startOk: bool)
    | Handler(step: I.Step)

  /** The desk with the book-keeping that the theorem is about. */
  datatype Ledger = Ledger(desk: Desk, level: int, swaps: nat, underflow: bool)

  predicate IsHandler(s: I.Step) {
    s.CallRetry? || s.CallEnqueue? || s.CreateJob? || s.CloneJob? || s.EditJob? || s.DeleteJob? || s.ReorderJobs?
    || s.SetStocker? || s.RefillStocker? || s.CreateProject? || s.SetPolicy? || s.RaisePending? || s.ResolvePending?
  }

  function Handled(d: Desk, s: I.Step, cfg: I.Settings): Desk { I.Do(I.World(d, multiset{}), s, cfg).desk }

  /** The level a handler establishes, if it touches the stock. */
  function LevelSet(d: Desk, s: I.Step): Option<int> {
    match s
    case SetStocker(capacity, remaining) =>
      if StockerSet(d.db, capacity, remaining).Some? then Some(remaining) else None
    case RefillStocker => if d.db.stocker.Some? then Some(d.db.stocker.value.capacity) else None
    case _ => None
  }

  function Swap(l: Ledger, before: Desk, after: Desk, low: int): Ledger {
    l.(desk := after, swaps := l.swaps + 1, underflow := l.underflow || Swapped(before, low).None?)
  }

  function Perform(l: Ledger, op: Op, cfg: I.Settings): Ledger {
    var d := l.desk;
    match op
    case DispatchNext(ok) => l.(desk := Next(d, ok).desk)
    case JobFinishes(id, ok) =>
      if !IsPrinting(d.db, id) then l else Swap(l, Marked(d, id, Success), Finished(d, id, cfg.low, ok).desk, cfg.low)
    case JobFails(id, error, ok) =>
      if !IsPrinting(d.db, id) then l
      else if !ok then l.(desk := FailPiece(d, id, error))
      else Swap(l, FailPiece(d, id, error), FailedOp(d, id, error, cfg.low, true).desk, cfg.low)
    case Abort(id, ejectOk, startOk) =>
      if !IsPrinting(d.db, id) || !ejectOk then l
      else Swap(l, Marked(d, id, Aborted), AbortedOp(d, id, cfg.low, true, startOk).desk, cfg.low)
    case Handler(s) =>
      if !IsHandler(s) then l
      else
        var level := LevelSet(d, s);
        if level.Some? then Ledger(Handled(d, s, cfg), level.value, 0, l.underflow) else l.(desk := Handled(d, s, cfg))
  }

  /** The one thing that must not happen: the stock set to zero while a job prints. */
  predicate Careful(l: Ledger, op: Op) {
    op.Handler? && LevelSet(l.desk, op.step) == Some(0) ==> NoneStatus(l.desk.db, Printing)
  }

  predicate AllCareful(l: Ledger, ops: seq<Op>, cfg: I.Settings)
    decreases |ops|
  {
    |ops| == 0 || (AllCareful(l, ops[..|ops| - 1], cfg)
                   && Careful(PerformAll(l, ops[..|ops| - 1], cfg), ops[|ops| - 1]))
  }

  function PerformAll(l: Ledger, ops: seq<Op>, cfg: I.Settings): Ledger
    decreases |ops|
  {
    if |ops| == 0 then l else Perform(PerformAll(l, ops[..|ops| - 1], cfg), ops[|ops| - 1], cfg)
  }

  predicate Stocked(db: Db, remaining: int) {
    && db.stocker.Some? && 0 <= db.stocker.value.remaining == remaining <= db.stocker.value.capacity
    && (NoneStatus(db, Printing) || remaining >= 1)
  }

  predicate Balanced(l: Ledger) {
    && I.OnePrinting(l.desk.db.jobs)
    && Stocked(l.desk.db, l.level - l.swaps)
    && !l.underflow
  }

  // ---- no new printing job ----

  lemma UpdatePrintsNoMore(db: Db, id: nat, p: Patch)
    requires NoneStatus(db, Printing) && (p.SetStatus? ==> p.status != Printing)
    ensures NoneStatus(Patched(db, id, p), Printing)
  {
    var rows := Update(db.jobs, id, p);
    forall x | x in rows ensures x.status != Printing {
      var i :| 0 <= i < |rows| && rows[i] == x;
      assert db.jobs[i] in db.jobs;
    }
  }

  /** Taking the printing job out of print leaves none. */
  lemma LastPrinting(db: Db, id: nat, p: Patch)
    requires I.OnePrinting(db.jobs) && IsPrinting(db, id) && p.SetStatus? && p.status != Printing
    ensures NoneStatus(Patched(db, id, p), Printing)
  {
    var rows := Update(db.jobs, id, p);
    forall x | x in rows ensures x.status != Printing {
      var i :| 0 <= i < |rows| && rows[i] == x;
      assert db.jobs[i] in db.jobs && GetJob(db, id).value in db.jobs;
    }
  }

  lemma NextStocked(d: Desk, remaining: int)
    requires Stocked(d.db, remaining)
    ensures Stocked(NextPiece(d).desk.db, remaining)
  {
    hide Eligible;
  }

  lemma StartStocked(c: Cut, remaining: int, ok: bool)
    requires Stocked(c.desk.db, remaining) && I.OnePrinting(c.desk.db.jobs)
    ensures Stocked(StartReturned(c, ok).desk.db, remaining) && I.OnePrinting(StartReturned(c, ok).desk.db.jobs)
  {
    hide Update, I.OnePrinting, NoneStatus;
    if c.start.Some? && !ok {
      I.UpdateKeepsOne(c.desk.db.jobs, c.start.value, SetStatus(Queued, None));
      if NoneStatus(c.desk.db, Printing) { UpdatePrintsNoMore(c.desk.db, c.start.value, SetStatus(Queued, None)); }
    }
  }

  lemma {:induction false} PropagatedPrintsNoMore(db: Db, rows: seq<JobRow>, project: nat, slot: int, color: string)
    requires NoneStatus(db, Printing)
    ensures NoneStatus(Propagated(db, rows, project, slot, color), Printing)
    ensures Propagated(db, rows, project, slot, color).stocker == db.stocker
    decreases |rows|
  {
    if |rows| > 0 {
      PropagatedPrintsNoMore(db, rows[..|rows| - 1], project, slot, color);
      UpdatePrintsNoMore(Propagated(db, rows[..|rows| - 1], project, slot, color), rows[|rows| - 1].id,
                         SetSubstitution(slot, color));
    }
  }

  lemma ColorStocked(d: Desk, job: JobRow, remaining: int)
    requires Stocked(d.db, remaining) && NoneStatus(d.db, Printing)
    ensures Stocked(ColorApplied(d, job).db, remaining)
  {
    hide Propagated;
    if job.substitutedColor.Some? && job.substitutedSlot.Some? && job.project.Some? {
      PropagatedPrintsNoMore(d.db, ListByStatus(d.db, Queued), job.project.value, job.substitutedSlot.value,
                             job.substitutedColor.value);
    }
  }

  lemma FinishStocked(d: Desk, id: nat, low: int, remaining: int)
    requires Stocked(d.db, remaining) && remaining >= 1 && I.OnePrinting(d.db.jobs) && IsPrinting(d.db, id)
    ensures Swapped(Marked(d, id, Success), low).Some?
    ensures Stocked(FinishPiece(d, id, low).desk.db, remaining - 1)
            && I.OnePrinting(FinishPiece(d, id, low).desk.db.jobs)
  {
    hide NextPiece, ColorApplied, I.OnePrinting, Update;
    I.FinishKeepsOne(d, id, low);
    LastPrinting(d.db, id, SetStatus(Success, None));
    var job, s := GetJob(d.db, id), Swapped(Marked(d, id, Success), low);
    var noted := Desk(s.value.db, s.value.notes + [JobFinished(id, job.value.substitutedColor)]);
    assert Stocked(noted.db, remaining - 1);
    ColorStocked(noted, job.value, remaining - 1);
    NextStocked(ColorApplied(noted, job.value), remaining - 1);
  }

  lemma AbortStocked(d: Desk, id: nat, low: int, remaining: int)
    requires Stocked(d.db, remaining) && remaining >= 1 && I.OnePrinting(d.db.jobs) && IsPrinting(d.db, id)
    ensures Swapped(Marked(d, id, Aborted), low).Some?
    ensures Stocked(AbortEjected(d, id, low).desk.db, remaining - 1)
            && I.OnePrinting(AbortEjected(d, id, low).desk.db.jobs)
  {
    hide NextPiece, I.OnePrinting, Update;
    I.AbortKeepsOne(d, id, low);
    LastPrinting(d.db, id, SetStatus(Aborted, None));
    var s := Swapped(Marked(d, id, Aborted), low);
    NextStocked(Desk(s.value.db, s.value.notes + [JobAborted(id)]), remaining - 1);
  }

  lemma FailStocked(d: Desk, id: nat, error: string, low: int, remaining: int)
    requires Stocked(d.db, remaining) && remaining >= 1 && I.OnePrinting(d.db.jobs) && IsPrinting(d.db, id)
    ensures var f := FailPiece(d, id, error);
            && I.OnePrinting(f.db.jobs) && NoneStatus(f.db, Printing) && Stocked(f.db, remaining)
            && Swapped(f, low).Some?
            && I.OnePrinting(FailEjected(f, id, low).desk.db.jobs)
               && Stocked(FailEjected(f, id, low).desk.db, remaining - 1)
  {
    hide I.OnePrinting, Update;
    I.FailKeepsOne(d, id, error);
    LastPrinting(d.db, id, SetStatus(Failed, Some(error)));
    UpdatePrintsNoMore(Patched(d.db, id, SetStatus(Failed, Some(error))), id, BumpAttempts);
    I.FailEjectedJobs(FailPiece(d, id, error), id, low);
  }

  // ---- the handlers ----

  lemma {:induction false} ReorderPrintsNoMore(db: Db, ids: seq<nat>)
    requires NoneStatus(db, Printing)
    ensures NoneStatus(db.(jobs := Reordered(db.jobs, ids)), Printing)
    decreases |ids|
  {
    if |ids| > 0 {
      ReorderPrintsNoMore(db, ids[..|ids| - 1]);
      UpdatePrintsNoMore(db.(jobs := Reordered(db.jobs, ids[..|ids| - 1])), ids[|ids| - 1], SetPosition(|ids|));
    }
  }

  lemma DeletePrintsNoMore(db: Db, id: nat)
    requires NoneStatus(db, Printing)
    ensures NoneStatus(Deleted(db, id), Printing)
  {
    FilterMembers(db.jobs, OtherThan(id));
  }

  lemma HandlerPrintsNoMore(d: Desk, s: I.Step, cfg: I.Settings)
    requires IsHandler(s) && NoneStatus(d.db, Printing)
    ensures NoneStatus(Handled(d, s, cfg).db, Printing)
  {
    hide Update, Reordered, Filter, Find, NextPosition, Resolve, Referenced, CanReference, NextPiece, FinishPiece,
         AbortEjected, FailPiece, FailEjected;
    match s
    case CallRetry(id) => UpdatePrintsNoMore(d.db, id, SetStatus(Queued, None));
    case CallEnqueue(id) => UpdatePrintsNoMore(d.db, id, SetStatus(Queued, None));
    case EditJob(id, patch) => if !patch.SetStatus? { UpdatePrintsNoMore(d.db, id, patch); }
    case DeleteJob(id) => DeletePrintsNoMore(d.db, id);
    case ReorderJobs(ids) => ReorderPrintsNoMore(d.db, ids);
    case _ =>
  }

  /** A handler starts nothing, and only the two stocker handlers touch the stock. */
  lemma HandlerKeeps(d: Desk, s: I.Step, cfg: I.Settings)
    requires IsHandler(s)
    ensures NoneStatus(d.db, Printing) ==> NoneStatus(Handled(d, s, cfg).db, Printing)
    ensures LevelSet(d, s).None? ==> Handled(d, s, cfg).db.stocker == d.db.stocker
  {
    if NoneStatus(d.db, Printing) { HandlerPrintsNoMore(d, s, cfg); }
    hide NoneStatus, Update, Reordered, Filter, Find, NextPosition, Resolve, Referenced, CanReference, NextPiece,
         FinishPiece, AbortEjected, FailPiece, FailEjected;
  }

  lemma HandlerBalanced(l: Ledger, s: I.Step, cfg: I.Settings)
    requires Balanced(l) && IsHandler(s) && Careful(l, Handler(s))
    ensures Balanced(Perform(l, Handler(s), cfg))
  {
    hide I.OnePrinting, NoneStatus, I.Do;
    I.StepKeepsOne(I.World(l.desk, multiset{}), s, cfg);
    HandlerKeeps(l.desk, s, cfg);
    if LevelSet(l.desk, s).Some? { LevelIsSet(l.desk, s, cfg); }
  }

  lemma LevelIsSet(d: Desk, s: I.Step, cfg: I.Settings)
    requires IsHandler(s) && LevelSet(d, s).Some? && d.db.stocker.Some?
    ensures var after := Handled(d, s, cfg).db;
            after.stocker.Some? && after.stocker.value.remaining == LevelSet(d, s).value && after.jobs == d.db.jobs
    ensures Handled(d, s, cfg).db.stocker.value.remaining <= Handled(d, s, cfg).db.stocker.value.capacity
  {
  }

  // ---- the books balance over every run ----

  lemma OpBalanced(l: Ledger, op: Op, cfg: I.Settings)
    requires Balanced(l) && Careful(l, op)
    ensures Balanced(Perform(l, op, cfg))
  {
    hide I.OnePrinting, FinishPiece, AbortEjected, FailPiece, FailEjected, NextPiece, Swapped, Handled, LevelSet, Find;
    var d, r := l.desk, l.level - l.swaps;
    if op.JobFinishes? || op.JobFails? || op.Abort? { PrintingMeansStock(d.db, op.job, r); }
    match op
    case DispatchNext(ok) => NextStocked(d, r); I.NextKeepsOne(d); StartStocked(NextPiece(d), r, ok);
    case JobFinishes(id, ok) =>
      if IsPrinting(d.db, id) {
        FinishStocked(d, id, cfg.low, r);
        StartStocked(FinishPiece(d, id, cfg.low), r - 1, ok);
      }
    case JobFails(id, error, ok) => if IsPrinting(d.db, id) { FailStocked(d, id, error, cfg.low, r); }
    case Abort(id, ejectOk, startOk) =>
      if IsPrinting(d.db, id) {
        AbortStocked(d, id, cfg.low, r);
        StartStocked(AbortEjected(d, id, cfg.low), r - 1, startOk);
      }
    case Handler(s) => if IsHandler(s) { HandlerBalanced(l, s, cfg); }
  }

  lemma PrintingMeansStock(db: Db, id: nat, remaining: int)
    requires Stocked(db, remaining)
    ensures IsPrinting(db, id) ==> remaining >= 1
  {
    if IsPrinting(db, id) { assert GetJob(db, id).value in db.jobs; }
  }

  /** Over every careful serial run the CHECK never fires, a printing job has a plate behind it, and the stock
      equals the level last set minus the plates swapped since. */
  lemma {:induction false} PlatesAccounted(l: Ledger, ops: seq<Op>, cfg: I.Settings)
    requires Balanced(l) && AllCareful(l, ops, cfg)
    ensures var r := PerformAll(l, ops, cfg);
            && !r.underflow
            && r.desk.db.stocker.Some? && r.desk.db.stocker.value.remaining == r.level - r.swaps
            && (!NoneStatus(r.desk.db, Printing) ==> r.desk.db.stocker.value.remaining >= 1)
            && Balanced(r)
    decreases |ops|
  {
    hide Perform, Careful, I.OnePrinting, NoneStatus;
    if |ops| > 0 {
      PlatesAccounted(l, ops[..|ops| - 1], cfg);
      OpBalanced(PerformAll(l, ops[..|ops| - 1], cfg), ops[|ops| - 1], cfg);
    }
  }

  /** The converse of being careful: a finish trips the CHECK exactly when the stock is already gone,
      and then the plate is not swapped, nobody is told, and nothing else starts. */
  lemma UnderflowExactly(d: Desk, id: nat, low: int)
    requires Consistent(d.db)
    ensures FinishPiece(d, id, low).threw <==> d.db.stocker.Some? && d.db.stocker.value.remaining == 0
    ensures FinishPiece(d, id, low).threw ==> FinishPiece(d, id, low) == Cut(Marked(d, id, Success), None, true)
  {
    hide ColorApplied, Choose, Eligible;
  }

  /** The condition is needed: a stock set to zero under a running print makes that print's finish trip the
      CHECK, and then nothing starts. */
  lemma ZeroUnderPrintUnderflows(l: Ledger, s: I.Step, id: nat, startOk: bool, cfg: I.Settings)
    requires Balanced(l) && Consistent(l.desk.db) && IsPrinting(l.desk.db, id)
    requires IsHandler(s) && !Careful(l, Handler(s))
    ensures var r := PerformAll(l, [Handler(s), JobFinishes(id, startOk)], cfg);
            r.underflow && NoneStatus(r.desk.db, Printing)
  {
    var ops := [Handler(s), JobFinishes(id, startOk)];
    var a := Perform(l, Handler(s), cfg);
    assert ops[..1][..0] == [] && ops[..1] == [Handler(s)];
    assert PerformAll(l, ops[..1], cfg) == a;
    assert PerformAll(l, ops, cfg) == Perform(a, JobFinishes(id, startOk), cfg);
    LevelIsSet(l.desk, s, cfg);
    I.StepConsistent(I.World(l.desk, multiset{}), s, cfg);
    hide Handled, LevelSet, Balanced, Consistent, PerformAll, ColorApplied, NextPiece, Update;
    assert a.desk.db.stocker.value.remaining == 0 && a.desk.db.jobs == l.desk.db.jobs;
    UnderflowExactly(a.desk, id, cfg.low);
    LastPrinting(a.desk.db, id, SetStatus(Success, None));
  }
}
