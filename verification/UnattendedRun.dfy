/**
 The unattended run (src/core/dispatcher.ts): one dispatchNext on an idle printer, then every
 print finishes. The theorem gives the whole outcome: which jobs start and in which order, what
 every row looks like afterwards, how many plates are left, and whether a refill is asked for.
 */
module UnattendedRun {
  import opened Wrappers
  import opened QueueStore
  import opened Dispatch

  function Current(db: Db): Option<nat> {
    var rows := ListByStatus(db, Printing);
    if |rows| == 0 then None else Some(rows[0].id)
  }

  /** The desk after dispatchNext and n finishes, every start succeeding; nothing happens when nothing prints. */
  function RunDesk(d: Desk, low: int, n: nat): Desk {
    if n == 0 then NextPiece(d).desk
    else
      var e := RunDesk(d, low, n - 1);
      if Current(e.db).None? then e else FinishPiece(e, Current(e.db).value, low).desk
  }

  function Started(c: Cut): seq<nat> { if c.start.Some? then [c.start.value] else [] }

  /** The jobs started along that run, in order. */
  function RunStarts(d: Desk, low: int, n: nat): seq<nat> {
    if n == 0 then Started(NextPiece(d))
    else
      var e := RunDesk(d, low, n - 1);
      RunStarts(d, low, n - 1) + if Current(e.db).None? then [] else Started(FinishPiece(e, Current(e.db).value, low))
  }

  /** Idle printer, stocker with `r` plates, nothing blocking the queue, no substitution on a job that can start. */
  predicate Ready(db: Db, r: nat) {
    && Consistent(db)
    && NoneStatus(db, Printing)
    && !AnyBlockingQueue(db) && !AnyUnresolved(db, StockerRefill)
    && db.stocker.Some? && db.stocker.value.remaining == r
    && forall x :: x in Eligible(db) ==> x.substitutedColor.None?
  }

  function MarkAll(rows: seq<JobRow>, ids: seq<nat>, s: Status): (r: seq<JobRow>)
    decreases |ids|
  {
    if |ids| == 0 then rows
    else Update(MarkAll(rows, ids[..|ids| - 1], s), ids[|ids| - 1], SetStatus(s, None))
  }

  /** The tables after the first n eligible jobs have been printed and nothing has started since. */
  function After(db: Db, n: nat): Db
    requires n <= |Eligible(db)| && db.stocker.Some?
  {
    db.(jobs := MarkAll(db.jobs, Ids(Eligible(db))[..n], Success),
        stocker := Some(db.stocker.value.(remaining := db.stocker.value.remaining - n)))
  }

  function Min(a: nat, b: nat): nat { if a < b then a else b }

  // ---- marking a startable job takes it off the eligible list ----

  lemma {:induction false} FilterUpdateOther(rows: seq<JobRow>, id: nat, p: Patch, keep: JobRow -> bool)
    requires forall r :: r in rows && r.id == id ==> !keep(r) && !keep(Apply(p, r))
    ensures Filter(Update(rows, id, p), keep) == Filter(rows, keep)
    decreases |rows|
  {
    if |rows| > 0 {
      var front := rows[..|rows| - 1];
      assert Update(rows, id, p)[..|rows| - 1] == Update(front, id, p);
      assert rows[|rows| - 1] in rows;
      FilterUpdateOther(front, id, p, keep);
    }
  }

  lemma {:induction false} FilterUpdateHead(rows: seq<JobRow>, p: Patch, keep: JobRow -> bool)
    requires DistinctIds(rows) && |Filter(rows, keep)| > 0 && !keep(Apply(p, Filter(rows, keep)[0]))
    ensures Filter(Update(rows, Filter(rows, keep)[0].id, p), keep) == Filter(rows, keep)[1..]
    decreases |rows|
  {
    hide DistinctIds, Filter;
    FilterLast(rows, keep);
    var front, last, head := rows[..|rows| - 1], rows[|rows| - 1], Filter(rows, keep)[0];
    FilterMembers(rows, keep);
    FilterMembers(front, keep);
    LastDistinct(rows);
    FilterLast(Update(rows, head.id, p), keep);
    assert Update(rows, head.id, p)[..|rows| - 1] == Update(front, head.id, p);
    if |Filter(front, keep)| > 0 {
      assert Filter(front, keep)[0] in Filter(front, keep);
      FilterUpdateHead(front, p, keep);
    } else {
      FilterUpdateOther(front, head.id, p, keep);
    }
  }

  lemma FilterLast(rows: seq<JobRow>, keep: JobRow -> bool)
    ensures |rows| == 0 ==> |Filter(rows, keep)| == 0
    ensures |rows| > 0 ==>
      Filter(rows, keep) == Filter(rows[..|rows| - 1], keep) + if keep(rows[|rows| - 1]) then [rows[|rows| - 1]] else []
  {
  }

  lemma LastDistinct(rows: seq<JobRow>)
    requires DistinctIds(rows) && |rows| > 0
    ensures DistinctIds(rows[..|rows| - 1])
    ensures forall r :: r in rows[..|rows| - 1] ==> r.id != rows[|rows| - 1].id
  {
  }

  /** Starting, or finishing, the head of the eligible list leaves exactly the others eligible. */
  lemma EligibleTail(db: Db, s: Status)
    requires Consistent(db) && |Eligible(db)| > 0 && s != Queued
    ensures Eligible(Patched(db, Eligible(db)[0].id, SetStatus(s, None))) == Eligible(db)[1..]
  {
    SortDistinct(db.jobs);
    PatchKeepsOrder(db, Eligible(db)[0].id, SetStatus(s, None));
    FilterUpdateHead(ListJobs(db), SetStatus(s, None), CanStart(db.pending));
  }

  lemma EligibleRow(db: Db, i: nat)
    requires Consistent(db) && i < |Eligible(db)|
    ensures GetJob(db, Eligible(db)[i].id) == Some(Eligible(db)[i])
    ensures Eligible(db)[i].status == Queued
  {
    FilterMembers(ListJobs(db), CanStart(db.pending));
    SortMembers(db.jobs);
    assert Eligible(db)[i] in db.jobs;
    var k :| 0 <= k < |db.jobs| && db.jobs[k] == Eligible(db)[i];
    FindUnique(db.jobs, k);
  }

  /** What is known between two prints, n plates into the run. */
  lemma {:induction false} AfterFacts(db: Db, r: nat, n: nat)
    requires Ready(db, r) && n <= Min(|Eligible(db)|, r)
    ensures Consistent(After(db, n)) && NoneStatus(After(db, n), Printing)
    ensures Eligible(After(db, n)) == Eligible(db)[n..]
  {
    if n == 0 {
      AfterNone(db, r);
      assert Eligible(db)[0..] == Eligible(db);
    } else {
      var b := After(db, n - 1);
      AfterFacts(db, r, n - 1);
      AfterPatched(db, r, n);
      hide Eligible, NoneStatus, Consistent, After;
      assert Eligible(b)[0] == Eligible(db)[n - 1];
      EligibleTail(b, Success);
      NonePrintingAfter(b, Eligible(b)[0].id);
    }
  }

  /** One more print patches one row and takes one plate. */
  lemma AfterPatched(db: Db, r: nat, n: nat)
    requires Ready(db, r) && 0 < n <= Min(|Eligible(db)|, r) && Consistent(After(db, n - 1))
    ensures var c := Patched(After(db, n - 1), Eligible(db)[n - 1].id, SetStatus(Success, None));
            && Consistent(After(db, n))
            && (NoneStatus(c, Printing) ==> NoneStatus(After(db, n), Printing))
            && Eligible(After(db, n)) == Eligible(c)
  {
    AfterStep(db, n - 1);
    var b, id := After(db, n - 1), Eligible(db)[n - 1].id;
    PatchConsistent(b, id, SetStatus(Success, None));
    var c := Patched(b, id, SetStatus(Success, None));
    assert After(db, n) == c.(stocker := After(db, n).stocker);
    hide Sort, Filter, Update, Find;
    assert References(c) ==> References(After(db, n));
  }

  lemma NonePrintingAfter(db: Db, id: nat)
    requires NoneStatus(db, Printing)
    ensures NoneStatus(Patched(db, id, SetStatus(Success, None)), Printing)
  {
    var c := Patched(db, id, SetStatus(Success, None));
    forall x | x in c.jobs ensures x.status != Printing {
      var i :| 0 <= i < |c.jobs| && c.jobs[i] == x;
      assert db.jobs[i] in db.jobs;
    }
  }

  lemma ChooseAfter(db: Db, r: nat, n: nat)
    requires Ready(db, r) && n <= Min(|Eligible(db)|, r)
    ensures Choose(After(db, n)) == if n == r then StockerEmpty
                                    else if n == |Eligible(db)| then NoEligibleJob else Start(Eligible(db)[n].id)
  {
    AfterFacts(db, r, n);
  }

  /** A row just marked as printing, on an idle table, is the current job. */
  lemma CurrentIs(db: Db, id: nat)
    requires NoneStatus(db, Printing) && GetJob(db, id).Some?
    ensures Current(Patched(db, id, SetStatus(Printing, None))) == Some(id)
  {
    hide Sort, Filter;
    var c := Patched(db, id, SetStatus(Printing, None));
    FindUpdate(db.jobs, id, SetStatus(Printing, None), id);
    assert GetJob(c, id).value in c.jobs;
    NoneListed(c, Printing);
    ListedRow(c, Printing);
    OnlyPrinting(db, id, ListByStatus(c, Printing)[0]);
  }

  lemma ListedRow(db: Db, s: Status)
    requires |ListByStatus(db, s)| > 0
    ensures ListByStatus(db, s)[0] in db.jobs && ListByStatus(db, s)[0].status == s
  {
    SortMembers(Filter(db.jobs, HasStatus(s)));
    FilterMembers(db.jobs, HasStatus(s));
    assert ListByStatus(db, s)[0] in Filter(db.jobs, HasStatus(s));
  }

  lemma OnlyPrinting(db: Db, id: nat, x: JobRow)
    requires NoneStatus(db, Printing) && x in Update(db.jobs, id, SetStatus(Printing, None)) && x.status == Printing
    ensures x.id == id
  {
    var rows := Update(db.jobs, id, SetStatus(Printing, None));
    var i :| 0 <= i < |rows| && rows[i] == x;
    assert db.jobs[i] in db.jobs;
  }

  lemma CurrentNone(db: Db)
    requires NoneStatus(db, Printing)
    ensures Current(db).None?
  {
    NoneListed(db, Printing);
  }

  lemma UpdateTwice(rows: seq<JobRow>, id: nat, s: Status, t: Status)
    ensures Update(Update(rows, id, SetStatus(s, None)), id, SetStatus(t, None)) == Update(rows, id, SetStatus(t, None))
  {
  }

  lemma AfterStep(db: Db, n: nat)
    requires n < |Eligible(db)| && db.stocker.Some?
    ensures After(db, n + 1).jobs == Update(After(db, n).jobs, Eligible(db)[n].id, SetStatus(Success, None))
    ensures After(db, n + 1) == After(db, n).(jobs := After(db, n + 1).jobs,
              stocker := Some(db.stocker.value.(remaining := After(db, n).stocker.value.remaining - 1)))
  {
    var ids := Ids(Eligible(db));
    assert ids[..n + 1][..n] == ids[..n];
  }

  /** The desk while the n-th eligible job prints. */
  function PrintingAt(db: Db, n: nat, notes: seq<Note>): Desk
    requires n < |Eligible(db)| && db.stocker.Some?
  {
    Desk(Patched(After(db, n), Eligible(db)[n].id, SetStatus(Printing, None)), notes)
  }

  lemma PrintingRow(db: Db, r: nat, n: nat, notes: seq<Note>)
    requires Ready(db, r) && n < Min(|Eligible(db)|, r)
    ensures var job := GetJob(PrintingAt(db, n, notes).db, Eligible(db)[n].id);
            job.Some? && job.value.substitutedColor.None?
    ensures Current(PrintingAt(db, n, notes).db) == Some(Eligible(db)[n].id)
  {
    hide Sort, Filter, Find, MarkAll, Consistent;
    var b, id := After(db, n), Eligible(db)[n].id;
    AfterFacts(db, r, n);
    assert Eligible(b)[0] == Eligible(db)[n];
    EligibleRow(b, 0);
    assert Eligible(db)[n] in Eligible(db);
    FindUpdate(b.jobs, id, SetStatus(Printing, None), id);
    CurrentIs(b, id);
  }

  /** A finish takes the tables from "n printed, the next one printing" to "n + 1 printed". */
  lemma FinishStep(db: Db, r: nat, n: nat, notes: seq<Note>, low: int) returns (more: seq<Note>)
    requires Ready(db, r) && n < Min(|Eligible(db)|, r)
    ensures FinishPiece(PrintingAt(db, n, notes), Eligible(db)[n].id, low) == NextPiece(Desk(After(db, n + 1), more))
  {
    hide Sort, Filter, Find, MarkAll, Consistent, Eligible, Choose, NextPiece, Ids;
    var e, id := PrintingAt(db, n, notes), Eligible(db)[n].id;
    PrintingRow(db, r, n, notes);
    UpdateTwice(After(db, n).jobs, id, Printing, Success);
    AfterStep(db, n);
    var s := Swapped(Marked(e, id, Success), low).value;
    assert s.db == After(db, n + 1);
    more := s.notes + [JobFinished(id, None)];
  }

  /** After n finishes the run stands where dispatchNext stands once n jobs have been printed. */
  lemma {:induction false} RunPoint(d: Desk, low: int, r: nat, n: nat) returns (notes: seq<Note>)
    requires Ready(d.db, r) && n <= Min(|Eligible(d.db)|, r)
    ensures RunDesk(d, low, n) == NextPiece(Desk(After(d.db, n), notes)).desk
    ensures RunStarts(d, low, n) == Ids(Eligible(d.db))[..Min(n + 1, Min(|Eligible(d.db)|, r))]
    decreases n
  {
    hide Sort, Filter, Find, MarkAll, Consistent, Eligible, Choose, FinishPiece, After, Ready;
    ChooseAfter(d.db, r, n);
    if n == 0 {
      AfterNone(d.db, r);
      notes := d.notes;
    } else {
      var before := RunPoint(d, low, r, n - 1);
      ChooseAfter(d.db, r, n - 1);
      PrintingRow(d.db, r, n - 1, before);
      notes := FinishStep(d.db, r, n - 1, before, low);
      TakeOneMore(Ids(Eligible(d.db)), n, Min(|Eligible(d.db)|, r));
    }
  }

  lemma AfterNone(db: Db, r: nat)
    requires Ready(db, r)
    ensures After(db, 0) == db
  {
  }

  lemma TakeOneMore(ids: seq<nat>, n: nat, m: nat)
    requires n <= m <= |ids|
    ensures ids[..n] + (if n < m then [ids[n]] else []) == ids[..Min(n + 1, m)]
  {
  }

  lemma {:induction false} RunStable(d: Desk, low: int, m: nat, n: nat)
    requires m <= n && NoneStatus(RunDesk(d, low, m).db, Printing)
    ensures RunDesk(d, low, n) == RunDesk(d, low, m) && RunStarts(d, low, n) == RunStarts(d, low, m)
    decreases n - m
  {
    hide FinishPiece, NextPiece, NoneStatus, Sort;
    if m < n {
      RunStable(d, low, m, n - 1);
      CurrentNone(RunDesk(d, low, m).db);
      assert RunStarts(d, low, m) + [] == RunStarts(d, low, m);
    }
  }

  /** One dispatchNext and then enough finishes print exactly the first min(k, r) eligible jobs, in queue
      order and once each; only those rows change, min(k, r) plates are gone, nothing prints any more, and
      one stocker_refill is raised exactly when the plates did not outnumber the jobs. */
  lemma UnattendedRunExact(d: Desk, low: int, r: nat, n: nat)
    requires Ready(d.db, r)
    requires n >= Min(|Eligible(d.db)|, r)
    ensures var k, m, end := |Eligible(d.db)|, Min(|Eligible(d.db)|, r), RunDesk(d, low, n).db;
            && RunStarts(d, low, n) == Ids(Eligible(d.db))[..m]
            && end.jobs == MarkAll(d.db.jobs, Ids(Eligible(d.db))[..m], Success)
            && NoneStatus(end, Printing)
            && end.stocker == Some(Stocker(d.db.stocker.value.capacity, r - m))
            && end.pending == d.db.pending +
               (if r <= k then [PendingRow(d.db.nextPending, StockerRefill, BlockingQueue, None, None, false)] else [])
  {
    hide Sort, Filter, MarkAll, Consistent, Eligible, Choose, After, NextPiece, Ready, NoneStatus, RunDesk, RunStarts;
    var m := Min(|Eligible(d.db)|, r);
    var notes := RunPoint(d, low, r, m);
    EndOfRun(d.db, r, notes);
    RunStable(d, low, m, n);
  }

  lemma EndOfRun(db: Db, r: nat, notes: seq<Note>)
    requires Ready(db, r)
    ensures var k, m := |Eligible(db)|, Min(|Eligible(db)|, r);
            var end := NextPiece(Desk(After(db, m), notes)).desk.db;
            && end.jobs == MarkAll(db.jobs, Ids(Eligible(db))[..m], Success)
            && NoneStatus(end, Printing)
            && end.stocker == Some(Stocker(db.stocker.value.capacity, r - m))
            && end.pending == db.pending +
               (if r <= k then [PendingRow(db.nextPending, StockerRefill, BlockingQueue, None, None, false)] else [])
  {
    hide Sort, Filter, MarkAll, Consistent, Eligible, Choose;
    var m := Min(|Eligible(db)|, r);
    ChooseAfter(db, r, m);
    AfterFacts(db, r, m);
    assert !AnyUnresolved(After(db, m), StockerRefill);
    assert db.pending + [] == db.pending;
  }

  /** What MarkAll means row by row: the listed jobs are successful, every other row is untouched. */
  lemma {:induction false} MarkAllRows(rows: seq<JobRow>, ids: seq<nat>, s: Status, x: nat)
    ensures Find(MarkAll(rows, ids, s), x)
         == if Find(rows, x).Some? && x in ids then Some(Apply(SetStatus(s, None), Find(rows, x).value))
           else Find(rows, x)
    decreases |ids|
  {
    if |ids| > 0 {
      var front := ids[..|ids| - 1];
      MarkAllRows(rows, front, s, x);
      FindUpdate(MarkAll(rows, front, s), ids[|ids| - 1], SetStatus(s, None), x);
      assert ids == front + [ids[|ids| - 1]];
    }
  }
}
