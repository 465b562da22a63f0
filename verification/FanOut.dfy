/**
 Confirming several plates of one upload at once (the fan-out of PATCH /api/queue/:id/filaments,
 src/api/write-routes.ts): the job takes the first plate and every further plate becomes a clone.
 The handler is modelled after its validation; `copies` says which artifact copies succeed.
 */
module FanOut {
  import opened Wrappers
  import opened QueueStore

  /** What the request's schema demands of the plates; the CHECK of the table demands no more. */
  predicate PlateNames(plates: seq<string>) { forall i :: 0 <= i < |plates| ==> PlateAllowed(Some(plates[i])) }

  /** The table after the filament plan and the project of the request have been stored. */
  function Planned(db: Db, id: nat, ams: string, filaments: Option<string>, project: Option<Option<nat>>): Db {
    var p := Patched(db, id, SetPlan(ams, filaments));
    if project.Some? then Patched(p, id, SetProject(project.value)) else p
  }

  /** The clone for the j-th further plate. */
  function CloneRow(db: Db, src: JobRow, plates: seq<string>, j: nat): JobRow
    requires j < |plates|
  {
    JobRow(db.nextJob + j, src.project, src.plan, Processing, NextPosition(db) + j, 0, None, None, None, None,
           Some(plates[j]))
  }

  /** The first n clones, the first q of them enqueued. */
  function CloneRows(db: Db, src: JobRow, plates: seq<string>, n: nat, q: nat): (r: seq<JobRow>)
    requires n <= |plates|
    ensures |r| == n
  {
    seq(n, j requires 0 <= j < n =>
      if j < q then Apply(SetStatus(Queued, None), CloneRow(db, src, plates, j)) else CloneRow(db, src, plates, j))
  }

  function WithClones(db: Db, src: JobRow, plates: seq<string>, n: nat, q: nat): Db
    requires n <= |plates|
  {
    db.(jobs := db.jobs + CloneRows(db, src, plates, n, q), nextJob := db.nextJob + n)
  }

  /** The source job takes the first plate and is enqueued. */
  function Confirmed(db: Db, id: nat, plates: seq<string>): Db
    requires |plates| > 0
  {
    Patched(Patched(db, id, SetPlate(Some(plates[0]))), id, SetStatus(Queued, None))
  }

  /** A successful fan-out: the source takes the first plate, the clones the others, all queued. */
  function FannedOut(db: Db, id: nat, plates: seq<string>): Db
    requires GetJob(db, id).Some? && |plates| > 0
  {
    var src, rest := GetJob(db, id).value, plates[1..];
    var confirmed := Confirmed(db, id, plates);
    confirmed.(jobs := FanTable(confirmed.jobs, db, src, rest, |rest|), nextJob := db.nextJob + |rest|)
  }

  /** What a fan-out whose k-th copy failed leaves behind: the clone whose copy threw is not rolled back. */
  function RolledBack(db: Db, src: JobRow, rest: seq<string>, k: nat): Db
    requires k < |rest|
  {
    db.(jobs := db.jobs + [CloneRow(db, src, rest, k)], nextJob := db.nextJob + k + 1)
  }

  // ---- table lemmas ----

  lemma UpdateAppend(a: seq<JobRow>, b: seq<JobRow>, id: nat, p: Patch)
    ensures Update(a + b, id, p) == Update(a, id, p) + Update(b, id, p)
  {
  }

  lemma UpdateAbsent(a: seq<JobRow>, id: nat, p: Patch)
    requires forall x :: x in a ==> x.id != id
    ensures Update(a, id, p) == a
  {
    forall i | 0 <= i < |a| ensures Update(a, id, p)[i] == a[i] { assert a[i] in a; }
  }

  lemma {:induction false} FilterKeepsAll(a: seq<JobRow>, id: nat)
    requires forall x :: x in a ==> x.id != id
    ensures Filter(a, OtherThan(id)) == a
    decreases |a|
  {
    if |a| > 0 {
      assert a[|a| - 1] in a;
      FilterKeepsAll(a[..|a| - 1], id);
      assert a == a[..|a| - 1] + [a[|a| - 1]];
    }
  }

  lemma {:induction false} FilterAppend(a: seq<JobRow>, b: seq<JobRow>, keep: JobRow -> bool)
    ensures Filter(a + b, keep) == Filter(a, keep) + Filter(b, keep)
    decreases |b|
  {
    if |b| == 0 {
      assert a + b == a;
    } else {
      FilterAppend(a, b[..|b| - 1], keep);
      assert (a + b)[..|a + b| - 1] == a + b[..|b| - 1];
    }
  }

  lemma FindAppend(a: seq<JobRow>, b: seq<JobRow>, id: nat)
    requires forall x :: x in b ==> x.id != id
    ensures Find(a + b, id) == Find(a, id)
    decreases |b|
  {
    if |b| == 0 {
      assert a + b == a;
    } else {
      assert b[|b| - 1] in b;
      FindAppend(a, b[..|b| - 1], id);
      assert (a + b)[..|a + b| - 1] == a + b[..|b| - 1];
    }
  }

  lemma {:induction false} MaxWithTop(rows: seq<JobRow>, r: JobRow)
    requires forall x :: x in rows ==> x.position < r.position
    ensures MaxPosition(rows + [r]) == Some(r.position)
  {
    assert (rows + [r])[..|rows|] == rows;
    MaxAttained(rows);
  }

  lemma {:induction false} MaxAttained(rows: seq<JobRow>)
    ensures MaxPosition(rows).Some? ==> exists x :: x in rows && x.position == MaxPosition(rows).value
    decreases |rows|
  {
    if |rows| > 0 {
      MaxAttained(rows[..|rows| - 1]);
      assert rows[|rows| - 1] in rows;
      assert rows == rows[..|rows| - 1] + [rows[|rows| - 1]];
    }
  }

  lemma {:induction false} NextAfterClones(db: Db, src: JobRow, plates: seq<string>, n: nat)
    requires n <= |plates|
    ensures NextPosition(WithClones(db, src, plates, n, 0)) == NextPosition(db) + n
  {
    if n == 0 {
      assert db.jobs + CloneRows(db, src, plates, 0, 0) == db.jobs;
    } else {
      NextAfterClones(db, src, plates, n - 1);
      var before, r := WithClones(db, src, plates, n - 1, 0).jobs, CloneRow(db, src, plates, n - 1);
      assert WithClones(db, src, plates, n, 0).jobs == before + [r];
      MaxWithTop(before, r);
    }
  }

  /** One more clone from the table that already holds n. */
  lemma CloneStep(db: Db, id: nat, plates: seq<string>, n: nat)
    requires Consistent(db) && GetJob(db, id).Some? && n < |plates|
    ensures var src := GetJob(db, id).value; var w := WithClones(db, src, plates, n, 0);
            && GetJob(w, id) == Some(src)
            && Cloned(w, src, Some(plates[n])) == WithClones(db, src, plates, n + 1, 0)
  {
    hide Consistent, Sort, DistinctIds, NextPosition;
    var src := GetJob(db, id).value;
    var w := WithClones(db, src, plates, n, 0);
    SourceRow(db, id);
    FindAppend(db.jobs, CloneRows(db, src, plates, n, 0), id);
    hide Find;
    NextAfterClones(db, src, plates, n);
    WithClonesStep(db, src, plates, n);
  }

  // ---- the handler ----

  predicate Numbered(ids: seq<nat>, from: nat) { forall j :: 0 <= j < |ids| ==> ids[j] == from + j }

  predicate FirstFailure(copies: seq<bool>, k: nat) {
    k < |copies| && !copies[k] && forall i :: 0 <= i < k ==> copies[i]
  }

  /** The source row can be gone by now: then the first clone throws. */
  method CreateClones(repo: Repo, id: nat, rest: seq<string>, copies: seq<bool>) returns (created: seq<nat>, ok: bool)
    requires Consistent(repo.db) && |copies| == |rest| && PlateNames(rest)
    modifies repo
    ensures Consistent(repo.db)
    ensures GetJob(old(repo.db), id).None? ==> created == [] && repo.db == old(repo.db) && ok == (|rest| == 0)
    ensures GetJob(old(repo.db), id).Some? ==> ClonesCreated(old(repo.db), repo.db, id, rest, copies, created, ok)
  {
    hide Sort, Find, DistinctIds, Consistent, CloneRows, NextPosition, Order, PlateAllowed;
    ghost var was := repo.db;
    created := [];
    var k := 0;
    if GetJob(was, id).Some? { NoClones(was, GetJob(was, id).value, rest); }
    while k < |rest|
      invariant 0 <= k <= |rest| && |created| == k && Numbered(created, was.nextJob)
      invariant forall i :: 0 <= i < k ==> copies[i]
      invariant Consistent(repo.db)
      invariant if GetJob(was, id).None? then k == 0 && repo.db == was
                else repo.db == WithClones(was, GetJob(was, id).value, rest, k, 0)
    {
      if GetJob(was, id).Some? { CloneStep(was, id, rest, k); }
      var cloneId, found := repo.CloneJob(id, Some(Some(rest[k])));
      if !found { return created, false; }
      if !copies[k] { return created, false; }
      created := created + [cloneId];
      k := k + 1;
    }
    ok := true;
  }

  /** The loop cloned up to the first copy that threw, whose clone is not recorded. */
  predicate ClonesCreated(was: Db, db: Db, id: nat, rest: seq<string>, copies: seq<bool>, created: seq<nat>, ok: bool)
    requires GetJob(was, id).Some? && |copies| == |rest|
  {
    var src := GetJob(was, id).value;
    && (ok <==> forall i :: 0 <= i < |copies| ==> copies[i])
    && |created| <= |rest| && Numbered(created, was.nextJob)
    && (ok ==> |created| == |rest| && db == WithClones(was, src, rest, |rest|, 0))
    && (!ok ==> FirstFailure(copies, |created|) && db == WithClones(was, src, rest, |created| + 1, 0))
  }

  lemma FreshIds(db: Db)
    requires Consistent(db)
    ensures forall x :: x in db.jobs ==> x.id < db.nextJob
    ensures forall id :: id >= db.nextJob ==> !Referenced(db, id)
  {
    forall id | id >= db.nextJob ensures !Referenced(db, id) {
      forall i | 0 <= i < |db.pending| ensures db.pending[i].job != Some(id) { assert db.pending[i] in db.pending; }
    }
  }

  /** Deletes the recorded clones; no pending action can name them yet. */
  method Rollback(repo: Repo, created: seq<nat>, ghost base: Db, ghost src: JobRow, ghost rest: seq<string>)
    requires Consistent(repo.db)
    requires |created| > 0 ==> Consistent(base) && src.id < base.nextJob
    requires |created| > 0 ==> |created| < |rest| && Numbered(created, base.nextJob)
    requires |created| > 0 ==> repo.db == WithClones(base, src, rest, |created| + 1, 0)
    modifies repo
    ensures Consistent(repo.db)
    ensures repo.db == if |created| > 0 then RolledBack(base, src, rest, |created|) else old(repo.db)
  {
    hide Consistent, Sort, DistinctIds, NextPosition, Find, Order;
    ghost var all := if |created| > 0 then CloneRows(base, src, rest, |created| + 1, 0) else [];
    if |created| > 0 { FreshIds(base); }
    var k := 0;
    while k < |created|
      invariant 0 <= k <= |created| && Consistent(repo.db)
      invariant if |created| == 0 then repo.db == old(repo.db)
                else repo.db == base.(jobs := base.jobs + all[k..], nextJob := base.nextJob + |created| + 1)
    {
      assert all[k..][1..] == all[k + 1..];
      forall x | x in all[k + 1..] ensures x.id != created[k] {
        var i :| k + 1 <= i < |all| && all[i] == x;
      }
      DropFirst(base.jobs, all[k..], created[k]);
      assert !Referenced(repo.db, created[k]) by { assert !Referenced(base, created[k]); }
      var _ := repo.DeleteJob(created[k]);
      k := k + 1;
    }
    assert |created| > 0 ==> all[k..] == [CloneRow(base, src, rest, |created|)];
  }

  /** Nothing was recorded: what is left is the first clone. */
  lemma OneClone(db: Db, src: JobRow, rest: seq<string>)
    requires |rest| > 0
    ensures WithClones(db, src, rest, 1, 0) == RolledBack(db, src, rest, 0)
  {
    assert CloneRows(db, src, rest, 1, 0) == [CloneRow(db, src, rest, 0)];
  }

  lemma DropFirst(a: seq<JobRow>, b: seq<JobRow>, id: nat)
    requires |b| > 0 && b[0].id == id
    requires forall x :: x in a ==> x.id != id
    requires forall x :: x in b[1..] ==> x.id != id
    ensures Filter(a + b, OtherThan(id)) == a + b[1..]
  {
    var keep := OtherThan(id);
    calc {
      Filter(a + b, keep);
      { assert a + b == a + [b[0]] + b[1..]; FilterAppend(a + [b[0]], b[1..], keep); }
      Filter(a + [b[0]], keep) + Filter(b[1..], keep);
      { FilterKeepsAll(b[1..], id); }
      Filter(a + [b[0]], keep) + b[1..];
      { assert (a + [b[0]])[..|a|] == a; FilterKeepsAll(a, id); assert a + [] == a; }
      a + b[1..];
    }
  }

  /** Enqueues the clones one by one, in the order in which they were created. */
  method EnqueueClones(repo: Repo, created: seq<nat>, ghost base: Db, ghost src: JobRow, ghost rest: seq<string>,
                       ghost front: seq<JobRow>)
    requires Consistent(repo.db) && |created| == |rest| && Numbered(created, base.nextJob)
    requires forall x :: x in front ==> x.id < base.nextJob
    requires repo.db.jobs == FanTable(front, base, src, rest, 0)
    modifies repo
    ensures Consistent(repo.db)
    ensures repo.db == old(repo.db).(jobs := FanTable(front, base, src, rest, |rest|))
  {
    hide Consistent, Sort, DistinctIds, NextPosition, Find, Order, FanTable;
    ghost var was := repo.db;
    var k := 0;
    while k < |created|
      invariant 0 <= k <= |created| && Consistent(repo.db)
      invariant repo.db == was.(jobs := FanTable(front, base, src, rest, k))
    {
      EnqueueStep(base, src, front, rest, k);
      repo.UpdateJob(created[k], SetStatus(Queued, None));
      k := k + 1;
    }
  }

  /** The handler from the stored plan on; `false` stands for the 500 response. The status was read before the
      request's body arrived, so by now the job can have any status, or be gone. */
  method ConfirmPlates(repo: Repo, id: nat, ams: string, filaments: Option<string>, project: Option<Option<nat>>,
                       plates: seq<string>, copies: seq<bool>) returns (ok: bool)
    requires Consistent(repo.db)
    requires project.Some? && project.value.Some? ==> project.value.value in repo.db.projects
    requires |plates| > 0 && |copies| == |plates| - 1 && PlateNames(plates)
    modifies repo
    ensures Consistent(repo.db)
    ensures GetJob(old(repo.db), id).None? ==> repo.db == old(repo.db) && ok == (|plates| == 1)
    ensures GetJob(old(repo.db), id).Some? ==>
              var p := Planned(old(repo.db), id, ams, filaments, project);
              && (ok <==> forall i :: 0 <= i < |copies| ==> copies[i])
              && GetJob(p, id).Some?
              && (ok ==> repo.db == FannedOut(p, id, plates))
              && (!ok ==> exists k ::
                            FirstFailure(copies, k) && repo.db == RolledBack(p, GetJob(p, id).value, plates[1..], k))
  {
    hide Consistent, Sort, DistinctIds, NextPosition, Find, Order, FanTable, CloneRows, Update, RolledBack,
         PlateAllowed;
    ghost var there := GetJob(repo.db, id).Some?;
    if there {
      PlannedKeeps(repo.db, id, ams, filaments, project);
    } else {
      PlannedNothing(repo.db, id, ams, filaments, project);
    }
    repo.UpdateJob(id, SetPlan(ams, filaments));
    if project.Some? { var _ := repo.SetProject(id, project.value); }
    ghost var p := repo.db;
    ghost var src := if there then GetJob(p, id).value else NewRow(p, None, Plan("", None, None, None), None);
    var rest := plates[1..];
    var created, copied := CreateClones(repo, id, rest, copies);
    if !copied {
      if there {
        SourceRow(p, id);
        OneClone(p, src, rest);
      }
      Rollback(repo, created, p, src, rest);
      return false;
    }
    ConfirmFirst(repo, id, plates);
    ghost var front := Confirmed(p, id, plates).jobs;
    if there { ConfirmedTable(p, id, src, plates); } else { NothingToFan(p, id, src, plates); }
    EnqueueClones(repo, created, p, src, rest, front);
    ok := true;
  }

  method ConfirmFirst(repo: Repo, id: nat, plates: seq<string>)
    requires Consistent(repo.db) && |plates| > 0 && PlateNames(plates)
    modifies repo
    ensures Consistent(repo.db) && repo.db == Confirmed(old(repo.db), id, plates)
  {
    var _ := repo.SetSelectedPlate(id, Some(plates[0]));
    repo.UpdateJob(id, SetStatus(Queued, None));
  }

  /** Without the row, none of the writes does anything. */
  lemma PlannedNothing(db: Db, id: nat, ams: string, filaments: Option<string>, project: Option<Option<nat>>)
    requires GetJob(db, id).None?
    ensures Planned(db, id, ams, filaments, project) == db
  {
    hide Update, Find;
    NoRowPatched(db.jobs, id, SetPlan(ams, filaments));
    if project.Some? { NoRowPatched(db.jobs, id, SetProject(project.value)); }
  }

  lemma NothingToFan(db: Db, id: nat, src: JobRow, plates: seq<string>)
    requires Consistent(db) && GetJob(db, id).None? && |plates| == 1
    ensures Confirmed(db, id, plates) == db
    ensures forall q :: FanTable(db.jobs, db, src, plates[1..], q) == db.jobs
    ensures forall x :: x in db.jobs ==> x.id < db.nextJob
  {
    hide Update, Find;
    NoRowPatched(db.jobs, id, SetPlate(Some(plates[0])));
    NoRowPatched(db.jobs, id, SetStatus(Queued, None));
  }

  lemma PlannedKeeps(db: Db, id: nat, ams: string, filaments: Option<string>, project: Option<Option<nat>>)
    requires Consistent(db) && GetJob(db, id).Some?
    requires project.Some? && project.value.Some? ==> project.value.value in db.projects
    ensures var p := Planned(db, id, ams, filaments, project);
            && Consistent(p) && GetJob(p, id).Some?
            && Order(p) == Order(db)
            && GetJob(p, id).value.status == GetJob(db, id).value.status
  {
    hide Sort, Find, DistinctIds, Consistent, Update, Order;
    var a := Patched(db, id, SetPlan(ams, filaments));
    PatchConsistent(db, id, SetPlan(ams, filaments));
    PatchKeepsOrder(db, id, SetPlan(ams, filaments));
    FindUpdate(db.jobs, id, SetPlan(ams, filaments), id);
    if project.Some? {
      PatchConsistent(a, id, SetProject(project.value));
      PatchKeepsOrder(a, id, SetProject(project.value));
      FindUpdate(a.jobs, id, SetProject(project.value), id);
    }
  }

  lemma ConfirmedTable(p: Db, id: nat, src: JobRow, plates: seq<string>)
    requires Consistent(p) && GetJob(p, id) == Some(src) && |plates| > 0 && PlateNames(plates)
    ensures var rest, confirmed := plates[1..], Confirmed(p, id, plates);
            && DistinctIds(confirmed.jobs)
            && (forall x :: x in confirmed.jobs ==> x.id < p.nextJob)
            && Confirmed(WithClones(p, src, rest, |rest|, 0), id, plates).jobs
               == FanTable(confirmed.jobs, p, src, rest, 0)
  {
    var rest := plates[1..];
    var rows := CloneRows(p, src, rest, |rest|, 0);
    var a := Patched(p, id, SetPlate(Some(plates[0])));
    PatchConsistent(p, id, SetPlate(Some(plates[0])));
    PatchConsistent(a, id, SetStatus(Queued, None));
    UpdateAppend(p.jobs, rows, id, SetPlate(Some(plates[0])));
    UpdateAbsent(rows, id, SetPlate(Some(plates[0])));
    UpdateAppend(a.jobs, rows, id, SetStatus(Queued, None));
    UpdateAbsent(rows, id, SetStatus(Queued, None));
  }

  // ---- what the requester sees ----

  /** The ids that a fan-out of n plates occupies: the source, then the clones. */
  function FanIds(db: Db, id: nat, n: nat): seq<nat>
    requires n > 0
  {
    [id] + seq(n - 1, j => db.nextJob + j)
  }

  /** Job `id` is queued to print `plate` under the plan and project of `src`. */
  predicate QueuedFor(db: Db, id: nat, plate: string, src: JobRow) {
    var row := GetJob(db, id);
    && row.Some?
    && row.value.status == Queued && row.value.plate == Some(plate)
    && row.value.plan == src.plan && row.value.project == src.project
  }

  lemma WithClonesStep(db: Db, src: JobRow, plates: seq<string>, n: nat)
    requires n < |plates|
    ensures var w, r := WithClones(db, src, plates, n, 0), CloneRow(db, src, plates, n);
            && WithClones(db, src, plates, n + 1, 0) == Inserted(w, r)
            && r.id == w.nextJob && r.position == NextPosition(w)
            && CloneRows(db, src, plates, n + 1, 0) == CloneRows(db, src, plates, n, 0) + [r]
  {
    NextAfterClones(db, src, plates, n);
    var w, r := WithClones(db, src, plates, n, 0), CloneRow(db, src, plates, n);
    assert CloneRows(db, src, plates, n + 1, 0) == CloneRows(db, src, plates, n, 0) + [r];
    assert WithClones(db, src, plates, n + 1, 0).jobs == Inserted(w, r).jobs;
  }

  lemma NoClones(db: Db, src: JobRow, plates: seq<string>)
    ensures WithClones(db, src, plates, 0, 0) == db
    ensures ListJobs(db) + CloneRows(db, src, plates, 0, 0) == ListJobs(db)
  {
    assert db.jobs + CloneRows(db, src, plates, 0, 0) == db.jobs;
  }

  lemma AppendOne(a: seq<JobRow>, b: seq<JobRow>, r: JobRow)
    ensures (a + b) + [r] == a + (b + [r])
  {
  }

  lemma {:induction false} CloneRowsAppended(db: Db, src: JobRow, plates: seq<string>, n: nat)
    requires Consistent(db) && n <= |plates| && (src.project.Some? ==> src.project.value in db.projects)
             && PlateNames(plates)
    ensures Consistent(WithClones(db, src, plates, n, 0))
    ensures ListJobs(WithClones(db, src, plates, n, 0)) == ListJobs(db) + CloneRows(db, src, plates, n, 0)
  {
    hide Sort, Consistent, CloneRows, NextPosition, ListJobs;
    if n == 0 {
      NoClones(db, src, plates);
    } else {
      CloneRowsAppended(db, src, plates, n - 1);
      WithClonesStep(db, src, plates, n - 1);
      InsertedAppends(WithClones(db, src, plates, n - 1, 0), CloneRow(db, src, plates, n - 1));
      AppendOne(ListJobs(db), CloneRows(db, src, plates, n - 1, 0), CloneRow(db, src, plates, n - 1));
    }
  }

  /** The rows `front` followed by all the clones, the first q of them enqueued. */
  function FanTable(front: seq<JobRow>, db: Db, src: JobRow, plates: seq<string>, q: nat): seq<JobRow> {
    front + CloneRows(db, src, plates, |plates|, q)
  }

  lemma FanTableKeys(front: seq<JobRow>, db: Db, src: JobRow, plates: seq<string>, q: nat)
    requires DistinctIds(front) && forall x :: x in front ==> x.id < db.nextJob
    ensures DistinctIds(FanTable(front, db, src, plates, q))
  {
    var rows := FanTable(front, db, src, plates, q);
    forall i, j | 0 <= i < j < |rows| ensures rows[i].id != rows[j].id {
      if i < |front| { assert front[i] in front; }
    }
  }

  /** Enqueueing the q-th clone is one patch of the table. */
  lemma EnqueueStep(db: Db, src: JobRow, front: seq<JobRow>, plates: seq<string>, q: nat)
    requires q < |plates| && forall x :: x in front ==> x.id < db.nextJob
    ensures Update(FanTable(front, db, src, plates, q), db.nextJob + q, SetStatus(Queued, None))
            == FanTable(front, db, src, plates, q + 1)
  {
    var rows, p := CloneRows(db, src, plates, |plates|, q), SetStatus(Queued, None);
    UpdateAppend(front, rows, db.nextJob + q, p);
    UpdateAbsent(front, db.nextJob + q, p);
    assert Update(rows, db.nextJob + q, p) == CloneRows(db, src, plates, |plates|, q + 1);
  }

  lemma SortUpdateIds(rows: seq<JobRow>, id: nat, p: Patch)
    requires DistinctIds(rows) && !p.SetPosition?
    ensures Ids(Sort(Update(rows, id, p))) == Ids(Sort(rows))
  {
    SortUpdate(rows, id, p);
  }

  /** Enqueueing the clones moves no position. */
  lemma {:induction false} EnqueueKeepsOrder(db: Db, src: JobRow, front: seq<JobRow>, plates: seq<string>, q: nat)
    requires q <= |plates| && DistinctIds(front)
    requires forall x :: x in front ==> x.id < db.nextJob
    ensures Ids(Sort(FanTable(front, db, src, plates, q))) == Ids(Sort(FanTable(front, db, src, plates, 0)))
  {
    hide *;
    if q > 0 {
      EnqueueKeepsOrder(db, src, front, plates, q - 1);
      FanTableKeys(front, db, src, plates, q - 1);
      EnqueueStep(db, src, front, plates, q - 1);
      SortUpdateIds(FanTable(front, db, src, plates, q - 1), db.nextJob + q - 1, SetStatus(Queued, None));
    }
  }

  /** After a successful fan-out of K plates, repeats allowed, the K jobs stand in the requested order
      with the requested plates, all queued with the same plan and project; the clones follow
      everything that was in the queue before, and no other row changed. */
  lemma FanOutExact(db: Db, id: nat, plates: seq<string>)
    requires Consistent(db) && GetJob(db, id).Some? && |plates| > 0 && PlateNames(plates)
    ensures var r, src, ids := FannedOut(db, id, plates), GetJob(db, id).value, FanIds(db, id, |plates|);
            && id in Order(db) && Order(r) == Order(db) + ids[1..]
            && (forall j :: 0 <= j < |plates| ==> QueuedFor(r, ids[j], plates[j], src))
            && (forall x :: x in db.jobs && x.id != id ==> x in r.jobs)
  {
    var r, src, ids := FannedOut(db, id, plates), GetJob(db, id).value, FanIds(db, id, |plates|);
    ConfirmedTable(db, id, src, plates);
    FanOrder(db, id, src, plates);
    forall j | 0 <= j < |plates| ensures QueuedFor(r, ids[j], plates[j], src) { FanRow(db, id, plates, j); }
    forall x | x in db.jobs && x.id != id ensures x in r.jobs {
      var i :| 0 <= i < |db.jobs| && db.jobs[i] == x;
      assert r.jobs[i] == Confirmed(db, id, plates).jobs[i] == x;
    }
  }

  lemma ConfirmedOrder(db: Db, id: nat, plates: seq<string>)
    requires Consistent(db) && |plates| > 0 && PlateNames(plates)
    ensures Ids(Sort(Confirmed(db, id, plates).jobs)) == Ids(Sort(db.jobs))
  {
    hide Sort, Consistent;
    PatchConsistent(db, id, SetPlate(Some(plates[0])));
    KeysDistinct(db);
    KeysDistinct(Patched(db, id, SetPlate(Some(plates[0]))));
    SortUpdateIds(db.jobs, id, SetPlate(Some(plates[0])));
    SortUpdateIds(Patched(db, id, SetPlate(Some(plates[0]))).jobs, id, SetStatus(Queued, None));
  }

  lemma KeysDistinct(db: Db)
    requires Consistent(db)
    ensures DistinctIds(db.jobs)
  {
  }

  lemma SourceRow(db: Db, id: nat)
    requires Consistent(db) && GetJob(db, id).Some?
    ensures var src := GetJob(db, id).value;
            src.id == id && id < db.nextJob && (src.project.Some? ==> src.project.value in db.projects)
  {
  }

  lemma FanOrder(db: Db, id: nat, src: JobRow, plates: seq<string>)
    requires Consistent(db) && GetJob(db, id) == Some(src) && |plates| > 0 && PlateNames(plates)
    ensures id in Order(db) && Order(FannedOut(db, id, plates)) == Order(db) + FanIds(db, id, |plates|)[1..]
  {
    hide Sort, Consistent, Confirmed, FanTable, CloneRows, DistinctIds, Ids, GetJob, FanIds;
    var rest := plates[1..];
    SourceRow(db, id);
    CloneRowsAppended(db, src, rest, |rest|);
    ConfirmedOrder(WithClones(db, src, rest, |rest|, 0), id, plates);
    ConfirmedTable(db, id, src, plates);
    EnqueueKeepsOrder(db, src, Confirmed(db, id, plates).jobs, rest, |rest|);
    CloneIds(db, id, src, plates);
    InOrder(db, id);
  }

  lemma CloneIds(db: Db, id: nat, src: JobRow, plates: seq<string>)
    requires |plates| > 0
    ensures Ids(ListJobs(db) + CloneRows(db, src, plates[1..], |plates| - 1, 0))
            == Order(db) + FanIds(db, id, |plates|)[1..]
  {
  }

  lemma InOrder(db: Db, id: nat)
    requires GetJob(db, id).Some?
    ensures id in Order(db)
  {
    SortMembers(db.jobs);
    var i :| 0 <= i < |db.jobs| && ListJobs(db)[i] == GetJob(db, id).value;
    assert Order(db)[i] == id;
  }

  lemma RowIsQueued(db: Db, i: nat, plate: string, src: JobRow)
    requires DistinctIds(db.jobs) && i < |db.jobs|
    requires db.jobs[i].status == Queued && db.jobs[i].plate == Some(plate)
    requires db.jobs[i].plan == src.plan && db.jobs[i].project == src.project
    ensures QueuedFor(db, db.jobs[i].id, plate, src)
  {
    hide DistinctIds, Find;
    FindUnique(db.jobs, i);
  }

  /** The confirmed job's own row stays where it was. */
  lemma ConfirmedRow(db: Db, id: nat, plates: seq<string>) returns (i: nat)
    requires GetJob(db, id).Some? && |plates| > 0
    ensures var rows := Confirmed(db, id, plates).jobs;
            i < |rows| && rows[i]
              == Apply(SetStatus(Queued, None), Apply(SetPlate(Some(plates[0])), GetJob(db, id).value))
  {
    hide Find;
    i :| 0 <= i < |db.jobs| && db.jobs[i] == GetJob(db, id).value;
  }

  /** The j-th clone's row comes behind the old table. */
  lemma CloneAt(front: seq<JobRow>, db: Db, src: JobRow, rest: seq<string>, j: nat)
    requires j < |rest|
    ensures var rows := FanTable(front, db, src, rest, |rest|);
            |front| + j < |rows| && rows[|front| + j] == Apply(SetStatus(Queued, None), CloneRow(db, src, rest, j))
  {
    hide NextPosition;
  }

  lemma FanRow(db: Db, id: nat, plates: seq<string>, j: nat)
    requires Consistent(db) && GetJob(db, id).Some? && j < |plates| && PlateNames(plates)
    ensures QueuedFor(FannedOut(db, id, plates), FanIds(db, id, |plates|)[j], plates[j], GetJob(db, id).value)
  {
    hide Sort, Consistent, Find, DistinctIds, Confirmed, QueuedFor, NextPosition;
    var r, src, rest := FannedOut(db, id, plates), GetJob(db, id).value, plates[1..];
    var front := Confirmed(db, id, plates).jobs;
    ConfirmedTable(db, id, src, plates);
    FanTableKeys(front, db, src, rest, |rest|);
    var i: nat;
    if j == 0 {
      i := ConfirmedRow(db, id, plates);
      assert r.jobs[i] == front[i];
    } else {
      i := |front| + (j - 1);
      CloneAt(front, db, src, rest, j - 1);
    }
    hide FanTable, FannedOut;
    RowIsQueued(r, i, plates[j], src);
  }

  /** A failed fan-out adds no queued job. It does leave one stray row, the clone whose copy threw,
      in status Processing: the rollback is never exact. */
  lemma FailedFanOut(db: Db, id: nat, rest: seq<string>, k: nat)
    requires Consistent(db) && GetJob(db, id).Some? && k < |rest|
    ensures var r := RolledBack(db, GetJob(db, id).value, rest, k);
            && ListByStatus(r, Queued) == ListByStatus(db, Queued)
            && r.jobs == db.jobs + [r.jobs[|db.jobs|]] && r != db
            && r.jobs[|db.jobs|].status == Processing && r.jobs[|db.jobs|].plate == Some(rest[k])
  {
    var row := CloneRow(db, GetJob(db, id).value, rest, k);
    assert (db.jobs + [row])[..|db.jobs|] == db.jobs;
    assert !HasStatus(Queued)(row);
    assert Filter(db.jobs + [row], HasStatus(Queued)) == Filter(db.jobs, HasStatus(Queued)) + [];
    assert Filter(db.jobs, HasStatus(Queued)) + [] == Filter(db.jobs, HasStatus(Queued));
  }
}
