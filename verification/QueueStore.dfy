/**
 The queue's tables (src/db/repo.ts over the schema of src/db/migrations.ts). SQL statements are
 modelled by what they do to the rows; CHECK and foreign-key violations are reported as `ok == false`
 with the tables unchanged. The theorems say that the position column implements a plain sequence.
 */
module QueueStore {
  import opened Wrappers

  datatype Status = Processing | Queued | Printing | Success | Failed | Aborted | WaitingForRefill
  datatype Policy = Strict | Propagate
  datatype PendingType =
    FilamentConfirm | StockerRefill | RetryDecision | FilamentRunout | ColorDecision | MechanicalCheck
  datatype Severity = BlockingQueue | BlockingJob | Advisory

  /** The columns that a clone copies verbatim, apart from the project. */
  datatype Plan = Plan(filename: string, filaments: Option<string>, amsMapping: Option<string>,
                       estimatedSeconds: Option<int>)

  datatype JobRow = JobRow(
    id: nat, project: Option<nat>, plan: Plan, status: Status, position: int, attempts: int, lastError: Option<string>,
    substitutedSlot: Option<int>, substitutedColor: Option<string>,
    runoutOverride: Option<string>, plate: Option<string>)

  datatype PendingRow = PendingRow(
    id: nat, kind: PendingType, severity: Severity, job: Option<nat>, project: Option<nat>, resolved: bool)

  datatype Stocker = Stocker(capacity: int, remaining: int)

  /** Rows in insertion order; `nextJob` and `nextPending` are the AUTOINCREMENT counters. */
  datatype Db = Db(jobs: seq<JobRow>, nextJob: nat, pending: seq<PendingRow>, nextPending: nat,
                   stocker: Option<Stocker>, projects: map<nat, Policy>, settings: map<string, string>)

  predicate DistinctIds(rows: seq<JobRow>) {
    forall i, j :: 0 <= i < j < |rows| ==> rows[i].id != rows[j].id
  }

  /** A pending action names an existing job and an existing project, if any. */
  predicate CanReference(db: Db, job: Option<nat>, project: Option<nat>) {
    (job.Some? ==> GetJob(db, job.value).Some?) && (project.Some? ==> project.value in db.projects)
  }

  predicate References(db: Db) { forall a :: a in db.pending ==> CanReference(db, a.job, a.project) }

  predicate IsDigit(c: char) { '0' <= c <= '9' }

  /** The CHECK on the selected plate: NULL, or GLOB 'plate_[0-9]*'. */
  predicate PlateAllowed(plate: Option<string>) {
    plate.Some? ==> |plate.value| >= 7 && plate.value[..6] == "plate_" && IsDigit(plate.value[6])
  }

  /** The schema's constraints: primary keys, counters, the CHECKs, and the foreign keys. */
  predicate Consistent(db: Db) {
    && DistinctIds(db.jobs)
    && (forall r :: r in db.jobs ==> r.id < db.nextJob && (r.project.Some? ==> r.project.value in db.projects))
    && (forall r :: r in db.jobs ==> PlateAllowed(r.plate))
    && (forall a :: a in db.pending ==> a.id < db.nextPending)
    && References(db)
    && (db.stocker.Some? ==> 0 <= db.stocker.value.remaining <= db.stocker.value.capacity)
  }

  // ---- updates of one row ----

  datatype Patch =
    | SetStatus(status: Status, error: Option<string>)
    | BumpAttempts
    | SetSubstitution(slot: int, color: string)
    | SetPlan(amsMapping: string, filaments: Option<string>)
    | SetPlate(plate: Option<string>)
    | SetProject(project: Option<nat>)
    | SetPosition(position: int)

  function Apply(p: Patch, r: JobRow): (q: JobRow)
    ensures q.id == r.id
  {
    match p
    case SetStatus(status, error) => r.(status := status, lastError := error)
    case BumpAttempts => r.(attempts := r.attempts + 1)
    case SetSubstitution(slot, color) => r.(substitutedSlot := Some(slot), substitutedColor := Some(color))
    case SetPlan(ams, filaments) =>
      r.(plan := r.plan.(amsMapping := Some(ams), filaments := if filaments.Some? then filaments else r.plan.filaments))
    case SetPlate(plate) => r.(plate := plate)
    case SetProject(project) => r.(project := project)
    case SetPosition(position) => r.(position := position)
  }

  /** UPDATE jobs SET ... WHERE id = ?; nothing happens when no row matches. */
  function Update(rows: seq<JobRow>, id: nat, p: Patch): (r: seq<JobRow>)
    ensures |r| == |rows|
    ensures forall i :: 0 <= i < |rows| ==> r[i] == if rows[i].id == id then Apply(p, rows[i]) else rows[i]
  {
    seq(|rows|, i requires 0 <= i < |rows| => if rows[i].id == id then Apply(p, rows[i]) else rows[i])
  }

  function Patched(db: Db, id: nat, p: Patch): Db { db.(jobs := Update(db.jobs, id, p)) }

  function Find(rows: seq<JobRow>, id: nat): (r: Option<JobRow>)
    ensures r.Some? ==> r.value in rows && r.value.id == id
    ensures r.None? ==> forall x :: x in rows ==> x.id != id
    decreases |rows|
  {
    if |rows| == 0 then None
    else if rows[|rows| - 1].id == id then Some(rows[|rows| - 1])
    else Find(rows[..|rows| - 1], id)
  }

  function GetJob(db: Db, id: nat): Option<JobRow> { Find(db.jobs, id) }

  lemma FindUnique(rows: seq<JobRow>, i: nat)
    requires DistinctIds(rows) && i < |rows|
    ensures Find(rows, rows[i].id) == Some(rows[i])
  {
  }

  /** Reading back after a patch. */
  lemma {:induction false} FindUpdate(rows: seq<JobRow>, id: nat, p: Patch, x: nat)
    ensures Find(Update(rows, id, p), x)
         == match Find(rows, x) case None => None case Some(r) => Some(if x == id then Apply(p, r) else r)
    decreases |rows|
  {
    if |rows| > 0 {
      FindUpdate(rows[..|rows| - 1], id, p, x);
      assert Update(rows, id, p)[..|rows| - 1] == Update(rows[..|rows| - 1], id, p);
    }
  }

  // ---- ordered reads ----

  predicate Before(a: JobRow, b: JobRow) { a.position < b.position || (a.position == b.position && a.id < b.id) }

  predicate StrictlySorted(rows: seq<JobRow>) {
    forall i, j :: 0 <= i < j < |rows| ==> Before(rows[i], rows[j])
  }

  function Insert(r: JobRow, rows: seq<JobRow>): seq<JobRow>
    decreases |rows|
  {
    if |rows| == 0 || Before(rows[|rows| - 1], r) then rows + [r]
    else Insert(r, rows[..|rows| - 1]) + [rows[|rows| - 1]]
  }

  /** ORDER BY position ASC, id ASC. */
  function Sort(rows: seq<JobRow>): seq<JobRow>
    decreases |rows|
  {
    if |rows| == 0 then [] else Insert(rows[|rows| - 1], Sort(rows[..|rows| - 1]))
  }

  function Filter(rows: seq<JobRow>, keep: JobRow -> bool): seq<JobRow>
    decreases |rows|
  {
    if |rows| == 0 then []
    else Filter(rows[..|rows| - 1], keep) + if keep(rows[|rows| - 1]) then [rows[|rows| - 1]] else []
  }

  function HasStatus(s: Status): JobRow -> bool { (r: JobRow) => r.status == s }

  function OtherThan(id: nat): JobRow -> bool { (r: JobRow) => r.id != id }

  function ListJobs(db: Db): seq<JobRow> { Sort(db.jobs) }

  function ListByStatus(db: Db, s: Status): seq<JobRow> { Sort(Filter(db.jobs, HasStatus(s))) }

  lemma {:induction false} InsertMembers(r: JobRow, rows: seq<JobRow>)
    ensures |Insert(r, rows)| == |rows| + 1
    ensures forall x :: x in Insert(r, rows) <==> x == r || x in rows
    decreases |rows|
  {
    if |rows| > 0 && !Before(rows[|rows| - 1], r) {
      InsertMembers(r, rows[..|rows| - 1]);
      assert rows == rows[..|rows| - 1] + [rows[|rows| - 1]];
    }
  }

  lemma {:induction false} SortMembers(rows: seq<JobRow>)
    ensures |Sort(rows)| == |rows|
    ensures forall x :: x in Sort(rows) <==> x in rows
    decreases |rows|
  {
    if |rows| > 0 {
      SortMembers(rows[..|rows| - 1]);
      InsertMembers(rows[|rows| - 1], Sort(rows[..|rows| - 1]));
      assert rows == rows[..|rows| - 1] + [rows[|rows| - 1]];
    }
  }

  lemma {:induction false} InsertSorted(r: JobRow, rows: seq<JobRow>)
    requires StrictlySorted(rows) && forall x :: x in rows ==> x.id != r.id
    ensures StrictlySorted(Insert(r, rows))
    decreases |rows|
  {
    if |rows| > 0 {
      var front, last := rows[..|rows| - 1], rows[|rows| - 1];
      if Before(last, r) {
      } else {
        InsertSorted(r, front);
        InsertMembers(r, front);
        assert forall x :: x in Insert(r, front) ==> Before(x, last);
      }
    }
  }

  lemma {:induction false} SortSorted(rows: seq<JobRow>)
    requires DistinctIds(rows)
    ensures StrictlySorted(Sort(rows))
    decreases |rows|
  {
    if |rows| > 0 {
      var front := rows[..|rows| - 1];
      SortSorted(front);
      SortMembers(front);
      forall x | x in Sort(front) ensures x.id != rows[|rows| - 1].id {
        var i :| 0 <= i < |front| && front[i] == x;
        assert rows[i] == x;
      }
      InsertSorted(rows[|rows| - 1], Sort(front));
    }
  }

  /** Sorting keeps the keys distinct. */
  lemma SortDistinct(rows: seq<JobRow>)
    requires DistinctIds(rows)
    ensures DistinctIds(Sort(rows))
  {
    SortSorted(rows);
    SortMembers(rows);
    var s := Sort(rows);
    forall i, j | 0 <= i < j < |s| ensures s[i].id != s[j].id {
      assert Before(s[i], s[j]);
      assert s[i] in rows && s[j] in rows;
      var a :| 0 <= a < |rows| && rows[a] == s[i];
      var b :| 0 <= b < |rows| && rows[b] == s[j];
    }
  }

  lemma {:induction false} FilterMembers(rows: seq<JobRow>, keep: JobRow -> bool)
    ensures forall x :: x in Filter(rows, keep) <==> x in rows && keep(x)
    ensures |Filter(rows, keep)| <= |rows|
    decreases |rows|
  {
    if |rows| > 0 {
      FilterMembers(rows[..|rows| - 1], keep);
      assert rows == rows[..|rows| - 1] + [rows[|rows| - 1]];
    }
  }

  lemma {:induction false} FilterSorted(rows: seq<JobRow>, keep: JobRow -> bool)
    requires StrictlySorted(rows)
    ensures StrictlySorted(Filter(rows, keep))
    decreases |rows|
  {
    if |rows| > 0 {
      var front, last := rows[..|rows| - 1], rows[|rows| - 1];
      FilterSorted(front, keep);
      FilterMembers(front, keep);
      forall x | x in Filter(front, keep) ensures Before(x, last) {
        var i :| 0 <= i < |front| && front[i] == x;
        assert rows[i] == x;
      }
    }
  }

  lemma {:induction false} FilterDistinct(rows: seq<JobRow>, keep: JobRow -> bool)
    requires DistinctIds(rows)
    ensures DistinctIds(Filter(rows, keep))
    decreases |rows|
  {
    if |rows| > 0 {
      var front := rows[..|rows| - 1];
      FilterDistinct(front, keep);
      FilterMembers(front, keep);
      forall x | x in Filter(front, keep) ensures x.id != rows[|rows| - 1].id {
        var i :| 0 <= i < |front| && front[i] == x;
        assert rows[i] == x;
      }
    }
  }

  lemma Inhabited(rows: seq<JobRow>)
    requires |rows| > 0
    ensures exists x :: x in rows
  {
    assert rows[0] in rows;
  }

  /** A strictly sorted list is determined by its members. */
  lemma {:induction false} SortedUnique(a: seq<JobRow>, b: seq<JobRow>)
    requires StrictlySorted(a) && StrictlySorted(b)
    requires forall x :: x in a <==> x in b
    ensures a == b
    decreases |a|
  {
    if |a| == 0 {
      if |b| > 0 { Inhabited(b); }
    } else {
      assert a[0] in b;
      assert b[0] in a;
      assert a[0] == b[0];
      forall x ensures x in a[1..] <==> x in b[1..] {
        assert x in a[1..] ==> x in a && x != a[0];
        assert x in b[1..] ==> x in b && x != b[0];
        assert x in a ==> x == a[0] || x in a[1..];
        assert x in b ==> x == b[0] || x in b[1..];
      }
      SortedUnique(a[1..], b[1..]);
      assert a == [a[0]] + a[1..] && b == [b[0]] + b[1..];
    }
  }

  /** Filtering and sorting commute. */
  lemma SortFilter(rows: seq<JobRow>, keep: JobRow -> bool)
    requires DistinctIds(rows)
    ensures Sort(Filter(rows, keep)) == Filter(Sort(rows), keep)
  {
    var a, b := Sort(Filter(rows, keep)), Filter(Sort(rows), keep);
    FilterDistinct(rows, keep);
    SortSorted(Filter(rows, keep));
    SortSorted(rows);
    FilterSorted(Sort(rows), keep);
    SortMembers(Filter(rows, keep));
    SortMembers(rows);
    FilterMembers(rows, keep);
    FilterMembers(Sort(rows), keep);
    SortedUnique(a, b);
  }

  /** The rows of one status are the queue order restricted to that status. */
  lemma ListByStatusIsFilter(db: Db, s: Status)
    requires Consistent(db)
    ensures ListByStatus(db, s) == Filter(ListJobs(db), HasStatus(s))
  {
    SortFilter(db.jobs, HasStatus(s));
  }

  // ---- the position column refines a sequence of ids ----

  function Ids(rows: seq<JobRow>): (r: seq<nat>)
    ensures |r| == |rows|
    ensures forall i :: 0 <= i < |rows| ==> r[i] == rows[i].id
  {
    seq(|rows|, i requires 0 <= i < |rows| => rows[i].id)
  }

  function Order(db: Db): seq<nat> { Ids(ListJobs(db)) }

  function MaxPosition(rows: seq<JobRow>): (m: Option<int>)
    ensures m.None? <==> |rows| == 0
    ensures forall x :: x in rows ==> m.Some? && x.position <= m.value
    decreases |rows|
  {
    if |rows| == 0 then None
    else
      var m := MaxPosition(rows[..|rows| - 1]);
      var last := rows[|rows| - 1].position;
      assert rows == rows[..|rows| - 1] + [rows[|rows| - 1]];
      if m.None? || m.value < last then Some(last) else m
  }

  /** COALESCE(MAX(position), 0) + 1. */
  function NextPosition(db: Db): int {
    var m := MaxPosition(db.jobs);
    (if m.None? then 0 else m.value) + 1
  }

  function NewRow(db: Db, project: Option<nat>, plan: Plan, plate: Option<string>): JobRow {
    JobRow(db.nextJob, project, plan, Processing, NextPosition(db), 0, None, None, None, None, plate)
  }

  function Inserted(db: Db, r: JobRow): Db { db.(jobs := db.jobs + [r], nextJob := db.nextJob + 1) }

  function Created(db: Db, project: Option<nat>, plan: Plan): Db { Inserted(db, NewRow(db, project, plan, None)) }

  function Cloned(db: Db, src: JobRow, plate: Option<string>): Db {
    Inserted(db, NewRow(db, src.project, src.plan, plate))
  }

  function Deleted(db: Db, id: nat): Db { db.(jobs := Filter(db.jobs, OtherThan(id))) }

  /** Pending actions stay valid as long as the jobs and projects they name do. */
  lemma ReferencesKept(a: Db, b: Db)
    requires References(a) && b.pending == a.pending && a.projects.Keys <= b.projects.Keys
    requires forall x :: GetJob(a, x).Some? && Referenced(a, x) ==> GetJob(b, x).Some?
    ensures References(b)
  {
    hide GetJob;
    forall q | q in b.pending
      ensures CanReference(b, q.job, q.project)
    {
      var i :| 0 <= i < |a.pending| && a.pending[i] == q;
      assert CanReference(a, q.job, q.project);
      if q.job.Some? { assert Referenced(a, q.job.value); }
    }
  }

  lemma InsertedConsistent(db: Db, r: JobRow)
    requires Consistent(db) && r.id == db.nextJob && (r.project.Some? ==> r.project.value in db.projects)
             && PlateAllowed(r.plate)
    ensures Consistent(Inserted(db, r))
  {
    ReferencesKept(db, Inserted(db, r));
    hide References, Find, PlateAllowed;
  }

  lemma InsertedAppends(db: Db, r: JobRow)
    requires Consistent(db) && r.id == db.nextJob && r.position == NextPosition(db)
    requires (r.project.Some? ==> r.project.value in db.projects) && PlateAllowed(r.plate)
    ensures Consistent(Inserted(db, r))
    ensures ListJobs(Inserted(db, r)) == ListJobs(db) + [r]
  {
    hide References, Find;
    InsertedConsistent(db, r);
    var jobs := db.jobs + [r];
    assert jobs[..|jobs| - 1] == db.jobs;
    SortMembers(db.jobs);
    if |db.jobs| > 0 {
      assert Sort(db.jobs)[|db.jobs| - 1] in db.jobs;
    }
  }

  /** A new job goes to the end of the queue. */
  lemma CreateAppends(db: Db, project: Option<nat>, plan: Plan)
    requires Consistent(db) && (project.Some? ==> project.value in db.projects)
    ensures Consistent(Created(db, project, plan))
    ensures Order(Created(db, project, plan)) == Order(db) + [db.nextJob]
  {
    InsertedAppends(db, NewRow(db, project, plan, None));
  }

  /** A clone goes to the end of the queue with its source's plan and project and its own plate. */
  lemma CloneAppends(db: Db, id: nat, plate: Option<string>)
    requires Consistent(db) && GetJob(db, id).Some? && PlateAllowed(plate)
    ensures var src := GetJob(db, id).value; var r := Cloned(db, src, plate);
            && Consistent(r)
            && Order(r) == Order(db) + [db.nextJob]
            && GetJob(r, db.nextJob).Some?
            && (var c := GetJob(r, db.nextJob).value;
                c.plan == src.plan && c.project == src.project && c.plate == plate && c.status == Processing)
  {
    var src := GetJob(db, id).value;
    InsertedAppends(db, NewRow(db, src.project, src.plan, plate));
    FindUnique(Cloned(db, src, plate).jobs, |db.jobs|);
  }

  function Without(ids: seq<nat>, id: nat): seq<nat>
    decreases |ids|
  {
    if |ids| == 0 then []
    else Without(ids[..|ids| - 1], id) + if ids[|ids| - 1] != id then [ids[|ids| - 1]] else []
  }

  lemma {:induction false} IdsOfFilter(rows: seq<JobRow>, id: nat)
    ensures Ids(Filter(rows, OtherThan(id))) == Without(Ids(rows), id)
    decreases |rows|
  {
    if |rows| > 0 {
      IdsOfFilter(rows[..|rows| - 1], id);
      assert Ids(rows)[..|rows| - 1] == Ids(rows[..|rows| - 1]);
    }
  }

  /** Deleting a job removes it from the order and moves nothing else. */
  lemma DeleteRemoves(db: Db, id: nat)
    requires Consistent(db)
    ensures !Referenced(db, id) ==> Consistent(Deleted(db, id))
    ensures Order(Deleted(db, id)) == Without(Order(db), id)
  {
    SortFilter(db.jobs, OtherThan(id));
    IdsOfFilter(Sort(db.jobs), id);
    FilterDistinct(db.jobs, OtherThan(id));
    FilterMembers(db.jobs, OtherThan(id));
    if !Referenced(db, id) { DeleteReferences(db, id); }
  }

  lemma DeleteReferences(db: Db, id: nat)
    requires References(db) && !Referenced(db, id)
    ensures References(Deleted(db, id))
  {
    FilterMembers(db.jobs, OtherThan(id));
    hide Filter, References;
    forall x | GetJob(db, x).Some? && Referenced(db, x)
      ensures GetJob(Deleted(db, id), x).Some?
    {
      assert x != id;
      assert GetJob(db, x).value in Deleted(db, id).jobs;
    }
    ReferencesKept(db, Deleted(db, id));
  }

  lemma UpdateMembers(a: seq<JobRow>, b: seq<JobRow>, id: nat, p: Patch)
    requires forall x :: x in a ==> x in b
    ensures forall x :: x in Update(a, id, p) ==> x in Update(b, id, p)
  {
    forall x | x in Update(a, id, p) ensures x in Update(b, id, p) {
      var i :| 0 <= i < |a| && Update(a, id, p)[i] == x;
      assert a[i] in b;
      var j :| 0 <= j < |b| && b[j] == a[i];
      assert Update(b, id, p)[j] == x;
    }
  }

  lemma PatchReferences(db: Db, id: nat, p: Patch)
    requires References(db)
    ensures References(Patched(db, id, p))
  {
    hide References, Update;
    forall x | GetJob(db, x).Some?
      ensures GetJob(Patched(db, id, p), x).Some?
    { FindUpdate(db.jobs, id, p, x); }
    ReferencesKept(db, Patched(db, id, p));
  }

  /** No constraint of the schema refuses the patch. */
  predicate Permitted(db: Db, p: Patch) {
    && (p.SetProject? && p.project.Some? ==> p.project.value in db.projects)
    && (p.SetPlate? ==> PlateAllowed(p.plate))
  }

  lemma PatchConsistent(db: Db, id: nat, p: Patch)
    requires Consistent(db) && Permitted(db, p)
    ensures Consistent(Patched(db, id, p))
  {
    PatchReferences(db, id, p);
    assert DistinctIds(Update(db.jobs, id, p));
    hide References, Find, PlateAllowed, DistinctIds;
    var rows := Update(db.jobs, id, p);
    forall r | r in rows
      ensures r.id < db.nextJob && (r.project.Some? ==> r.project.value in db.projects) && PlateAllowed(r.plate)
    {
      var i :| 0 <= i < |rows| && rows[i] == r;
      assert db.jobs[i] in db.jobs;
    }
  }

  /** A patch that is permitted, or that matches no row, keeps the constraints and the order. */
  lemma PermittedPatch(db: Db, id: nat, p: Patch)
    requires Consistent(db) && !p.SetPosition? && (GetJob(db, id).Some? ==> Permitted(db, p))
    ensures Consistent(Patched(db, id, p)) && Order(Patched(db, id, p)) == Order(db)
  {
    hide Consistent, Update, Find, Order;
    PatchKeepsOrder(db, id, p);
    if Permitted(db, p) { PatchConsistent(db, id, p); } else { NoRowPatched(db.jobs, id, p); }
  }

  lemma NoRowPatched(rows: seq<JobRow>, id: nat, p: Patch)
    requires Find(rows, id).None?
    ensures Update(rows, id, p) == rows
  {
    forall i | 0 <= i < |rows| ensures rows[i].id != id { assert rows[i] in rows; }
  }

  lemma SortUpdate(rows: seq<JobRow>, id: nat, p: Patch)
    requires DistinctIds(rows) && !p.SetPosition?
    ensures Sort(Update(rows, id, p)) == Update(Sort(rows), id, p)
  {
    var a, b := Sort(Update(rows, id, p)), Update(Sort(rows), id, p);
    SortSorted(rows);
    SortSorted(Update(rows, id, p));
    SortMembers(rows);
    SortMembers(Update(rows, id, p));
    UpdateMembers(rows, Sort(rows), id, p);
    UpdateMembers(Sort(rows), rows, id, p);
    forall i, j | 0 <= i < j < |b| ensures Before(b[i], b[j]) {
      assert Before(Sort(rows)[i], Sort(rows)[j]);
    }
    SortedUnique(a, b);
  }

  /** Unless it moves positions, a patch leaves the queue order alone. */
  lemma PatchKeepsOrder(db: Db, id: nat, p: Patch)
    requires Consistent(db) && !p.SetPosition?
    ensures ListJobs(Patched(db, id, p)) == Update(ListJobs(db), id, p)
    ensures Order(Patched(db, id, p)) == Order(db)
  {
    SortUpdate(db.jobs, id, p);
  }

  /** Position i + 1 for the i-th id, one UPDATE after the other. */
  function Reordered(rows: seq<JobRow>, ids: seq<nat>): (r: seq<JobRow>)
    ensures |r| == |rows|
    decreases |ids|
  {
    if |ids| == 0 then rows
    else Update(Reordered(rows, ids[..|ids| - 1]), ids[|ids| - 1], SetPosition(|ids|))
  }

  predicate NoRepeats(ids: seq<nat>) { forall i, j :: 0 <= i < j < |ids| ==> ids[i] != ids[j] }

  lemma {:induction false} ReorderedConsistent(db: Db, ids: seq<nat>)
    requires Consistent(db)
    ensures Consistent(db.(jobs := Reordered(db.jobs, ids)))
    decreases |ids|
  {
    if |ids| > 0 {
      ReorderedConsistent(db, ids[..|ids| - 1]);
      PatchConsistent(db.(jobs := Reordered(db.jobs, ids[..|ids| - 1])), ids[|ids| - 1], SetPosition(|ids|));
    }
  }

  lemma {:induction false} ReorderedAt(rows: seq<JobRow>, ids: seq<nat>, k: nat)
    requires NoRepeats(ids) && k < |rows|
    ensures var r := Reordered(rows, ids)[k];
            && r == rows[k].(position := r.position)
            && (forall i :: 0 <= i < |ids| && ids[i] == rows[k].id ==> r.position == i + 1)
            && (rows[k].id !in ids ==> r == rows[k])
    decreases |ids|
  {
    if |ids| > 0 {
      ReorderedAt(rows, ids[..|ids| - 1], k);
      forall i | 0 <= i < |ids| && ids[i] == rows[k].id ensures Reordered(rows, ids)[k].position == i + 1 {
        if i < |ids| - 1 { assert ids[..|ids| - 1][i] == rows[k].id; }
      }
    }
  }

  lemma ReorderedRow(jobs: seq<JobRow>, ids: seq<nat>, i: nat)
    requires DistinctIds(jobs) && NoRepeats(ids) && i < |ids| && Find(jobs, ids[i]).Some?
    requires forall k :: 0 <= k < |jobs| ==> Reordered(jobs, ids)[k].id == jobs[k].id
    ensures var rows := Reordered(jobs, ids); Find(rows, ids[i]).Some? && Find(rows, ids[i]).value.position == i + 1
  {
    var y := Find(jobs, ids[i]).value;
    var k :| 0 <= k < |jobs| && jobs[k] == y;
    ReorderedAt(jobs, ids, k);
    FindUnique(Reordered(jobs, ids), k);
  }

  lemma ReorderedKeys(jobs: seq<JobRow>, ids: seq<nat>)
    requires DistinctIds(jobs) && NoRepeats(ids)
    ensures forall k :: 0 <= k < |jobs| ==> Reordered(jobs, ids)[k].id == jobs[k].id
    ensures DistinctIds(Reordered(jobs, ids))
  {
    forall k | 0 <= k < |jobs| ensures Reordered(jobs, ids)[k].id == jobs[k].id {
      ReorderedAt(jobs, ids, k);
    }
  }

  lemma ListedIds(jobs: seq<JobRow>, ids: seq<nat>)
    requires DistinctIds(jobs) && NoRepeats(ids)
    requires forall x :: x in ids <==> Find(jobs, x).Some?
    ensures forall r :: r in Reordered(jobs, ids) ==> r.id in ids
  {
    ReorderedKeys(jobs, ids);
    forall r | r in Reordered(jobs, ids) ensures r.id in ids {
      var k :| 0 <= k < |jobs| && Reordered(jobs, ids)[k] == r;
      FindUnique(jobs, k);
      assert Find(jobs, r.id).Some?;
    }
  }

  lemma SortIsListed(rows: seq<JobRow>, ids: seq<nat>)
    requires DistinctIds(rows)
    requires forall x :: x in rows ==> x.id in ids
    requires forall i :: 0 <= i < |ids| ==> Find(rows, ids[i]).Some? && Find(rows, ids[i]).value.position == i + 1
    ensures Ids(Sort(rows)) == ids
  {
    var listed := seq(|ids|, i requires 0 <= i < |ids| => Find(rows, ids[i]).value);
    forall x | x in rows ensures x in listed {
      var k :| 0 <= k < |rows| && rows[k] == x;
      FindUnique(rows, k);
      var i :| 0 <= i < |ids| && ids[i] == x.id;
      assert listed[i] == x;
    }
    SortSorted(rows);
    SortMembers(rows);
    SortedUnique(Sort(rows), listed);
  }

  /** Reordering with every job listed once makes the queue order exactly the given list. */
  lemma ReorderSetsOrder(db: Db, ids: seq<nat>)
    requires Consistent(db) && NoRepeats(ids)
    requires forall x :: x in ids <==> GetJob(db, x).Some?
    ensures Order(db.(jobs := Reordered(db.jobs, ids))) == ids
  {
    ReorderedKeys(db.jobs, ids);
    ListedIds(db.jobs, ids);
    forall i | 0 <= i < |ids|
      ensures Find(Reordered(db.jobs, ids), ids[i]).Some?
              && Find(Reordered(db.jobs, ids), ids[i]).value.position == i + 1
    {
      assert ids[i] in ids;
      ReorderedRow(db.jobs, ids, i);
    }
    SortIsListed(Reordered(db.jobs, ids), ids);
  }

  // ---- pending actions, stocker ----

  function WithPending(db: Db, kind: PendingType, severity: Severity, job: Option<nat>, project: Option<nat>): Db {
    db.(pending := db.pending + [PendingRow(db.nextPending, kind, severity, job, project, false)],
        nextPending := db.nextPending + 1)
  }

  function Resolve(rows: seq<PendingRow>, id: nat): seq<PendingRow> {
    seq(|rows|, i requires 0 <= i < |rows| => if rows[i].id == id then rows[i].(resolved := true) else rows[i])
  }

  function Resolved(db: Db, id: nat): Db { db.(pending := Resolve(db.pending, id)) }

  predicate Referenced(db: Db, job: nat) { exists i :: 0 <= i < |db.pending| && db.pending[i].job == Some(job) }

  predicate AnyBlockingQueue(db: Db) {
    exists i :: 0 <= i < |db.pending| && !db.pending[i].resolved && db.pending[i].severity == BlockingQueue
  }

  predicate AnyUnresolved(db: Db, kind: PendingType) {
    exists i :: 0 <= i < |db.pending| && !db.pending[i].resolved && db.pending[i].kind == kind
  }

  predicate HasUnresolved(db: Db, project: nat, kind: PendingType) {
    exists i :: 0 <= i < |db.pending| && !db.pending[i].resolved && db.pending[i].kind == kind
      && db.pending[i].project == Some(project)
  }

  /** `None` when the CHECK on `remaining` fails; an absent stocker row is not an error. */
  function Decremented(db: Db): Option<Db> {
    if db.stocker.None? then Some(db)
    else if db.stocker.value.remaining <= 0 then None
    else Some(db.(stocker := Some(db.stocker.value.(remaining := db.stocker.value.remaining - 1))))
  }

  function StockerSet(db: Db, capacity: int, remaining: int): Option<Db> {
    if 0 <= remaining <= capacity then Some(db.(stocker := Some(Stocker(capacity, remaining)))) else None
  }

  function Refilled(db: Db): Db {
    if db.stocker.None? then db
    else db.(stocker := Some(db.stocker.value.(remaining := db.stocker.value.capacity)))
  }

  lemma PendingKeepsConsistent(db: Db, kind: PendingType, severity: Severity, job: Option<nat>, project: Option<nat>)
    requires Consistent(db) && CanReference(db, job, project)
    ensures Consistent(WithPending(db, kind, severity, job, project))
  {
    var after := WithPending(db, kind, severity, job, project);
    hide DistinctIds, Find;
    forall a | a in after.pending
      ensures a.id < after.nextPending && CanReference(after, a.job, a.project)
    {
      assert a in db.pending || a == after.pending[|db.pending|];
    }
  }

  lemma ResolveConsistent(db: Db, id: nat)
    requires Consistent(db)
    ensures Consistent(Resolved(db, id))
  {
    var rows := Resolve(db.pending, id);
    hide DistinctIds, Find;
    forall a | a in rows
      ensures a.id < db.nextPending && CanReference(Resolved(db, id), a.job, a.project)
    {
      var i :| 0 <= i < |rows| && rows[i] == a;
      assert db.pending[i] in db.pending;
    }
  }

  // ---- the repository ----

  class Repo {
    var db: Db

    constructor (projects: map<nat, Policy>)
      ensures Consistent(db) && db == Db([], 1, [], 1, None, projects, map[])
    {
      db := Db([], 1, [], 1, None, projects, map[]);
    }

    method CreateJob(project: Option<nat>, plan: Plan) returns (id: nat, ok: bool)
      requires Consistent(db)
      modifies this
      ensures Consistent(db) && ok == (project.Some? ==> project.value in old(db).projects)
      ensures !ok ==> db == old(db)
      ensures ok ==> id == old(db).nextJob && db == Created(old(db), project, plan)
      ensures ok ==> Order(db) == Order(old(db)) + [id]
    {
      ok := project.Some? ==> project.value in db.projects;
      id := db.nextJob;
      if ok {
        CreateAppends(db, project, plan);
        db := Inserted(db, NewRow(db, project, plan, None));
      }
    }

    /** Without an override the clone prints its source's plate. `ok` is false, and nothing happens, when the
        source row is missing or the CHECK refuses the plate. */
    method CloneJob(source: nat, override: Option<Option<string>>) returns (id: nat, ok: bool)
      requires Consistent(db)
      modifies this
      ensures Consistent(db)
              && ok == (GetJob(old(db), source).Some? && (override.Some? ==> PlateAllowed(override.value)))
      ensures !ok ==> db == old(db)
      ensures ok ==> var src := GetJob(old(db), source).value;
                     id == old(db).nextJob
                       && db == Cloned(old(db), src, if override.Some? then override.value else src.plate)
      ensures ok ==> Order(db) == Order(old(db)) + [id]
    {
      var src := GetJob(db, source);
      id := db.nextJob;
      if src.None? { return id, false; }
      var plate := if override.Some? then override.value else src.value.plate;
      assert src.value in db.jobs && PlateAllowed(src.value.plate);
      ok := PlateAllowed(plate);
      if ok {
        CloneAppends(db, source, plate);
        db := Inserted(db, NewRow(db, src.value.project, src.value.plan, plate));
      }
    }

    /** Every UPDATE of one row but those of the project and the plate, which the schema can refuse. */
    method UpdateJob(id: nat, p: Patch)
      requires Consistent(db) && !p.SetProject? && !p.SetPlate?
      modifies this
      ensures Consistent(db) && db == Patched(old(db), id, p)
      ensures !p.SetPosition? ==> Order(db) == Order(old(db))
    {
      PatchConsistent(db, id, p);
      if !p.SetPosition? { PatchKeepsOrder(db, id, p); }
      db := db.(jobs := Update(db.jobs, id, p));
    }

    /** A project that does not exist makes the foreign key refuse, unless no row matches anyway. */
    method SetProject(id: nat, project: Option<nat>) returns (ok: bool)
      requires Consistent(db)
      modifies this
      ensures Consistent(db) && ok == (GetJob(old(db), id).Some? ==> Permitted(old(db), Patch.SetProject(project)))
      ensures db == if ok then Patched(old(db), id, Patch.SetProject(project)) else old(db)
      ensures Order(db) == Order(old(db))
    {
      ok := GetJob(db, id).Some? && project.Some? ==> project.value in db.projects;
      if ok {
        PermittedPatch(db, id, Patch.SetProject(project));
        db := db.(jobs := Update(db.jobs, id, Patch.SetProject(project)));
      }
    }

    /** A plate that is not a plate's name makes the CHECK refuse, unless no row matches anyway. */
    method SetSelectedPlate(id: nat, plate: Option<string>) returns (ok: bool)
      requires Consistent(db)
      modifies this
      ensures Consistent(db) && ok == (GetJob(old(db), id).Some? ==> Permitted(old(db), SetPlate(plate)))
      ensures db == if ok then Patched(old(db), id, SetPlate(plate)) else old(db)
      ensures Order(db) == Order(old(db))
    {
      ok := GetJob(db, id).Some? ==> PlateAllowed(plate);
      if ok {
        PermittedPatch(db, id, SetPlate(plate));
        db := db.(jobs := Update(db.jobs, id, SetPlate(plate)));
      }
    }

    method ReorderJobs(ids: seq<nat>)
      requires Consistent(db)
      modifies this
      ensures Consistent(db) && db == old(db).(jobs := Reordered(old(db).jobs, ids))
      ensures NoRepeats(ids) && (forall x :: x in ids <==> GetJob(old(db), x).Some?) ==> Order(db) == ids
    {
      ghost var was := db;
      var i := 0;
      while i < |ids|
        invariant 0 <= i <= |ids| && Consistent(db)
        invariant db == was.(jobs := Reordered(was.jobs, ids[..i]))
      {
        assert ids[..i + 1][..i] == ids[..i];
        UpdateJob(ids[i], SetPosition(i + 1));
        i := i + 1;
      }
      assert ids[..i] == ids;
      if NoRepeats(ids) && (forall x :: x in ids <==> GetJob(was, x).Some?) { ReorderSetsOrder(was, ids); }
    }

    /** A pending action that still names the job makes the foreign key refuse the delete. */
    method DeleteJob(id: nat) returns (ok: bool)
      requires Consistent(db)
      modifies this
      ensures Consistent(db) && ok == !Referenced(old(db), id)
      ensures db == if ok then Deleted(old(db), id) else old(db)
      ensures ok ==> Order(db) == Without(Order(old(db)), id)
    {
      ok := !Referenced(db, id);
      if ok {
        DeleteRemoves(db, id);
        db := db.(jobs := Filter(db.jobs, OtherThan(id)));
      }
    }

    method SetStocker(capacity: int, remaining: int) returns (ok: bool)
      requires Consistent(db)
      modifies this
      ensures Consistent(db) && ok == StockerSet(old(db), capacity, remaining).Some?
      ensures db == if ok then StockerSet(old(db), capacity, remaining).value else old(db)
    {
      ok := 0 <= remaining <= capacity;
      if ok { db := db.(stocker := Some(Stocker(capacity, remaining))); }
    }

    method DecrementStocker() returns (ok: bool)
      requires Consistent(db)
      modifies this
      ensures Consistent(db) && ok == Decremented(old(db)).Some?
      ensures db == if ok then Decremented(old(db)).value else old(db)
    {
      ok := !(db.stocker.Some? && db.stocker.value.remaining == 0);
      if ok && db.stocker.Some? {
        var s := db.stocker.value;
        db := db.(stocker := Some(Stocker(s.capacity, s.remaining - 1)));
      }
    }

    method RefillStocker()
      requires Consistent(db)
      modifies this
      ensures Consistent(db) && db == Refilled(old(db))
    {
      if db.stocker.Some? {
        db := db.(stocker := Some(Stocker(db.stocker.value.capacity, db.stocker.value.capacity)));
      }
    }

    method CreatePendingAction(kind: PendingType, severity: Severity, job: Option<nat>, project: Option<nat>)
        returns (ok: bool)
      requires Consistent(db)
      modifies this
      ensures Consistent(db) && ok == CanReference(old(db), job, project)
      ensures db == if ok then WithPending(old(db), kind, severity, job, project) else old(db)
    {
      ok := CanReference(db, job, project);
      if ok {
        PendingKeepsConsistent(db, kind, severity, job, project);
        db := db.(pending := db.pending + [PendingRow(db.nextPending, kind, severity, job, project, false)],
                  nextPending := db.nextPending + 1);
      }
    }

    method ResolvePendingAction(id: nat)
      requires Consistent(db)
      modifies this
      ensures Consistent(db) && db == Resolved(old(db), id)
    {
      ResolveConsistent(db, id);
      db := db.(pending := Resolve(db.pending, id));
    }
  }
}
