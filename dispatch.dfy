/** The LDMX submitter (`processNewJobs`): for each new job, read its
    description back, build its job description in the ARC language, record
    it in the ARC job table and mark the job as waiting, or as failed when
    the table refuses the row. */
module Dispatch {
  import opened Basics
  import opened Strings
  import opened Dicts
  import opened RequestFormat
  import opened Xrsl
  import opened Stores

  /** At most this many new jobs are taken per cycle. */
  const BatchLimit := 100
  /** The fair-share group is the batch id cut to this length. */
  const FairshareWidth := 50
  const DownloadFiles := "gmlog/errors;stdout;rucio.metadata"

  /** What the submitter reads besides the tables: the description files by
      path, the cluster of each storage element, the default endpoints and
      the configured executables. */
  datatype Env = Env(files: map<string, string>, rses: map<string, string>, endpoints: seq<string>, exe: Executables)

  /** The jobs with status "new", in table order. */
  function NewJobs(jobs: seq<LdmxJob>): (r: seq<LdmxJob>)
    ensures |r| <= |jobs|
  {
    if jobs == [] then []
    else if jobs[0].status == "new" then [jobs[0]] + NewJobs(jobs[1..])
    else NewJobs(jobs[1..])
  }

  /** `getJobs("ldmxstatus='new' ... limit 100")` */
  function Pending(jobs: seq<LdmxJob>): (p: seq<LdmxJob>)
    ensures |p| <= BatchLimit
  {
    var n := NewJobs(jobs);
    if |n| <= BatchLimit then n else n[..BatchLimit]
  }

  lemma {:induction false} NewJobsMembers(jobs: seq<LdmxJob>)
    ensures forall j :: j in NewJobs(jobs) <==> j in jobs && j.status == "new"
  {
    if jobs != [] {
      NewJobsMembers(jobs[1..]);
      assert jobs == [jobs[0]] + jobs[1..];
    }
  }

  /** The cycle takes only new jobs of the table, the first ones in table
      order, and all of them when there are at most a hundred. */
  lemma {:induction false} PendingJobs(jobs: seq<LdmxJob>)
    ensures forall j :: j in Pending(jobs) ==> j in jobs && j.status == "new"
    ensures Pending(jobs) <= NewJobs(jobs)
    ensures |NewJobs(jobs)| <= BatchLimit ==> forall j :: j in jobs && j.status == "new" ==> j in Pending(jobs)
    ensures |NewJobs(jobs)| > BatchLimit ==> |Pending(jobs)| == BatchLimit
  {
    NewJobsMembers(jobs);
    var n := NewJobs(jobs);
    if |n| > BatchLimit {
      forall j | j in n[..BatchLimit] ensures j in n {
        var i :| 0 <= i < BatchLimit && n[..BatchLimit][i] == j;
        assert n[i] == j;
      }
    }
  }

  /** `self.rses.get(config.get('InputDataLocationLocalRSE'), ','.join(self.endpoints))` */
  function ClusterList(cfg: Dict, rses: map<string, string>, endpoints: seq<string>): (c: string) {
    match Get(cfg, LocalRseKey)
    case Some(Str(rse)) => if rse in rses then rses[rse] else Join(endpoints, ",")
    case _ => Join(endpoints, ",")
  }

  /** A job goes to the cluster of the storage element holding its input
      when the description names one the submitter knows; otherwise to any
      of the endpoints, listed one by one. */
  lemma {:induction false} ClusterListChoice(cfg: Dict, rses: map<string, string>, endpoints: seq<string>)
    ensures forall rse :: Get(cfg, LocalRseKey) == Some(Str(rse)) && rse in rses ==>
      ClusterList(cfg, rses, endpoints) == rses[rse]
    ensures (forall rse :: Get(cfg, LocalRseKey) == Some(Str(rse)) ==> rse !in rses) ==>
      |endpoints| >= 1 && (forall i :: 0 <= i < |endpoints| ==> ',' !in endpoints[i]) ==>
      Split(ClusterList(cfg, rses, endpoints), ',') == endpoints
  {
    if |endpoints| >= 1 && (forall i :: 0 <= i < |endpoints| ==> ',' !in endpoints[i]) {
      SplitJoin(endpoints, ',');
    }
  }

  /** What a job sends to the ARC job table. */
  datatype Prepared = Prepared(xrsl: string, clusterlist: string, fairshare: string)

  /** The work done for a job before its row is inserted; a missing file, a
      description line without '=', a bad resource value or input field, or
      a job without batch id raises. The submitter reads the description
      with `truncate`, each value cut at a second '='. */
  function Prepare(job: LdmxJob, env: Env, truncate: bool): (r: Result<Prepared>)
    ensures r.Ok? ==> |r.value.xrsl| > 0 && r.value.xrsl[0] == '&'
    ensures r.Ok? ==> job.batchid.Some? && |r.value.fairshare| <= FairshareWidth && r.value.fairshare <= job.batchid.value
    ensures r.Ok? ==> r.value.fairshare == Take(job.batchid.value, FairshareWidth)
  {
    if job.description !in env.files then Err(MissingFile)
    else
      match ReadDescription(Lines(env.files[job.description]), truncate)
      case Err(f) => Err(f)
      case Ok(cfg) =>
        match CreateXrsl(job.description, job.template, cfg, env.exe)
        case Err(f) => Err(f)
        case Ok(xrsl) =>
          if job.batchid.None? then Err(NoBatch)
          else Ok(Prepared(xrsl, ClusterList(cfg, env.rses, env.endpoints), Take(job.batchid.value, FairshareWidth)))
  }

  /** A job is prepared exactly when its description file exists, each of
      its lines holds '=', the description read from it gives a job
      description, and the job has a batch. */
  lemma {:induction false} PrepareFails(job: LdmxJob, env: Env, truncate: bool)
    ensures job.description !in env.files ==> Prepare(job, env, truncate) == Err(MissingFile)
    ensures job.description in env.files ==>
      var lines := Lines(env.files[job.description]);
      && ((exists i :: 0 <= i < |lines| && '=' !in lines[i]) ==> Prepare(job, env, truncate).Err?)
      && (ReadDescription(lines, truncate).Ok? ==>
           (Prepare(job, env, truncate).Ok? <==>
              Clauses(job.description, job.template, ReadDescription(lines, truncate).value, env.exe).Ok? && job.batchid.Some?))
  {
    if job.description in env.files {
      ReadDescriptionFails(Lines(env.files[job.description]), truncate);
    }
  }

  /** The row a prepared job gets in the ARC job table. */
  function ArcRowOf(id: nat, job: LdmxJob, p: Prepared): ArcRow {
    ArcRow(id, p.xrsl, job.proxyid, p.clusterlist, DownloadFiles, IntToString(job.id), Some(p.fairshare), None)
  }

  /** The job table, the ARC job table with its next id, and the cause that
      ended the cycle early, if any. */
  datatype Cycle = Cycle(jobs: seq<LdmxJob>, rows: seq<ArcRow>, nextArc: nat, failure: Option<Failure>)

  /** The status a prepared job is left in: failed when the ARC job table
      refuses its row, waiting otherwise. */
  function StatusAfter(id: nat, refused: set<nat>): string {
    if id in refused then "failed" else "waiting"
  }

  /** How the loop prepares each job. The loop's properties hold for any
      way of preparing that gives descriptions and fair-share groups of the
      shape `Prepare` gives. */
  function Preparer(env: Env, truncate: bool): LdmxJob -> Result<Prepared> {
    job => Prepare(job, env, truncate)
  }

  ghost predicate Shaped(prep: LdmxJob -> Result<Prepared>) {
    forall job :: prep(job).Ok? ==>
      && |prep(job).value.xrsl| > 0 && prep(job).value.xrsl[0] == '&'
      && |prep(job).value.fairshare| <= FairshareWidth
  }

  lemma {:induction false} PreparerShaped(env: Env, truncate: bool)
    ensures Shaped(Preparer(env, truncate))
  {
    forall job | Preparer(env, truncate)(job).Ok?
      ensures |Preparer(env, truncate)(job).value.xrsl| > 0 && Preparer(env, truncate)(job).value.xrsl[0] == '&'
      ensures |Preparer(env, truncate)(job).value.fairshare| <= FairshareWidth
    {
      assert Preparer(env, truncate)(job) == Prepare(job, env, truncate);
    }
  }

  /** One turn of the loop; the database refuses the rows of the jobs in
      `refused`. */
  function Submit(c: Cycle, job: LdmxJob, prep: LdmxJob -> Result<Prepared>, refused: set<nat>): Cycle {
    match prep(job)
    case Err(f) => c.(failure := Some(f))
    case Ok(p) =>
      if job.id in refused then c.(jobs := Updated(c.jobs, job.id, "failed", None))
      else Cycle(Updated(c.jobs, job.id, "waiting", Some(c.nextArc)), c.rows + [ArcRowOf(c.nextArc, job, p)], c.nextArc + 1, None)
  }

  /** The loop over the jobs still to submit; the first failure ends it. */
  function Submitted(c: Cycle, pending: seq<LdmxJob>, prep: LdmxJob -> Result<Prepared>, refused: set<nat>): Cycle
    decreases |pending|
  {
    if pending == [] || c.failure.Some? then c
    else Submitted(Submit(c, pending[0], prep, refused), pending[1..], prep, refused)
  }

  /** `processNewJobs` on given tables, reading the descriptions with or
      without `truncate`. */
  function Dispatched(jobs: seq<LdmxJob>, rows: seq<ArcRow>, nextArc: nat, env: Env, truncate: bool, refused: set<nat>): Cycle {
    Submitted(Cycle(jobs, rows, nextArc, None), Pending(jobs), Preparer(env, truncate), refused)
  }

  lemma {:induction false} SubmittedStep(c: Cycle, pending: seq<LdmxJob>, k: nat, prep: LdmxJob -> Result<Prepared>, refused: set<nat>)
    requires k < |pending| && c.failure.None?
    ensures Submitted(c, pending[k..], prep, refused) == Submitted(Submit(c, pending[k], prep, refused), pending[k + 1..], prep, refused)
  {
    assert pending[k..][0] == pending[k] && pending[k..][1..] == pending[k + 1..];
  }

  /** The cycle ends early exactly when some job cannot be prepared, with
      the failure of the first such job. */
  lemma {:induction false} SubmittedFailure(c: Cycle, pending: seq<LdmxJob>, prep: LdmxJob -> Result<Prepared>, refused: set<nat>)
    requires c.failure.None?
    ensures Submitted(c, pending, prep, refused).failure.None? <==> forall j :: j in pending ==> prep(j).Ok?
    ensures Submitted(c, pending, prep, refused).failure.Some? ==>
      exists k :: 0 <= k < |pending| && prep(pending[k]) == Err(Submitted(c, pending, prep, refused).failure.value)
        && forall i :: 0 <= i < k ==> prep(pending[i]).Ok?
    decreases |pending|
  {
    if pending != [] {
      var rest := pending[1..];
      assert pending == [pending[0]] + rest;
      var next := Submit(c, pending[0], prep, refused);
      if next.failure.None? {
        SubmittedFailure(next, rest, prep, refused);
        var r := Submitted(c, pending, prep, refused);
        if r.failure.Some? {
          var k :| 0 <= k < |rest| && prep(rest[k]) == Err(r.failure.value)
            && forall i :: 0 <= i < k ==> prep(rest[i]).Ok?;
          assert pending[k + 1] == rest[k];
          forall i | 0 <= i < k + 1 ensures prep(pending[i]).Ok? {
            if i > 0 {
              assert pending[i] == rest[i - 1];
            }
          }
        }
      }
    }
  }

  /** A row the submitter writes: an ARC description, the fixed download
      list, a fair-share group of at most fifty characters and no limit on
      attempts. */
  predicate WellFormedRow(row: ArcRow) {
    && |row.description| > 0 && row.description[0] == '&'
    && row.downloadfiles == DownloadFiles
    && row.fairshare.Some? && |row.fairshare.value| <= FairshareWidth
    && row.maxattempts.None?
  }

  /** `r` is `c` after some turns: jobs keep their place and every column
      but status and ARC job; the ARC job table only grows, with rows of
      consecutive ids from the next id on. */
  ghost predicate Extends(c: Cycle, r: Cycle) {
    && |r.jobs| == |c.jobs|
    && (forall i :: 0 <= i < |c.jobs| ==> r.jobs[i] == c.jobs[i].(status := r.jobs[i].status, arcjobid := r.jobs[i].arcjobid))
    && |c.rows| <= |r.rows| && r.rows[..|c.rows|] == c.rows
    && r.nextArc == c.nextArc + (|r.rows| - |c.rows|)
    && (forall i :: |c.rows| <= i < |r.rows| ==> r.rows[i].id == c.nextArc + (i - |c.rows|) && WellFormedRow(r.rows[i]))
  }

  lemma {:induction false} SubmitExtends(c: Cycle, job: LdmxJob, prep: LdmxJob -> Result<Prepared>, refused: set<nat>)
    requires Shaped(prep)
    ensures Extends(c, Submit(c, job, prep, refused))
  {
    var r := Submit(c, job, prep, refused);
    assert r.rows[..|c.rows|] == c.rows;
  }

  lemma {:induction false} ExtendsTrans(a: Cycle, b: Cycle, c: Cycle)
    requires Extends(a, b) && Extends(b, c)
    ensures Extends(a, c)
  {
    assert c.rows[..|a.rows|] == c.rows[..|b.rows|][..|a.rows|];
    forall i | |a.rows| <= i < |c.rows| ensures c.rows[i].id == a.nextArc + (i - |a.rows|) && WellFormedRow(c.rows[i]) {
      if i < |b.rows| {
        assert c.rows[i] == c.rows[..|b.rows|][i];
      }
    }
  }

  /** However the cycle ends, it changes only statuses and ARC jobs of the
      job table and appends well-formed rows with consecutive ids. */
  lemma {:induction false} SubmittedExtends(c: Cycle, pending: seq<LdmxJob>, prep: LdmxJob -> Result<Prepared>, refused: set<nat>)
    requires Shaped(prep)
    ensures Extends(c, Submitted(c, pending, prep, refused))
    decreases |pending|
  {
    if pending != [] && c.failure.None? {
      var next := Submit(c, pending[0], prep, refused);
      SubmitExtends(c, pending[0], prep, refused);
      SubmittedExtends(next, pending[1..], prep, refused);
      ExtendsTrans(c, next, Submitted(next, pending[1..], prep, refused));
    } else {
      assert c.rows[..|c.rows|] == c.rows;
    }
  }

  function IdsOf(pending: seq<LdmxJob>): set<nat> {
    set j | j in pending :: j.id
  }

  lemma {:induction false} SubmitStatus(c: Cycle, job: LdmxJob, prep: LdmxJob -> Result<Prepared>, refused: set<nat>)
    requires prep(job).Ok?
    ensures var r := Submit(c, job, prep, refused);
      && |r.jobs| == |c.jobs|
      && (forall i :: 0 <= i < |c.jobs| ==> r.jobs[i].id == c.jobs[i].id)
      && (forall i :: 0 <= i < |c.jobs| && c.jobs[i].id == job.id ==> r.jobs[i].status == StatusAfter(job.id, refused))
      && (forall i :: 0 <= i < |c.jobs| && c.jobs[i].id != job.id ==> r.jobs[i] == c.jobs[i])
  {
  }

  /** A cycle that ends normally could prepare its first job. */
  lemma {:induction false} FirstPrepared(c: Cycle, pending: seq<LdmxJob>, prep: LdmxJob -> Result<Prepared>, refused: set<nat>)
    requires c.failure.None? && pending != [] && Submitted(c, pending, prep, refused).failure.None?
    ensures prep(pending[0]).Ok?
    ensures Submitted(c, pending, prep, refused) == Submitted(Submit(c, pending[0], prep, refused), pending[1..], prep, refused)
  {
  }

  /** A cycle that ends normally leaves each job it took failed or waiting,
      as the ARC job table refused or took its row, and every other job as
      it was. */
  lemma {:induction false} SubmittedStatus(c: Cycle, pending: seq<LdmxJob>, prep: LdmxJob -> Result<Prepared>, refused: set<nat>)
    requires c.failure.None? && Submitted(c, pending, prep, refused).failure.None?
    ensures var r := Submitted(c, pending, prep, refused);
      && |r.jobs| == |c.jobs|
      && (forall i :: 0 <= i < |c.jobs| && c.jobs[i].id in IdsOf(pending) ==> r.jobs[i].status == StatusAfter(c.jobs[i].id, refused))
      && (forall i :: 0 <= i < |c.jobs| && c.jobs[i].id !in IdsOf(pending) ==> r.jobs[i] == c.jobs[i])
    decreases |pending|
  {
    if pending != [] {
      var rest := pending[1..];
      var next := Submit(c, pending[0], prep, refused);
      FirstPrepared(c, pending, prep, refused);
      SubmitStatus(c, pending[0], prep, refused);
      SubmittedStatus(next, rest, prep, refused);
      assert pending == [pending[0]] + rest;
      StatusCompose(c.jobs, next.jobs, Submitted(next, rest, prep, refused).jobs, pending[0], rest, refused);
    }
  }

  /** The statuses after the first job taken, composed with those after the
      rest. */
  lemma {:induction false} StatusCompose(jobs: seq<LdmxJob>, next: seq<LdmxJob>, last: seq<LdmxJob>,
                                         first: LdmxJob, rest: seq<LdmxJob>, refused: set<nat>)
    requires |next| == |jobs| && |last| == |next|
    requires forall i :: 0 <= i < |jobs| ==> next[i].id == jobs[i].id
    requires forall i :: 0 <= i < |jobs| && jobs[i].id == first.id ==> next[i].status == StatusAfter(first.id, refused)
    requires forall i :: 0 <= i < |jobs| && jobs[i].id != first.id ==> next[i] == jobs[i]
    requires forall i :: 0 <= i < |next| && next[i].id in IdsOf(rest) ==> last[i].status == StatusAfter(next[i].id, refused)
    requires forall i :: 0 <= i < |next| && next[i].id !in IdsOf(rest) ==> last[i] == next[i]
    ensures forall i :: 0 <= i < |jobs| && jobs[i].id in IdsOf([first] + rest) ==> last[i].status == StatusAfter(jobs[i].id, refused)
    ensures forall i :: 0 <= i < |jobs| && jobs[i].id !in IdsOf([first] + rest) ==> last[i] == jobs[i]
  {
    var pending := [first] + rest;
    forall i | 0 <= i < |jobs| && jobs[i].id in IdsOf(pending)
      ensures last[i].status == StatusAfter(jobs[i].id, refused)
    {
      if jobs[i].id !in IdsOf(rest) {
        var j :| j in pending && j.id == jobs[i].id;
        assert j == first;
      }
    }
    forall i | 0 <= i < |jobs| && jobs[i].id !in IdsOf(pending) ensures last[i] == jobs[i] {
      assert first in pending;
      forall j | j in rest ensures j.id != jobs[i].id {
        assert j in pending;
      }
    }
  }

  /** Every waiting job names, as its ARC job, a row of the ARC job table
      that describes it. */
  ghost predicate Linked(c: Cycle) {
    forall i :: 0 <= i < |c.jobs| && c.jobs[i].status == "waiting" ==>
      && c.jobs[i].arcjobid.Some?
      && exists k :: 0 <= k < |c.rows| && c.rows[k].id == c.jobs[i].arcjobid.value && c.rows[k].appjobid == IntToString(c.jobs[i].id)
  }

  lemma {:induction false} SubmitLinked(c: Cycle, job: LdmxJob, prep: LdmxJob -> Result<Prepared>, refused: set<nat>)
    requires Linked(c)
    ensures Linked(Submit(c, job, prep, refused))
  {
    var r := Submit(c, job, prep, refused);
    forall i | 0 <= i < |r.jobs| && r.jobs[i].status == "waiting"
      ensures r.jobs[i].arcjobid.Some?
      ensures exists k :: 0 <= k < |r.rows| && r.rows[k].id == r.jobs[i].arcjobid.value && r.rows[k].appjobid == IntToString(r.jobs[i].id)
    {
      if r.jobs[i] != c.jobs[i] {
        assert r.rows[|r.rows| - 1].id == r.jobs[i].arcjobid.value;
      } else {
        var k :| 0 <= k < |c.rows| && c.rows[k].id == c.jobs[i].arcjobid.value && c.rows[k].appjobid == IntToString(c.jobs[i].id);
        assert r.rows[k] == c.rows[k];
      }
    }
  }

  /** The cycle keeps waiting jobs linked to their ARC job rows. */
  lemma {:induction false} SubmittedLinked(c: Cycle, pending: seq<LdmxJob>, prep: LdmxJob -> Result<Prepared>, refused: set<nat>)
    requires Linked(c)
    ensures Linked(Submitted(c, pending, prep, refused))
    decreases |pending|
  {
    if pending != [] && c.failure.None? {
      SubmitLinked(c, pending[0], prep, refused);
      SubmittedLinked(Submit(c, pending[0], prep, refused), pending[1..], prep, refused);
    }
  }

  /** A cycle on the tables: the jobs change only in status and ARC job,
      well-formed rows are appended, the cycle ends early exactly when a
      taken job cannot be prepared, and a cycle that ends normally leaves
      every taken job failed or waiting and every other job as it was. */
  lemma {:induction false} DispatchedEffects(jobs: seq<LdmxJob>, rows: seq<ArcRow>, nextArc: nat, env: Env, truncate: bool, refused: set<nat>)
    ensures Extends(Cycle(jobs, rows, nextArc, None), Dispatched(jobs, rows, nextArc, env, truncate, refused))
    ensures Dispatched(jobs, rows, nextArc, env, truncate, refused).failure.None? <==> forall j :: j in Pending(jobs) ==> Prepare(j, env, truncate).Ok?
    ensures var r := Dispatched(jobs, rows, nextArc, env, truncate, refused);
      r.failure.None? ==>
        && (forall i :: 0 <= i < |jobs| && jobs[i].id in IdsOf(Pending(jobs)) ==> r.jobs[i].status == StatusAfter(jobs[i].id, refused))
        && (forall i :: 0 <= i < |jobs| && jobs[i].id !in IdsOf(Pending(jobs)) ==> r.jobs[i] == jobs[i])
  {
    var c := Cycle(jobs, rows, nextArc, None);
    var prep := Preparer(env, truncate);
    PreparerShaped(env, truncate);
    SubmittedExtends(c, Pending(jobs), prep, refused);
    SubmittedFailure(c, Pending(jobs), prep, refused);
    assert forall j :: prep(j) == Prepare(j, env, truncate);
    if Submitted(c, Pending(jobs), prep, refused).failure.None? {
      SubmittedStatus(c, Pending(jobs), prep, refused);
    }
  }

  /** A job whose description holds no second '=' on any line is prepared
      alike by the truncating reading and the full one. */
  lemma {:induction false} PrepareAgrees(job: LdmxJob, env: Env)
    requires job.description in env.files ==>
      forall j :: 0 <= j < |Lines(env.files[job.description])| ==> SingleSeparator(Lines(env.files[job.description])[j])
    ensures Prepare(job, env, true) == Prepare(job, env, false)
  {
    if job.description in env.files {
      ReadDescriptionAgrees(Lines(env.files[job.description]));
    }
  }

  /** Two preparers that agree on the jobs of a cycle give the same cycle. */
  lemma {:induction false} SubmittedAgree(c: Cycle, pending: seq<LdmxJob>, p1: LdmxJob -> Result<Prepared>, p2: LdmxJob -> Result<Prepared>, refused: set<nat>)
    requires forall i :: 0 <= i < |pending| ==> p1(pending[i]) == p2(pending[i])
    ensures Submitted(c, pending, p1, refused) == Submitted(c, pending, p2, refused)
    decreases |pending|
  {
    if pending != [] && c.failure.None? {
      assert Submit(c, pending[0], p1, refused) == Submit(c, pending[0], p2, refused);
      assert forall i :: 0 <= i < |pending[1..]| ==> pending[1..][i] == pending[i + 1];
      SubmittedAgree(Submit(c, pending[0], p1, refused), pending[1..], p1, p2, refused);
    }
  }

  /** The cycle as written, with its truncating reading, is the cycle with
      the full reading whenever no description of a taken job has a value
      holding '=': then `DispatchedEffects` holds for it as for either. */
  lemma {:induction false} DispatchedAgrees(jobs: seq<LdmxJob>, rows: seq<ArcRow>, nextArc: nat, env: Env, refused: set<nat>)
    requires forall job :: job in Pending(jobs) && job.description in env.files ==>
      forall j :: 0 <= j < |Lines(env.files[job.description])| ==> SingleSeparator(Lines(env.files[job.description])[j])
    ensures Dispatched(jobs, rows, nextArc, env, true, refused) == Dispatched(jobs, rows, nextArc, env, false, refused)
  {
    var pending := Pending(jobs);
    forall i | 0 <= i < |pending| ensures Preparer(env, true)(pending[i]) == Preparer(env, false)(pending[i]) {
      PrepareAgrees(pending[i], env);
    }
    SubmittedAgree(Cycle(jobs, rows, nextArc, None), pending, Preparer(env, true), Preparer(env, false), refused);
  }

  /** One job of the loop body, as the code does it: the description is
      read with every value cut at a second '='. */
  method SubmitJob(store: LdmxStore, arc: ArcStore, job: LdmxJob, env: Env, refused: set<nat>)
    returns (failure: Option<Failure>)
    requires store.Valid()
    modifies store, arc
    ensures store.Valid() && store.archive == old(store.archive) && store.nextId == old(store.nextId)
    ensures Cycle(store.jobs, arc.rows, arc.nextId, failure)
         == Submit(Cycle(old(store.jobs), old(arc.rows), old(arc.nextId), None), job, Preparer(env, true), refused)
  {
    if job.description !in env.files {
      return Some(MissingFile);
    }
    var read := ReadDescription(Lines(env.files[job.description]), true);
    if read.Err? {
      return Some(read.error);
    }
    var cfg := read.value;
    var xrsl := CreateXrsl(job.description, job.template, cfg, env.exe);
    if xrsl.Err? {
      return Some(xrsl.error);
    }
    var clusterlist := ClusterList(cfg, env.rses, env.endpoints);
    if job.batchid.None? {
      return Some(NoBatch);
    }
    var fairshare := Take(job.batchid.value, FairshareWidth);
    var arcid := arc.Insert(xrsl.value, job.proxyid, clusterlist, DownloadFiles, IntToString(job.id), Some(fairshare), None, job.id !in refused);
    if arcid.None? {
      store.UpdateJob(job.id, "failed", None);
      return None;
    }
    store.UpdateJob(job.id, "waiting", arcid);
    failure := None;
  }

  /** `processNewJobs`: the tables end as `Dispatched` says, and the cause
      is returned when a job raised. */
  method ProcessNewJobs(store: LdmxStore, arc: ArcStore, env: Env, refused: set<nat>)
    returns (failure: Option<Failure>)
    requires store.Valid()
    modifies store, arc
    ensures store.Valid() && store.archive == old(store.archive) && store.nextId == old(store.nextId)
    ensures Cycle(store.jobs, arc.rows, arc.nextId, failure)
         == Dispatched(old(store.jobs), old(arc.rows), old(arc.nextId), env, true, refused)
  {
    var pending := Pending(store.jobs);
    ghost var goal := Dispatched(store.jobs, arc.rows, arc.nextId, env, true, refused);
    var k := 0;
    while k < |pending|
      invariant 0 <= k <= |pending|
      invariant store.Valid() && store.archive == old(store.archive) && store.nextId == old(store.nextId)
      invariant Submitted(Cycle(store.jobs, arc.rows, arc.nextId, None), pending[k..], Preparer(env, true), refused) == goal
    {
      SubmittedStep(Cycle(store.jobs, arc.rows, arc.nextId, None), pending, k, Preparer(env, true), refused);
      failure := SubmitJob(store, arc, pending[k], env, refused);
      if failure.Some? {
        return;
      }
      k := k + 1;
    }
    failure := None;
  }
}
