/** Archiving of completed batches: every batch whose jobs have all ended
    (finished, failed or cancelled) moves from the job table to the archive,
    one job at a time. */
module Archiving {
  import opened Basics
  import opened Stores

  /** The statuses in which a job has ended. */
  const Terminal: set<string> := {"finished", "failed", "cancelled"}

  /** The statuses the jobs of batch b have. */
  function StatusesOf(jobs: seq<LdmxJob>, b: Option<string>): set<string> {
    set j | j in jobs && j.batchid == b :: j.status
  }

  /** A batch can be archived when none of its jobs is in a status other
      than the terminal ones. */
  predicate Eligible(jobs: seq<LdmxJob>, b: Option<string>) {
    StatusesOf(jobs, b) <= Terminal
  }

  /** The batches of the table, each once, in the order they first occur. */
  function BatchOrder(jobs: seq<LdmxJob>): seq<Option<string>> {
    if jobs == [] then []
    else
      var prev := BatchOrder(jobs[..|jobs| - 1]);
      var b := jobs[|jobs| - 1].batchid;
      if b in prev then prev else prev + [b]
  }

  /** The batches listed are exactly the batches of the table, each once. */
  lemma {:induction false} BatchOrderMembers(jobs: seq<LdmxJob>)
    ensures forall b :: b in BatchOrder(jobs) <==> exists j :: j in jobs && j.batchid == b
    ensures Distinct(BatchOrder(jobs))
  {
    if jobs != [] {
      var init := jobs[..|jobs| - 1];
      BatchOrderMembers(init);
      assert jobs == init + [jobs[|jobs| - 1]];
      forall b | b in BatchOrder(jobs) ensures exists j :: j in jobs && j.batchid == b {
        if b in BatchOrder(init) {
          var j :| j in init && j.batchid == b;
          assert j in jobs;
        } else {
          assert jobs[|jobs| - 1] in jobs;
        }
      }
    }
  }

  /** One more job adds its status to its batch's statuses and to no other. */
  lemma {:induction false} StatusesStep(jobs: seq<LdmxJob>, i: nat, b: Option<string>)
    requires i < |jobs|
    ensures StatusesOf(jobs[..i + 1], b) == StatusesOf(jobs[..i], b) + (if jobs[i].batchid == b then {jobs[i].status} else {})
  {
    assert jobs[..i + 1] == jobs[..i] + [jobs[i]];
  }

  /** The grouping query and the loop that gathers, for each batch, the
      statuses its jobs have. */
  method GroupStatuses(jobs: seq<LdmxJob>) returns (order: seq<Option<string>>, statuses: map<Option<string>, set<string>>)
    ensures order == BatchOrder(jobs)
    ensures forall b :: b in statuses <==> b in order
    ensures forall b :: b in statuses ==> statuses[b] == StatusesOf(jobs, b)
  {
    order := [];
    statuses := map[];
    var i := 0;
    while i < |jobs|
      invariant 0 <= i <= |jobs|
      invariant order == BatchOrder(jobs[..i])
      invariant forall b :: b in statuses <==> b in order
      invariant forall b :: b in statuses ==> statuses[b] == StatusesOf(jobs[..i], b)
    {
      var j := jobs[i];
      assert jobs[..i + 1][..i] == jobs[..i];
      ghost var before := statuses;
      if j.batchid !in statuses {
        BatchOrderMembers(jobs[..i]);
        order := order + [j.batchid];
        statuses := statuses[j.batchid := {j.status}];
      } else {
        statuses := statuses[j.batchid := statuses[j.batchid] + {j.status}];
      }
      forall b | b in statuses ensures statuses[b] == StatusesOf(jobs[..i + 1], b) {
        StatusesStep(jobs, i, b);
        if b != j.batchid {
          assert statuses[b] == before[b];
        } else if j.batchid !in before {
          assert StatusesOf(jobs[..i], b) == {} by {
            BatchOrderMembers(jobs[..i]);
          }
        }
      }
      i := i + 1;
    }
    assert jobs[..i] == jobs;
  }

  /** The condition of the archiving query: a batch id, or no batch id. */
  datatype Selector = ByBatch(batch: string) | NullBatch

  predicate Matches(sel: Selector, j: LdmxJob) {
    match sel
    case ByBatch(v) => j.batchid == Some(v)
    case NullBatch => j.batchid == None
  }

  /** The query as written: a batch id that is empty as well as a missing
      one selects the jobs without a batch. */
  function WrittenSelector(b: Option<string>): Selector {
    if b.Some? && b.value != "" then ByBatch(b.value) else NullBatch
  }

  /** The query that selects the jobs of the batch, whatever its id. */
  function BatchSelector(b: Option<string>): (sel: Selector)
    ensures forall j :: Matches(sel, j) <==> j.batchid == b
  {
    if b.Some? then ByBatch(b.value) else NullBatch
  }

  /** The jobs the query returns, in table order. */
  function Select(jobs: seq<LdmxJob>, sel: Selector): (r: seq<LdmxJob>)
    ensures |r| <= |jobs|
  {
    if jobs == [] then []
    else if Matches(sel, jobs[0]) then [jobs[0]] + Select(jobs[1..], sel)
    else Select(jobs[1..], sel)
  }

  /** The jobs the query leaves, in table order. */
  function Reject(jobs: seq<LdmxJob>, sel: Selector): (r: seq<LdmxJob>)
    ensures |r| <= |jobs|
  {
    if jobs == [] then []
    else if Matches(sel, jobs[0]) then Reject(jobs[1..], sel)
    else [jobs[0]] + Reject(jobs[1..], sel)
  }

  function Projections(jobs: seq<LdmxJob>): (rows: seq<ArchiveRow>)
    ensures |rows| == |jobs|
  {
    if jobs == [] then [] else [Project(jobs[0])] + Projections(jobs[1..])
  }

  /** The two tables. */
  datatype Tables = Tables(jobs: seq<LdmxJob>, archive: seq<ArchiveRow>)

  /** Moving the jobs a query selects: copied to the archive in table order,
      deleted from the job table. */
  function MoveBatch(t: Tables, sel: Selector): Tables {
    Tables(Reject(t.jobs, sel), t.archive + Projections(Select(t.jobs, sel)))
  }

  /** The archiving loop over the batches still to visit. Eligibility is
      decided on the statuses gathered before the loop (`snapshot`); the
      query runs on the table as it is then. */
  function ArchiveFrom(snapshot: seq<LdmxJob>, order: seq<Option<string>>, t: Tables, sel: Option<string> -> Selector): Tables
    decreases |order|
  {
    if order == [] then t
    else ArchiveFrom(snapshot, order[1..], if Eligible(snapshot, order[0]) then MoveBatch(t, sel(order[0])) else t, sel)
  }

  /** One turn of the archiving loop. */
  lemma {:induction false} ArchiveFromStep(snapshot: seq<LdmxJob>, order: seq<Option<string>>, k: nat, t: Tables, sel: Option<string> -> Selector)
    requires k < |order|
    ensures ArchiveFrom(snapshot, order[k..], t, sel)
         == ArchiveFrom(snapshot, order[k + 1..], if Eligible(snapshot, order[k]) then MoveBatch(t, sel(order[k])) else t, sel)
  {
    assert order[k..][0] == order[k] && order[k..][1..] == order[k + 1..];
  }

  /** `archiveBatches` with a given way of building the query. */
  function Archived(t: Tables, sel: Option<string> -> Selector): Tables {
    ArchiveFrom(t.jobs, BatchOrder(t.jobs), t, sel)
  }

  /** Two ways of building the query that agree on the batches visited
      archive alike. */
  lemma {:induction false} ArchiveFromAgree(snapshot: seq<LdmxJob>, order: seq<Option<string>>, t: Tables,
                                            s1: Option<string> -> Selector, s2: Option<string> -> Selector)
    requires forall k :: 0 <= k < |order| ==> s1(order[k]) == s2(order[k])
    ensures ArchiveFrom(snapshot, order, t, s1) == ArchiveFrom(snapshot, order, t, s2)
    decreases |order|
  {
    if order != [] {
      var t1 := if Eligible(snapshot, order[0]) then MoveBatch(t, s1(order[0])) else t;
      assert forall k :: 0 <= k < |order[1..]| ==> order[1..][k] == order[k + 1];
      ArchiveFromAgree(snapshot, order[1..], t1, s1, s2);
    }
  }

  /** The archiving as written is the corrected one whenever no job has the
      empty batch id, so `ArchivedEligible` then holds for it too. */
  lemma {:induction false} WrittenAgrees(t: Tables)
    requires forall j :: j in t.jobs ==> j.batchid != Some("")
    ensures Archived(t, WrittenSelector) == Archived(t, BatchSelector)
  {
    var order := BatchOrder(t.jobs);
    BatchOrderMembers(t.jobs);
    forall k | 0 <= k < |order| ensures WrittenSelector(order[k]) == BatchSelector(order[k]) {
      assert order[k] in order;
    }
    ArchiveFromAgree(t.jobs, order, t, WrittenSelector, BatchSelector);
  }

  /** The table without the jobs of the given batches. */
  function Drop(jobs: seq<LdmxJob>, bs: set<Option<string>>): (r: seq<LdmxJob>)
    ensures forall j :: j in r <==> j in jobs && j.batchid !in bs
  {
    if jobs == [] then []
    else if jobs[0].batchid in bs then Drop(jobs[1..], bs)
    else [jobs[0]] + Drop(jobs[1..], bs)
  }

  /** The jobs of the given batches. */
  function Pick(jobs: seq<LdmxJob>, bs: set<Option<string>>): (r: seq<LdmxJob>)
    ensures forall j :: j in r <==> j in jobs && j.batchid in bs
  {
    if jobs == [] then []
    else if jobs[0].batchid in bs then [jobs[0]] + Pick(jobs[1..], bs)
    else Pick(jobs[1..], bs)
  }

  /** The batches that can be archived. */
  function EligibleBatches(jobs: seq<LdmxJob>): set<Option<string>> {
    set j | j in jobs && Eligible(jobs, j.batchid) :: j.batchid
  }

  /** The batch query selects the jobs of its batch. */
  lemma {:induction false} SelectBatch(jobs: seq<LdmxJob>, b: Option<string>)
    ensures Select(jobs, BatchSelector(b)) == Pick(jobs, {b})
    ensures Reject(jobs, BatchSelector(b)) == Drop(jobs, {b})
  {
    if jobs != [] {
      SelectBatch(jobs[1..], b);
    }
  }

  lemma {:induction false} DropTwice(jobs: seq<LdmxJob>, bs: set<Option<string>>, b: Option<string>)
    ensures Drop(Drop(jobs, bs), {b}) == Drop(jobs, bs + {b})
    ensures b !in bs ==> Pick(Drop(jobs, bs), {b}) == Pick(jobs, {b})
  {
    if jobs != [] {
      DropTwice(jobs[1..], bs, b);
      var rest := Drop(jobs[1..], bs);
      if jobs[0].batchid !in bs {
        assert Drop(jobs, bs) == [jobs[0]] + rest;
        assert Drop(jobs, bs)[1..] == rest;
      } else {
        assert Drop(jobs, bs) == rest;
      }
    }
  }

  lemma {:induction false} ProjectionsAppend(a: seq<LdmxJob>, b: seq<LdmxJob>)
    ensures Projections(a + b) == Projections(a) + Projections(b)
  {
    if a != [] {
      ProjectionsAppend(a[1..], b);
      assert (a + b)[1..] == a[1..] + b;
    } else {
      assert a + b == b;
    }
  }

  /** The jobs the loop retires, batch by batch in the order of the
      batches, each batch's jobs in table order. */
  function Retired(snapshot: seq<LdmxJob>, order: seq<Option<string>>): seq<LdmxJob>
    decreases |order|
  {
    if order == [] then []
    else if Eligible(snapshot, order[0]) then Pick(snapshot, {order[0]}) + Retired(snapshot, order[1..])
    else Retired(snapshot, order[1..])
  }

  /** The eligible batches among those in `order`. */
  function EligibleIn(snapshot: seq<LdmxJob>, order: seq<Option<string>>): set<Option<string>> {
    set b | b in order && Eligible(snapshot, b)
  }

  lemma {:induction false} DistinctTail<T>(s: seq<T>)
    requires Distinct(s) && s != []
    ensures Distinct(s[1..]) && s[0] !in s[1..]
  {
    forall i, j | 0 <= i < j < |s| - 1 ensures s[1..][i] != s[1..][j] {
      assert s[1..][i] == s[i + 1] && s[1..][j] == s[j + 1];
    }
  }

  /** The archiving loop with the batch query, from the table left after
      the batches `done` were moved: it deletes exactly the jobs of the
      eligible batches still to visit and archives the jobs it retires. */
  lemma {:induction false} ArchiveFromBatches(snapshot: seq<LdmxJob>, order: seq<Option<string>>, done: set<Option<string>>,
                                              archive: seq<ArchiveRow>)
    requires Distinct(order)
    requires forall b :: b in order ==> b !in done
    ensures var r := ArchiveFrom(snapshot, order, Tables(Drop(snapshot, done), archive), BatchSelector);
      && r.jobs == Drop(snapshot, done + EligibleIn(snapshot, order))
      && r.archive == archive + Projections(Retired(snapshot, order))
    decreases |order|
  {
    var t := Tables(Drop(snapshot, done), archive);
    if order == [] {
      assert done + EligibleIn(snapshot, order) == done;
    } else {
      var b := order[0];
      var rest := order[1..];
      DistinctTail(order);
      if Eligible(snapshot, b) {
        var moved := Pick(snapshot, {b});
        MoveEligible(snapshot, done, archive, b);
        ArchiveFromBatches(snapshot, rest, done + {b}, archive + Projections(moved));
        assert done + {b} + EligibleIn(snapshot, rest) == done + EligibleIn(snapshot, order);
        RetiredStep(snapshot, order, archive);
      } else {
        ArchiveFromBatches(snapshot, rest, done, archive);
        assert Retired(snapshot, order) == Retired(snapshot, rest);
        assert EligibleIn(snapshot, order) == EligibleIn(snapshot, rest);
      }
    }
  }

  /** Moving an eligible batch from what earlier batches left. */
  lemma {:induction false} MoveEligible(snapshot: seq<LdmxJob>, done: set<Option<string>>, archive: seq<ArchiveRow>, b: Option<string>)
    requires b !in done
    ensures MoveBatch(Tables(Drop(snapshot, done), archive), BatchSelector(b))
      == Tables(Drop(snapshot, done + {b}), archive + Projections(Pick(snapshot, {b})))
  {
    SelectBatch(Drop(snapshot, done), b);
    DropTwice(snapshot, done, b);
  }

  lemma {:induction false} RetiredStep(snapshot: seq<LdmxJob>, order: seq<Option<string>>, archive: seq<ArchiveRow>)
    requires order != [] && Eligible(snapshot, order[0])
    ensures archive + Projections(Pick(snapshot, {order[0]})) + Projections(Retired(snapshot, order[1..]))
      == archive + Projections(Retired(snapshot, order))
  {
    var moved := Pick(snapshot, {order[0]});
    assert Retired(snapshot, order) == moved + Retired(snapshot, order[1..]);
    ProjectionsAppend(moved, Retired(snapshot, order[1..]));
  }

  lemma {:induction false} DropNone(jobs: seq<LdmxJob>)
    ensures Drop(jobs, {}) == jobs
  {
    if jobs != [] {
      DropNone(jobs[1..]);
    }
  }

  /** The retired jobs are the jobs of the eligible batches, as many as
      there are. */
  lemma {:induction false} RetiredJobs(snapshot: seq<LdmxJob>, order: seq<Option<string>>)
    requires Distinct(order)
    ensures forall j :: j in Retired(snapshot, order) <==> j in snapshot && j.batchid in EligibleIn(snapshot, order)
    ensures |Retired(snapshot, order)| == |Pick(snapshot, EligibleIn(snapshot, order))|
    decreases |order|
  {
    if order == [] {
      PickCount(snapshot, {}, None);
      assert EligibleIn(snapshot, order) == {};
    } else {
      var b := order[0];
      var rest := order[1..];
      DistinctTail(order);
      RetiredJobs(snapshot, rest);
      if Eligible(snapshot, b) {
        assert EligibleIn(snapshot, order) == EligibleIn(snapshot, rest) + {b};
        PickCount(snapshot, EligibleIn(snapshot, rest), b);
      } else {
        assert EligibleIn(snapshot, order) == EligibleIn(snapshot, rest);
      }
    }
  }

  /** Picking one more batch adds the jobs of that batch; no batch picks
      nothing. */
  lemma {:induction false} PickCount(jobs: seq<LdmxJob>, bs: set<Option<string>>, b: Option<string>)
    ensures b !in bs ==> |Pick(jobs, bs + {b})| == |Pick(jobs, bs)| + |Pick(jobs, {b})|
    ensures Pick(jobs, {}) == []
    ensures |Pick(jobs, bs)| + |Drop(jobs, bs)| == |jobs|
  {
    if jobs != [] {
      PickCount(jobs[1..], bs, b);
    }
  }

  /** Archiving with the batch query removes exactly the jobs of the
      eligible batches and keeps the other jobs in their order; the archive
      gains, batch by batch, the archived columns of the removed jobs, one
      row per removed job. */
  lemma {:induction false} ArchivedEligible(t: Tables)
    ensures var r := Archived(t, BatchSelector);
      && r.jobs == Drop(t.jobs, EligibleBatches(t.jobs))
      && (forall j :: j in r.jobs <==> j in t.jobs && !Eligible(t.jobs, j.batchid))
      && r.archive == t.archive + Projections(Retired(t.jobs, BatchOrder(t.jobs)))
      && (forall j :: j in Retired(t.jobs, BatchOrder(t.jobs)) <==> j in t.jobs && Eligible(t.jobs, j.batchid))
      && |r.jobs| + |r.archive| == |t.jobs| + |t.archive|
  {
    var order := BatchOrder(t.jobs);
    BatchOrderMembers(t.jobs);
    DropNone(t.jobs);
    ArchiveFromBatches(t.jobs, order, {}, t.archive);
    var e := EligibleBatches(t.jobs);
    assert EligibleIn(t.jobs, order) == e by {
      forall b | b in e ensures b in EligibleIn(t.jobs, order) {
        var j :| j in t.jobs && Eligible(t.jobs, j.batchid) && j.batchid == b;
      }
    }
    assert {} + e == e;
    RetiredJobs(t.jobs, order);
    PickCount(t.jobs, e, None);
  }

  /** Ids of a list of jobs. */
  function IdsOf(jobs: seq<LdmxJob>): set<nat> {
    set j | j in jobs :: j.id
  }

  /** The table without the rows of the given ids. */
  function KeepOut(jobs: seq<LdmxJob>, ids: set<nat>): seq<LdmxJob> {
    if jobs == [] then []
    else if jobs[0].id in ids then KeepOut(jobs[1..], ids)
    else [jobs[0]] + KeepOut(jobs[1..], ids)
  }

  lemma {:induction false} KeepOutMore(jobs: seq<LdmxJob>, ids: set<nat>, id: nat)
    ensures WithoutId(KeepOut(jobs, ids), id) == KeepOut(jobs, ids + {id})
  {
    if jobs != [] {
      var x := jobs[0];
      var rest := KeepOut(jobs[1..], ids);
      KeepOutMore(jobs[1..], ids, id);
      if x.id !in ids {
        var k := [x] + rest;
        assert k[0] == x && k[1..] == rest;
        if x.id == id {
          assert WithoutId(k, id) == [] + WithoutId(rest, id);
        } else {
          assert WithoutId(k, id) == [x] + WithoutId(rest, id);
        }
      }
    }
  }

  lemma {:induction false} KeepOutNone(jobs: seq<LdmxJob>)
    ensures KeepOut(jobs, {}) == jobs
  {
    if jobs != [] {
      KeepOutNone(jobs[1..]);
    }
  }

  /** With distinct ids, deleting the ids of the selected rows leaves the
      rows the query does not select. */
  lemma {:induction false} KeepOutSelected(jobs: seq<LdmxJob>, sel: Selector, nextId: nat)
    requires IdsOrdered(jobs, nextId)
    ensures KeepOut(jobs, IdsOf(Select(jobs, sel))) == Reject(jobs, sel)
  {
    if jobs != [] {
      var x := jobs[0];
      var rest := jobs[1..];
      assert IdsOrdered(rest, nextId) by {
        forall i, j | 0 <= i < j < |rest| ensures rest[i].id < rest[j].id {
          assert rest[i] == jobs[i + 1] && rest[j] == jobs[j + 1];
        }
      }
      KeepOutSelected(rest, sel, nextId);
      var later := IdsOf(Select(rest, sel));
      assert forall j :: j in rest ==> j.id != x.id by {
        forall j | j in rest ensures j.id != x.id {
          var k :| 0 <= k < |rest| && rest[k] == j;
          assert jobs[k + 1] == j;
        }
      }
      assert x.id !in later by {
        forall j | j in Select(rest, sel) ensures j.id != x.id {
          SelectFrom(rest, sel, j);
        }
      }
      if Matches(sel, x) {
        assert Select(jobs, sel) == [x] + Select(rest, sel);
        assert IdsOf(Select(jobs, sel)) == later + {x.id};
        KeepOutIgnores(rest, later, x.id);
      } else {
        assert Select(jobs, sel) == Select(rest, sel);
      }
    }
  }

  lemma {:induction false} SelectFrom(jobs: seq<LdmxJob>, sel: Selector, j: LdmxJob)
    requires j in Select(jobs, sel)
    ensures j in jobs
  {
    if jobs[0] != j {
      SelectFrom(jobs[1..], sel, j);
    }
  }

  /** A query that selects nothing leaves the table as it is. */
  lemma {:induction false} RejectNothing(jobs: seq<LdmxJob>, sel: Selector)
    requires Select(jobs, sel) == []
    ensures Reject(jobs, sel) == jobs
  {
    if jobs != [] {
      RejectNothing(jobs[1..], sel);
    }
  }

  /** An id no row of the table has changes nothing when kept out. */
  lemma {:induction false} KeepOutIgnores(jobs: seq<LdmxJob>, ids: set<nat>, id: nat)
    requires forall j :: j in jobs ==> j.id != id
    ensures KeepOut(jobs, ids + {id}) == KeepOut(jobs, ids)
  {
    if jobs != [] {
      assert jobs[0] in jobs;
      assert forall j :: j in jobs[1..] ==> j in jobs;
      KeepOutIgnores(jobs[1..], ids, id);
    }
  }

  /** The loop that archives and deletes the selected jobs one by one. */
  method MoveJobs(store: LdmxStore, selected: seq<LdmxJob>)
    requires store.Valid()
    modifies store
    ensures store.Valid()
    ensures store.jobs == KeepOut(old(store.jobs), IdsOf(selected))
    ensures store.archive == old(store.archive) + Projections(selected)
    ensures store.nextId == old(store.nextId)
  {
    ghost var jobs0 := store.jobs;
    ghost var archive0 := store.archive;
    KeepOutNone(jobs0);
    assert IdsOf(selected[..0]) == {};
    var t := 0;
    while t < |selected|
      invariant 0 <= t <= |selected|
      invariant store.Valid() && store.nextId == old(store.nextId)
      invariant store.jobs == KeepOut(jobs0, IdsOf(selected[..t]))
      invariant store.archive == archive0 + Projections(selected[..t])
    {
      var job := selected[t];
      store.InsertArchive(Project(job));
      KeepOutMore(jobs0, IdsOf(selected[..t]), job.id);
      store.DeleteJob(job.id);
      assert selected[..t + 1] == selected[..t] + [job];
      assert IdsOf(selected[..t + 1]) == IdsOf(selected[..t]) + {job.id};
      ProjectionsAppend(selected[..t], [job]);
      t := t + 1;
    }
    assert selected[..t] == selected;
  }

  /** The body of the archiving loop for a batch whose jobs have all
      ended: its jobs are queried, with the query as written, and, when
      there are any, moved. */
  method ArchiveBatch(store: LdmxStore, b: Option<string>)
    requires store.Valid()
    modifies store
    ensures store.Valid() && store.nextId == old(store.nextId)
    ensures Tables(store.jobs, store.archive) == MoveBatch(Tables(old(store.jobs), old(store.archive)), WrittenSelector(b))
  {
    var selected := Select(store.jobs, WrittenSelector(b));
    if selected != [] {
      KeepOutSelected(store.jobs, WrittenSelector(b), store.nextId);
      MoveJobs(store, selected);
    } else {
      RejectNothing(store.jobs, WrittenSelector(b));
      assert store.archive + Projections(selected) == store.archive;
    }
  }

  /** A batch whose gathered statuses are all terminal is archived. */
  method VisitBatch(store: LdmxStore, ghost snapshot: seq<LdmxJob>, b: Option<string>, statuses: set<string>)
    requires store.Valid() && statuses == StatusesOf(snapshot, b)
    modifies store
    ensures store.Valid() && store.nextId == old(store.nextId)
    ensures Tables(store.jobs, store.archive)
         == if Eligible(snapshot, b) then MoveBatch(Tables(old(store.jobs), old(store.archive)), WrittenSelector(b))
            else Tables(old(store.jobs), old(store.archive))
  {
    if statuses <= Terminal {
      ArchiveBatch(store, b);
    }
  }

  /** `archiveBatches`: the statuses of every batch are gathered first; then
      each batch whose jobs have all ended has its jobs archived and
      deleted, each batch queried as the code writes the query. */
  method ArchiveBatches(store: LdmxStore)
    requires store.Valid()
    modifies store
    ensures store.Valid() && store.nextId == old(store.nextId)
    ensures Tables(store.jobs, store.archive) == Archived(Tables(old(store.jobs), old(store.archive)), WrittenSelector)
  {
    ghost var snapshot := store.jobs;
    ghost var goal := Archived(Tables(store.jobs, store.archive), WrittenSelector);
    var order, statuses := GroupStatuses(store.jobs);
    var k := 0;
    while k < |order|
      invariant 0 <= k <= |order|
      invariant store.Valid() && store.nextId == old(store.nextId)
      invariant ArchiveFrom(snapshot, order[k..], Tables(store.jobs, store.archive), WrittenSelector) == goal
    {
      var b := order[k];
      ArchiveFromStep(snapshot, order, k, Tables(store.jobs, store.archive), WrittenSelector);
      VisitBatch(store, snapshot, b, statuses[b]);
      k := k + 1;
    }
  }

  /** A finished job in a batch with an empty id, and a running job with no
      batch. */
  const Finished := LdmxJob(1, "d", "t", 0, Some(""), "finished", None, None, None, None)
  const Running := LdmxJob(2, "d", "t", 0, None, "running", None, None, None, None)

  lemma {:induction false} RunningNotTerminal()
    ensures "running" !in Terminal && "finished" in Terminal
  {
    assert "running"[0] == 'r';
    assert "finished"[1] == 'i';
    assert "failed"[1] == 'a';
    assert "cancelled"[0] == 'c';
  }

  /** The statuses of the two batches of the example table. */
  lemma {:induction false} ExampleStatuses()
    ensures BatchOrder([Finished, Running]) == [Some(""), None]
    ensures Eligible([Finished, Running], Some("")) && !Eligible([Finished, Running], None)
  {
    var jobs := [Finished, Running];
    RunningNotTerminal();
    assert jobs[..1] == [Finished];
    assert jobs[..1][..0] == [];
    assert BatchOrder(jobs[..1]) == [Some("")];
    assert StatusesOf(jobs, Some("")) == {"finished"};
    assert "running" in StatusesOf(jobs, None) by {
      assert Running in jobs;
    }
  }

  /** As written, the empty batch id selects the jobs without a batch: the
      running job is archived and the finished one stays in the table. */
  lemma {:induction false} WrittenArchivesWrongBatch()
    ensures Archived(Tables([Finished, Running], []), WrittenSelector) == Tables([Finished], [Project(Running)])
  {
    var jobs := [Finished, Running];
    ExampleStatuses();
    var t0 := Tables(jobs, []);
    var t1 := Tables([Finished], [Project(Running)]);
    assert WrittenSelector(Some("")) == NullBatch;
    assert Select(jobs, NullBatch) == [Running];
    assert Reject(jobs, NullBatch) == [Finished];
    assert MoveBatch(t0, NullBatch) == t1;
    assert [Some(""), None][1..] == [None];
    assert ArchiveFrom(jobs, [None], t1, WrittenSelector) == t1;
  }

  /** With the batch query the finished job is archived and the running one
      stays. */
  lemma {:induction false} BatchArchivesFinished()
    ensures Archived(Tables([Finished, Running], []), BatchSelector) == Tables([Running], [Project(Finished)])
  {
    var jobs := [Finished, Running];
    ExampleStatuses();
    var t0 := Tables(jobs, []);
    var t1 := Tables([Running], [Project(Finished)]);
    assert BatchSelector(Some("")) == ByBatch("");
    assert Select(jobs, ByBatch("")) == [Finished];
    assert Reject(jobs, ByBatch("")) == [Running];
    assert MoveBatch(t0, ByBatch("")) == t1;
    assert [Some(""), None][1..] == [None];
    assert ArchiveFrom(jobs, [None], t1, BatchSelector) == t1;
  }
}
