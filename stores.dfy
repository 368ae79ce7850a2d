/** The database tables the LDMX components read and write: the LDMX job
    table with its archive, and the table of ARC job descriptions. Each is
    an object whose rows the operations replace. */
module Stores {
  import opened Basics

  /** A row of the LDMX job table. Site and times are filled in by the
      components that follow the job on the cluster. */
  datatype LdmxJob = LdmxJob(id: nat, description: string, template: string, proxyid: int,
                             batchid: Option<string>, status: string, arcjobid: Option<nat>,
                             sitename: Option<string>, starttime: Option<int>, endtime: Option<int>)

  /** A row of the archive table: the columns archiving copies. */
  datatype ArchiveRow = ArchiveRow(id: nat, sitename: Option<string>, status: string,
                                   starttime: Option<int>, endtime: Option<int>, batchid: Option<string>)

  /** The archived columns of a job. */
  function Project(j: LdmxJob): (r: ArchiveRow)
    ensures r.id == j.id && r.status == j.status && r.batchid == j.batchid
  {
    ArchiveRow(j.id, j.sitename, j.status, j.starttime, j.endtime, j.batchid)
  }

  /** A job as it is inserted: status "new", no ARC job yet. */
  function NewJob(id: nat, description: string, template: string, proxyid: int, batchid: string): LdmxJob {
    LdmxJob(id, description, template, proxyid, Some(batchid), "new", None, None, None, None)
  }

  /** The table without the row of the given id. */
  function WithoutId(jobs: seq<LdmxJob>, id: nat): (r: seq<LdmxJob>)
    ensures |r| <= |jobs|
  {
    if jobs == [] then []
    else if jobs[0].id == id then WithoutId(jobs[1..], id)
    else [jobs[0]] + WithoutId(jobs[1..], id)
  }

  /** The table with the row of the given id given a new status and, when
      one is given, an ARC job. */
  function Updated(jobs: seq<LdmxJob>, id: nat, status: string, arcjobid: Option<nat>): (r: seq<LdmxJob>)
    ensures |r| == |jobs|
  {
    seq(|jobs|, i requires 0 <= i < |jobs| =>
      if jobs[i].id == id then jobs[i].(status := status, arcjobid := if arcjobid.Some? then arcjobid else jobs[i].arcjobid)
      else jobs[i])
  }

  /** Ids increase along the table and stay below the next id. */
  ghost predicate IdsOrdered(jobs: seq<LdmxJob>, nextId: nat) {
    && (forall i, j :: 0 <= i < j < |jobs| ==> jobs[i].id < jobs[j].id)
    && (forall i :: 0 <= i < |jobs| ==> jobs[i].id < nextId)
  }

  /** Deleting a row keeps exactly the other rows, in their order. */
  lemma {:induction false} WithoutIdRows(jobs: seq<LdmxJob>, id: nat)
    ensures forall j :: j in WithoutId(jobs, id) <==> j in jobs && j.id != id
    ensures id !in (set j | j in jobs :: j.id) ==> WithoutId(jobs, id) == jobs
  {
    if jobs != [] {
      WithoutIdRows(jobs[1..], id);
      assert jobs == [jobs[0]] + jobs[1..];
    }
  }

  /** Deleting a row keeps the ids ordered. */
  lemma {:induction false} WithoutIdOrdered(jobs: seq<LdmxJob>, id: nat, nextId: nat)
    requires IdsOrdered(jobs, nextId)
    ensures IdsOrdered(WithoutId(jobs, id), nextId)
  {
    if jobs != [] {
      var rest := jobs[1..];
      OrderedTail(jobs, nextId);
      WithoutIdOrdered(rest, id, nextId);
      if jobs[0].id != id {
        var r := WithoutId(rest, id);
        WithoutIdRows(rest, id);
        forall k | 0 <= k < |r| ensures jobs[0].id < r[k].id {
          assert r[k] in rest;
          var m :| 0 <= m < |rest| && rest[m] == r[k];
          assert jobs[m + 1] == r[k];
        }
        OrderedCons(jobs[0], r, nextId);
      }
    }
  }

  lemma {:induction false} OrderedTail(jobs: seq<LdmxJob>, nextId: nat)
    requires IdsOrdered(jobs, nextId) && jobs != []
    ensures IdsOrdered(jobs[1..], nextId)
  {
    var rest := jobs[1..];
    forall i, j | 0 <= i < j < |rest| ensures rest[i].id < rest[j].id {
      assert rest[i] == jobs[i + 1] && rest[j] == jobs[j + 1];
    }
  }

  lemma {:induction false} OrderedCons(x: LdmxJob, r: seq<LdmxJob>, nextId: nat)
    requires IdsOrdered(r, nextId) && x.id < nextId
    requires forall k :: 0 <= k < |r| ==> x.id < r[k].id
    ensures IdsOrdered([x] + r, nextId)
  {
    var s := [x] + r;
    forall i, j | 0 <= i < j < |s| ensures s[i].id < s[j].id {
      assert s[j] == r[j - 1];
      if i > 0 {
        assert s[i] == r[i - 1];
      }
    }
  }

  /** The LDMX job table and its archive. */
  class LdmxStore {
    var jobs: seq<LdmxJob>
    var archive: seq<ArchiveRow>
    var nextId: nat

    ghost predicate Valid()
      reads this
    {
      IdsOrdered(jobs, nextId)
    }

    constructor(jobs0: seq<LdmxJob>, archive0: seq<ArchiveRow>, next: nat)
      requires IdsOrdered(jobs0, next)
      ensures Valid()
      ensures jobs == jobs0 && archive == archive0 && nextId == next
    {
      jobs := jobs0;
      archive := archive0;
      nextId := next;
    }

    /** `insertJob`: a new row at the end with the next id. */
    method InsertJob(description: string, template: string, proxyid: int, batchid: string) returns (id: nat)
      requires Valid()
      modifies this
      ensures Valid()
      ensures id == old(nextId) && nextId == old(nextId) + 1
      ensures jobs == old(jobs) + [NewJob(id, description, template, proxyid, batchid)]
      ensures archive == old(archive)
    {
      id := nextId;
      jobs := jobs + [NewJob(id, description, template, proxyid, batchid)];
      nextId := nextId + 1;
    }

    /** `updateJobLazy(id, {'ldmxstatus': ..., 'arcjobid': ...})` */
    method UpdateJob(id: nat, status: string, arcjobid: Option<nat>)
      requires Valid()
      modifies this
      ensures Valid()
      ensures jobs == Updated(old(jobs), id, status, arcjobid)
      ensures archive == old(archive) && nextId == old(nextId)
    {
      jobs := Updated(jobs, id, status, arcjobid);
    }

    /** `deleteJob(id)` */
    method DeleteJob(id: nat)
      requires Valid()
      modifies this
      ensures Valid()
      ensures jobs == WithoutId(old(jobs), id)
      ensures archive == old(archive) && nextId == old(nextId)
    {
      WithoutIdOrdered(jobs, id, nextId);
      jobs := WithoutId(jobs, id);
    }

    /** `insertJobArchiveLazy(row)` */
    method InsertArchive(row: ArchiveRow)
      modifies this
      ensures archive == old(archive) + [row]
      ensures jobs == old(jobs) && nextId == old(nextId)
    {
      archive := archive + [row];
    }
  }

  /** A row of the ARC job table: the description and how to submit it.
      The LDMX dispatcher gives a fair-share group, the PanDA one a number of
      attempts. */
  datatype ArcRow = ArcRow(id: nat, description: string, proxyid: int, clusterlist: string,
                           downloadfiles: string, appjobid: string, fairshare: Option<string>,
                           maxattempts: Option<int>)

  /** The table of ARC job descriptions. */
  class ArcStore {
    var rows: seq<ArcRow>
    var nextId: nat

    constructor(rows0: seq<ArcRow>, next: nat)
      ensures rows == rows0 && nextId == next
    {
      rows := rows0;
      nextId := next;
    }

    /** `insertArcJobDescription`: the id of the new row, or nothing when the
        database refuses the row (`accepted` is false), which changes nothing. */
    method Insert(description: string, proxyid: int, clusterlist: string, downloadfiles: string,
                  appjobid: string, fairshare: Option<string>, maxattempts: Option<int>, accepted: bool)
      returns (aid: Option<nat>)
      modifies this
      ensures accepted ==> aid == Some(old(nextId)) && nextId == old(nextId) + 1
      ensures accepted ==>
        rows == old(rows) + [ArcRow(old(nextId), description, proxyid, clusterlist, downloadfiles, appjobid, fairshare, maxattempts)]
      ensures !accepted ==> aid == None && rows == old(rows) && nextId == old(nextId)
    {
      if !accepted {
        return None;
      }
      aid := Some(nextId);
      rows := rows + [ArcRow(nextId, description, proxyid, clusterlist, downloadfiles, appjobid, fairshare, maxattempts)];
      nextId := nextId + 1;
    }
  }
}
