/** The ATLAS submitter (`aCTPanda2Arc`): the site table it builds from the
    configuration, and the cycle that turns each PanDA job without an ARC
    job into a row of the ARC job table. */
module Panda {
  import opened Basics
  import opened Strings
  import opened Stores

  /** At most this many jobs are taken per cycle. */
  const JobLimit := 10000
  /** Attempts allowed to a job, and to a job of the volunteer-computing site. */
  const DefaultAttempts := 5
  const BoincAttempts := 30
  const BoincSite := "BOINC"
  const ErrorsDir := "gmlog/errors"
  const SmallFiles := "jobSmallFiles.tgz"
  const TarSuffix := ".tgz"
  const SchedconfigKey := "schedconfig"

  // ---------------------------------------------------------------------
  // The site table

  /** An endpoint as `urlparse` gives it: the host is missing when the URL
      has no network location. */
  datatype Endpoint = Endpoint(scheme: string, hostname: Option<string>, port: Option<int>, path: string)

  /** What the configuration lists for the sites of one name, in document
      order: endpoints, scheduler configurations, core counts, catalogues and
      true-pilot flags. */
  datatype SiteLists = SiteLists(endpoints: seq<Endpoint>, schedconfig: seq<string>, corecount: seq<string>,
                                 catalog: seq<string>, truepilot: seq<string>)

  /** The configuration: the site names in document order, and the lists
      given for each name. */
  datatype SiteConfig = SiteConfig(names: seq<string>, lists: map<string, SiteLists>)

  /** A name the configuration gives nothing for lists nothing. */
  function ListsOf(conf: SiteConfig, name: string): SiteLists {
    if name in conf.lists then conf.lists[name] else SiteLists([], [], [], [], [])
  }

  /** A complete entry of the site table. */
  datatype Site = Site(endpoints: seq<Endpoint>, schedconfig: string, corecount: int, catalog: string, truepilot: int)

  /** An entry of the site table: complete, or holding only the endpoints
      when the scheduler configuration was missing. */
  datatype SiteEntry = Full(site: Site) | EndpointsOnly(endpoints: seq<Endpoint>)

  /** `int(xs[0])`, or the default when the list is empty or its first item
      is not an integer. */
  function FirstInt(xs: seq<string>, default: int): (r: int)
    ensures xs == [] ==> r == default
    ensures xs != [] && ParseInt(xs[0]).None? ==> r == default
    ensures xs != [] && ParseInt(xs[0]).Some? ==> r == ParseInt(xs[0]).value
  {
    if xs != [] && ParseInt(xs[0]).Some? then ParseInt(xs[0]).value else default
  }

  /** The entry of a site whose scheduler configuration is given: the first
      core count (1 by default), the first catalogue (the global one by
      default) and the first true-pilot flag (0 by default). */
  function SiteOf(l: SiteLists, globalCatalog: string): (s: Site)
    requires l.schedconfig != []
    ensures s.endpoints == l.endpoints && s.schedconfig == l.schedconfig[0]
    ensures s.corecount == FirstInt(l.corecount, 1) && s.truepilot == FirstInt(l.truepilot, 0)
    ensures s.catalog == (if l.catalog != [] then l.catalog[0] else globalCatalog)
  {
    Site(l.endpoints, l.schedconfig[0], FirstInt(l.corecount, 1),
         if l.catalog != [] then l.catalog[0] else globalCatalog, FirstInt(l.truepilot, 0))
  }

  /** The site table and how filling it ended. */
  datatype SitesUpdate = SitesUpdate(sites: map<string, SiteEntry>, failure: Option<Failure>)

  /** One name of the loop in `setSites`: the entry is replaced by the
      endpoints, and then completed unless the scheduler configuration is
      missing, which raises. */
  function SetOne(sites: map<string, SiteEntry>, name: string, conf: SiteConfig, globalCatalog: string): (u: SitesUpdate)
    ensures name in u.sites && u.sites.Keys == sites.Keys + {name}
    ensures forall k :: k in sites && k != name ==> u.sites[k] == sites[k]
    ensures u.failure.Some? <==> ListsOf(conf, name).schedconfig == []
  {
    var l := ListsOf(conf, name);
    if l.schedconfig == [] then SitesUpdate(sites[name := EndpointsOnly(l.endpoints)], Some(NoSchedconfig(name)))
    else SitesUpdate(sites[name := Full(SiteOf(l, globalCatalog))], None)
  }

  /** The loop of `setSites` over the first names; the first missing
      scheduler configuration ends it. */
  function SetAll(sites: map<string, SiteEntry>, names: seq<string>, conf: SiteConfig, globalCatalog: string): SitesUpdate
    decreases |names|
  {
    if names == [] then SitesUpdate(sites, None)
    else
      var prev := SetAll(sites, names[..|names| - 1], conf, globalCatalog);
      if prev.failure.Some? then prev
      else SetOne(prev.sites, names[|names| - 1], conf, globalCatalog)
  }

  /** The configured names, as a set. */
  function NameSet(names: seq<string>): set<string> {
    set x | x in names
  }

  lemma {:induction false} NameSetSnoc(names: seq<string>)
    requires names != []
    ensures NameSet(names) == NameSet(names[..|names| - 1]) + {names[|names| - 1]}
  {
    assert names == names[..|names| - 1] + [names[|names| - 1]];
  }

  /** `setSites` ends normally exactly when every configured name has a
      scheduler configuration. */
  lemma {:induction false} SetAllFailure(sites: map<string, SiteEntry>, names: seq<string>, conf: SiteConfig, globalCatalog: string)
    ensures SetAll(sites, names, conf, globalCatalog).failure.None?
        <==> forall k :: 0 <= k < |names| ==> ListsOf(conf, names[k]).schedconfig != []
    decreases |names|
  {
    if names != [] {
      var init := names[..|names| - 1];
      SetAllFailure(sites, init, conf, globalCatalog);
      assert forall k :: 0 <= k < |init| ==> init[k] == names[k];
      if SetAll(sites, init, conf, globalCatalog).failure.Some? {
        var k :| 0 <= k < |init| && ListsOf(conf, init[k]).schedconfig == [];
        assert names[k] == init[k];
      }
    }
  }

  /** `setSites` never clears the table: it gains an entry for each name
      reached, and every other entry is kept. */
  lemma {:induction false} SetAllKeeps(sites: map<string, SiteEntry>, names: seq<string>, conf: SiteConfig, globalCatalog: string)
    ensures var u := SetAll(sites, names, conf, globalCatalog);
      && sites.Keys <= u.sites.Keys <= sites.Keys + NameSet(names)
      && (u.failure.None? ==> u.sites.Keys == sites.Keys + NameSet(names))
      && (forall k :: k in sites && k !in NameSet(names) ==> u.sites[k] == sites[k])
    decreases |names|
  {
    if names != [] {
      var init := names[..|names| - 1];
      SetAllKeeps(sites, init, conf, globalCatalog);
      NameSetSnoc(names);
    }
  }

  /** `setSites` ending normally gives every configured name its complete
      entry. */
  lemma {:induction false} SetAllSites(sites: map<string, SiteEntry>, names: seq<string>, conf: SiteConfig, globalCatalog: string)
    ensures var u := SetAll(sites, names, conf, globalCatalog);
      u.failure.None? ==> forall x :: x in NameSet(names) ==> x in u.sites && ListsOf(conf, x).schedconfig != [] && u.sites[x] == Full(SiteOf(ListsOf(conf, x), globalCatalog))
    decreases |names|
  {
    if names != [] {
      var init := names[..|names| - 1];
      SetAllSites(sites, init, conf, globalCatalog);
      SetAllFailure(sites, names, conf, globalCatalog);
      NameSetSnoc(names);
    }
  }

  lemma {:induction false} SetAllNext(sites: map<string, SiteEntry>, names: seq<string>, i: nat, conf: SiteConfig, globalCatalog: string)
    requires i < |names| && SetAll(sites, names[..i], conf, globalCatalog).failure.None?
    ensures SetAll(sites, names[..i + 1], conf, globalCatalog)
         == SetOne(SetAll(sites, names[..i], conf, globalCatalog).sites, names[i], conf, globalCatalog)
  {
    assert names[..i + 1][..i] == names[..i];
  }

  lemma {:induction false} SetAllBefore(sites: map<string, SiteEntry>, names: seq<string>, i: nat, conf: SiteConfig, globalCatalog: string)
    requires i <= |names| && SetAll(sites, names[..i], conf, globalCatalog).failure.None?
    ensures forall k :: 0 <= k < i ==> ListsOf(conf, names[k]).schedconfig != []
  {
    SetAllFailure(sites, names[..i], conf, globalCatalog);
    assert forall k :: 0 <= k < i ==> names[..i][k] == names[k];
  }

  /** Once a name has raised, the names after it are not reached. */
  lemma {:induction false} SetAllSticks(sites: map<string, SiteEntry>, names: seq<string>, i: nat, conf: SiteConfig, globalCatalog: string)
    requires i <= |names| && SetAll(sites, names[..i], conf, globalCatalog).failure.Some?
    ensures SetAll(sites, names, conf, globalCatalog) == SetAll(sites, names[..i], conf, globalCatalog)
    decreases |names| - i
  {
    if i < |names| {
      var init := names[..|names| - 1];
      assert init[..i] == names[..i];
      SetAllSticks(sites, init, i, conf, globalCatalog);
    } else {
      assert names[..i] == names;
    }
  }

  /** When a scheduler configuration is missing, the names before it have
      their complete entries and the failing name is left holding only its
      endpoints. */
  lemma {:induction false} SetAllFails(sites: map<string, SiteEntry>, names: seq<string>, conf: SiteConfig, globalCatalog: string, j: nat)
    requires j < |names| && ListsOf(conf, names[j]).schedconfig == []
    requires forall k :: 0 <= k < j ==> ListsOf(conf, names[k]).schedconfig != []
    ensures var u := SetAll(sites, names, conf, globalCatalog);
      && u.failure == Some(NoSchedconfig(names[j]))
      && u.sites == SetAll(sites, names[..j], conf, globalCatalog).sites[names[j] := EndpointsOnly(ListsOf(conf, names[j]).endpoints)]
    decreases |names|
  {
    var init := names[..|names| - 1];
    if j < |names| - 1 {
      assert init[j] == names[j];
      assert forall k :: 0 <= k < j ==> init[k] == names[k];
      SetAllFails(sites, init, conf, globalCatalog, j);
      assert init[..j] == names[..j];
    } else {
      SetAllFailure(sites, init, conf, globalCatalog);
      assert forall k :: 0 <= k < |init| ==> init[k] == names[k];
    }
  }

  // ---------------------------------------------------------------------
  // The PanDA job table

  /** A row of the PanDA job table, with the columns the submitter reads and
      writes. */
  datatype PandaJob = PandaJob(pandaid: int, siteName: string, proxyid: int, pandajob: string,
                               arcjobid: Option<nat>, pandastatus: string, actpandastatus: string)

  /** The table with the rows of the given job pointing at an ARC job,
      `starting` for PanDA and `sent` for the ARC Control Tower. */
  function Assigned(jobs: seq<PandaJob>, pandaid: int, aid: nat): (r: seq<PandaJob>)
    ensures |r| == |jobs|
  {
    seq(|jobs|, i requires 0 <= i < |jobs| =>
      if jobs[i].pandaid == pandaid then jobs[i].(arcjobid := Some(aid), pandastatus := "starting", actpandastatus := "sent")
      else jobs[i])
  }

  /** The jobs without an ARC job, in table order. */
  function Unassigned(jobs: seq<PandaJob>): (r: seq<PandaJob>)
    ensures |r| <= |jobs|
  {
    if jobs == [] then []
    else if jobs[0].arcjobid.None? then [jobs[0]] + Unassigned(jobs[1..])
    else Unassigned(jobs[1..])
  }

  /** `getJobs("arcjobid is NULL limit 10000")` */
  function Pending(jobs: seq<PandaJob>): (p: seq<PandaJob>)
    ensures |p| <= JobLimit
    ensures |p| == if |Unassigned(jobs)| <= JobLimit then |Unassigned(jobs)| else JobLimit
  {
    var n := Unassigned(jobs);
    if |n| <= JobLimit then n else n[..JobLimit]
  }

  lemma {:induction false} UnassignedMembers(jobs: seq<PandaJob>)
    ensures forall j :: j in Unassigned(jobs) <==> j in jobs && j.arcjobid.None?
  {
    if jobs != [] {
      UnassignedMembers(jobs[1..]);
      assert jobs == [jobs[0]] + jobs[1..];
    }
  }

  /** Only jobs without an ARC job are taken, at most ten thousand, and all
      of them when there are no more. */
  lemma {:induction false} PendingMembers(jobs: seq<PandaJob>)
    ensures forall j :: j in Pending(jobs) ==> j in jobs && j.arcjobid.None?
    ensures |Unassigned(jobs)| <= JobLimit ==> forall j :: j in jobs && j.arcjobid.None? ==> j in Pending(jobs)
  {
    UnassignedMembers(jobs);
    var n := Unassigned(jobs);
    if |n| > JobLimit {
      forall j | j in n[..JobLimit] ensures j in n {
        var k :| 0 <= k < JobLimit && n[..JobLimit][k] == j;
        assert n[k] == j;
      }
    }
  }

  /** The PanDA job table. */
  class PandaStore {
    var jobs: seq<PandaJob>

    constructor(jobs0: seq<PandaJob>)
      ensures jobs == jobs0
    {
      jobs := jobs0;
    }

    /** `updateJob(pandaid, {'arcjobid': aid, 'pandastatus': 'starting', 'actpandastatus': 'sent'})` */
    method Assign(pandaid: int, aid: nat)
      modifies this
      ensures jobs == Assigned(old(jobs), pandaid, aid)
    {
      jobs := Assigned(jobs, pandaid, aid);
    }
  }

  // ---------------------------------------------------------------------
  // What a job is submitted with

  /** `urlparse(e).hostname + urlparse(e).path`: adding the path to a
      missing host raises. */
  function Location(e: Endpoint): (r: Result<string>)
    ensures r.Ok? <==> e.hostname.Some?
    ensures r.Ok? ==> r.value == e.hostname.value + e.path
  {
    match e.hostname
    case None => Err(NoHostname(e.scheme))
    case Some(h) => Ok(h + e.path)
  }

  function Locations(endpoints: seq<Endpoint>): (rs: seq<Result<string>>)
    ensures |rs| == |endpoints|
  {
    seq(|endpoints|, i requires 0 <= i < |endpoints| => Location(endpoints[i]))
  }

  /** The cluster list: the location of each endpoint, in order, joined by
      commas; the first endpoint without a host raises. */
  function ClusterList(endpoints: seq<Endpoint>): Result<string> {
    match Collect(Locations(endpoints))
    case Err(f) => Err(f)
    case Ok(cl) => Ok(Join(cl, ","))
  }

  /** The cluster list exists exactly when every endpoint has a host; then,
      when no host or path holds a comma, splitting it at the commas gives
      back each endpoint's host and path, in order (the port is dropped). */
  lemma {:induction false} ClusterListParts(endpoints: seq<Endpoint>)
    ensures ClusterList(endpoints).Ok? <==> forall i :: 0 <= i < |endpoints| ==> endpoints[i].hostname.Some?
    ensures ClusterList(endpoints).Ok? && |endpoints| >= 1 &&
            (forall i :: 0 <= i < |endpoints| ==> ',' !in endpoints[i].hostname.value + endpoints[i].path) ==>
      var parts := Split(ClusterList(endpoints).value, ',');
      |parts| == |endpoints| && forall i :: 0 <= i < |endpoints| ==> parts[i] == endpoints[i].hostname.value + endpoints[i].path
  {
    var rs := Locations(endpoints);
    CollectEach(rs);
    assert forall i :: 0 <= i < |endpoints| ==> rs[i] == Location(endpoints[i]);
    if Collect(rs).Ok? && |endpoints| >= 1 &&
       (forall i :: 0 <= i < |endpoints| ==> ',' !in endpoints[i].hostname.value + endpoints[i].path) {
      var cl := Collect(rs).value;
      assert forall i :: 0 <= i < |cl| ==> cl[i] == endpoints[i].hostname.value + endpoints[i].path;
      SplitJoin(cl, ',');
    }
  }

  /** The loop that builds the cluster list. */
  method BuildClusterList(endpoints: seq<Endpoint>) returns (r: Result<string>)
    ensures r == ClusterList(endpoints)
  {
    ghost var rs := Locations(endpoints);
    var cl: seq<string> := [];
    var i := 0;
    while i < |endpoints|
      invariant 0 <= i <= |endpoints|
      invariant Collect(rs[..i]) == Ok(cl)
    {
      var e := endpoints[i];
      assert rs[i] == Location(e);
      CollectStep(rs, i, cl);
      if e.hostname.None? {
        return Err(NoHostname(e.scheme));
      }
      cl := cl + [e.hostname.value + e.path];
      i := i + 1;
    }
    assert rs[..i] == rs;
    r := Ok(Join(cl, ","));
  }

  /** `maxattempts`: 30 for the BOINC site, 5 for any other. */
  function MaxAttempts(siteName: string): (m: int)
    ensures m == BoincAttempts <==> siteName == BoincSite
    ensures m == DefaultAttempts <==> siteName != BoincSite
  {
    if siteName == BoincSite then BoincAttempts else DefaultAttempts
  }

  /** The files fetched when the job ends: the error log directory, the
      small files of a job that does not run a true pilot, and the log file's
      name without `.tgz` when the job description names a log file. */
  function DownloadFiles(truepilot: int, logFile: Option<string>): string {
    var d := ErrorsDir + (if truepilot == 0 then ";" + SmallFiles else "");
    if logFile.Some? then d + ";" + Remove(logFile.value, TarSuffix) else d
  }

  /** The entries of the download list, read back at the semicolons, when
      the log file name holds no semicolon. */
  function DownloadEntries(truepilot: int, logFile: Option<string>): seq<string> {
    [ErrorsDir] + (if truepilot == 0 then [SmallFiles] else [])
      + (if logFile.Some? then [Remove(logFile.value, TarSuffix)] else [])
  }

  lemma {:induction false} DownloadFilesSplit(truepilot: int, logFile: Option<string>)
    requires logFile.Some? ==> ';' !in logFile.value
    ensures Split(DownloadFiles(truepilot, logFile), ';') == DownloadEntries(truepilot, logFile)
  {
    var es := DownloadEntries(truepilot, logFile);
    if logFile.Some? {
      RemoveKeepsOut(logFile.value, TarSuffix, ';');
    }
    assert ';' !in ErrorsDir && ';' !in SmallFiles;
    forall i | 0 <= i < |es| ensures ';' !in es[i] {
    }
    JoinEntries(truepilot, logFile);
    SplitJoin(es, ';');
  }

  lemma {:induction false} JoinEntries(truepilot: int, logFile: Option<string>)
    ensures Join(DownloadEntries(truepilot, logFile), ";") == DownloadFiles(truepilot, logFile)
  {
    var tail := if logFile.Some? then [Remove(logFile.value, TarSuffix)] else [];
    if truepilot == 0 {
      assert DownloadEntries(truepilot, logFile) == [ErrorsDir, SmallFiles] + tail;
      if logFile.Some? {
        assert Join([ErrorsDir, SmallFiles, tail[0]], ";") == ErrorsDir + ";" + Join([SmallFiles, tail[0]], ";");
      }
    } else {
      assert DownloadEntries(truepilot, logFile) == [ErrorsDir] + tail;
    }
  }

  /** Removing a pattern brings in no character. */
  lemma {:induction false} RemoveKeepsOut(s: string, pat: string, c: char)
    requires pat != [] && c !in s
    ensures c !in Remove(s, pat)
    decreases |s|
  {
    if |s| >= |pat| {
      if s[..|pat|] == pat {
        RemoveKeepsOut(s[|pat|..], pat, c);
      } else {
        RemoveKeepsOut(s[1..], pat, c);
      }
    }
  }

  /** A log file `<stem>.tgz` whose stem has no dot is fetched as `<stem>`. */
  lemma {:induction false} LogEntryStem(stem: string)
    requires '.' !in stem
    ensures Remove(stem + TarSuffix, TarSuffix) == stem
    decreases |stem|
  {
    var s := stem + TarSuffix;
    if stem == [] {
      assert s[..|TarSuffix|] == TarSuffix;
      assert s[|TarSuffix|..] == [];
    } else {
      assert s[0] == stem[0] != '.';
      assert s[..|TarSuffix|] != TarSuffix by {
        assert s[..|TarSuffix|][0] == s[0];
      }
      LogEntryStem(stem[1..]);
      assert s[1..] == stem[1..] + TarSuffix;
      assert [stem[0]] + stem[1..] == stem;
    }
  }

  // ---------------------------------------------------------------------
  // The cycle

  /** What `getXrsl` does: raise, or return a description or nothing. */
  datatype XrslOutcome = XrslRaised | XrslValue(xrsl: Option<string>)

  /** What the job description parser does for a job at a site: `parse`
      raises, or it parses, giving the outcome of `getXrsl` and the log file
      named by the job description, if any. */
  datatype ParseOutcome = ParseFailed | Parsed(xrsl: XrslOutcome, logFile: Option<string>)

  /** The parser is not part of this model: the outcome it gives for each
      job at each site is a parameter. */
  type Parser = (PandaJob, Site) -> ParseOutcome

  /** The PanDA job table, the ARC job table with its next id, and the cause
      that ended the cycle early, if any. */
  datatype PCycle = PCycle(jobs: seq<PandaJob>, rows: seq<ArcRow>, nextArc: nat, failure: Option<Failure>)

  /** The row a job gets in the ARC job table. */
  function RowFor(id: nat, job: PandaJob, site: Site, xrsl: string, cls: string, logFile: Option<string>): ArcRow {
    ArcRow(id, xrsl, job.proxyid, cls, DownloadFiles(site.truepilot, logFile), IntToString(job.pandaid),
           None, Some(MaxAttempts(job.siteName)))
  }

  /** Lines 49-82 for a job with a description: build the cluster list and
      insert the row; the database refuses the rows of the jobs in
      `refused`, which leaves the job as it was. */
  function Insert(c: PCycle, job: PandaJob, site: Site, xrsl: string, logFile: Option<string>, refused: set<int>): PCycle {
    match ClusterList(site.endpoints)
    case Err(f) => c.(failure := Some(f))
    case Ok(cls) =>
      if job.pandaid in refused then c
      else PCycle(Assigned(c.jobs, job.pandaid, c.nextArc), c.rows + [RowFor(c.nextArc, job, site, xrsl, cls, logFile)], c.nextArc + 1, None)
  }

  /** The site entry of a job, or why looking it up raises. */
  function SiteFor(sites: map<string, SiteEntry>, job: PandaJob): (r: Result<Site>)
    ensures r.Ok? <==> job.siteName in sites && sites[job.siteName].Full?
  {
    if job.siteName !in sites then Err(UnknownSite(job.siteName))
    else match sites[job.siteName]
      case EndpointsOnly(_) => Err(MissingKey(SchedconfigKey))
      case Full(site) => Ok(site)
  }

  /** One turn of the loop as intended: a job whose site is unknown, whose
      site entry is incomplete or whose parse raises ends the cycle; a job
      without a description, or whose `getXrsl` raises, is skipped. The
      loop as the code writes it is `SubmitAsWritten` below. */
  function Submit(c: PCycle, job: PandaJob, sites: map<string, SiteEntry>, parse: Parser, refused: set<int>): PCycle {
    match SiteFor(sites, job)
    case Err(f) => c.(failure := Some(f))
    case Ok(site) =>
      match parse(job, site)
      case ParseFailed => c.(failure := Some(ParserRaised))
      case Parsed(XrslRaised, _) => c
      case Parsed(XrslValue(None), _) => c
      case Parsed(XrslValue(Some(x)), logFile) => Insert(c, job, site, x, logFile, refused)
  }

  /** The loop over the jobs taken; the first failure ends it. */
  function Created(c: PCycle, pending: seq<PandaJob>, sites: map<string, SiteEntry>, parse: Parser, refused: set<int>): PCycle
    decreases |pending|
  {
    if pending == [] || c.failure.Some? then c
    else Created(Submit(c, pending[0], sites, parse, refused), pending[1..], sites, parse, refused)
  }

  /** `createArcJobs` on given tables. */
  function CreatedAll(jobs: seq<PandaJob>, rows: seq<ArcRow>, nextArc: nat, sites: map<string, SiteEntry>,
                      parse: Parser, refused: set<int>): PCycle {
    Created(PCycle(jobs, rows, nextArc, None), Pending(jobs), sites, parse, refused)
  }

  lemma {:induction false} CreatedStep(c: PCycle, pending: seq<PandaJob>, k: nat, sites: map<string, SiteEntry>, parse: Parser, refused: set<int>)
    requires k < |pending| && c.failure.None?
    ensures Created(c, pending[k..], sites, parse, refused)
         == Created(Submit(c, pending[k], sites, parse, refused), pending[k + 1..], sites, parse, refused)
  {
    assert pending[k..][0] == pending[k] && pending[k..][1..] == pending[k + 1..];
  }

  /** `row` is the row built for `job`: the description the parser built
      for this very job, the cluster list of its site, its proxy, its id as
      the application id, and the attempts and downloads its site calls for. */
  ghost predicate RowOf(row: ArcRow, job: PandaJob, sites: map<string, SiteEntry>, parse: Parser) {
    && SiteFor(sites, job).Ok?
    && var site := SiteFor(sites, job).value;
       && parse(job, site).Parsed?
       && parse(job, site).xrsl == XrslValue(Some(row.description))
       && ClusterList(site.endpoints) == Ok(row.clusterlist)
       && row == RowFor(row.id, job, site, row.description, row.clusterlist, parse(job, site).logFile)
  }

  /** A turn inserts at most one row, the row built for its job. */
  lemma {:induction false} SubmitOwnRow(c: PCycle, job: PandaJob, sites: map<string, SiteEntry>, parse: Parser, refused: set<int>)
    ensures var r := Submit(c, job, sites, parse, refused);
      && |c.rows| <= |r.rows| <= |c.rows| + 1
      && (|r.rows| != |c.rows| ==> job.pandaid !in refused && RowOf(r.rows[|c.rows|], job, sites, parse))
  {
  }

  // ---------------------------------------------------------------------
  // What a cycle keeps

  /** A row the cycle writes: five attempts, or thirty at BOINC; the error
      log directory fetched first; no fair-share group. */
  predicate WellFormedRow(row: ArcRow) {
    && (row.maxattempts == Some(DefaultAttempts) || row.maxattempts == Some(BoincAttempts))
    && StartsWith(row.downloadfiles, ErrorsDir)
    && row.fairshare.None?
  }

  /** A job handed to ARC: its ARC job set, `starting` and `sent`, the rest
      as it was. */
  predicate Sent(before: PandaJob, after: PandaJob) {
    && after.arcjobid.Some?
    && after == before.(arcjobid := after.arcjobid, pandastatus := "starting", actpandastatus := "sent")
  }

  /** `r` is `c` after some turns: each job is as it was or handed to ARC;
      the ARC job table only grows, by well-formed rows with consecutive ids
      from the next id on. */
  ghost predicate Extends(c: PCycle, r: PCycle) {
    && |r.jobs| == |c.jobs|
    && (forall i :: 0 <= i < |c.jobs| ==> r.jobs[i] == c.jobs[i] || Sent(c.jobs[i], r.jobs[i]))
    && |c.rows| <= |r.rows| && r.rows[..|c.rows|] == c.rows
    && r.nextArc == c.nextArc + (|r.rows| - |c.rows|)
    && (forall i :: |c.rows| <= i < |r.rows| ==> r.rows[i].id == c.nextArc + (i - |c.rows|) && WellFormedRow(r.rows[i]))
  }

  lemma {:induction false} DownloadStartsWithErrors(truepilot: int, logFile: Option<string>)
    ensures StartsWith(DownloadFiles(truepilot, logFile), ErrorsDir)
  {
    var d := ErrorsDir + (if truepilot == 0 then ";" + SmallFiles else "");
    assert ErrorsDir <= d;
  }

  lemma {:induction false} SubmitExtends(c: PCycle, job: PandaJob, sites: map<string, SiteEntry>, parse: Parser, refused: set<int>)
    ensures Extends(c, Submit(c, job, sites, parse, refused))
  {
    var r := Submit(c, job, sites, parse, refused);
    assert r.rows[..|c.rows|] == c.rows;
    if |r.rows| != |c.rows| {
      var site := SiteFor(sites, job).value;
      DownloadStartsWithErrors(site.truepilot, parse(job, site).logFile);
    }
  }

  lemma {:induction false} ExtendsTrans(a: PCycle, b: PCycle, c: PCycle)
    requires Extends(a, b) && Extends(b, c)
    ensures Extends(a, c)
  {
    assert c.rows[..|a.rows|] == c.rows[..|b.rows|][..|a.rows|];
    forall i | |a.rows| <= i < |c.rows| ensures c.rows[i].id == a.nextArc + (i - |a.rows|) && WellFormedRow(c.rows[i]) {
      if i < |b.rows| {
        assert c.rows[i] == c.rows[..|b.rows|][i];
      }
    }
    forall i | 0 <= i < |a.jobs| ensures c.jobs[i] == a.jobs[i] || Sent(a.jobs[i], c.jobs[i]) {
    }
  }

  /** However the cycle ends, jobs are only handed to ARC and the ARC job
      table only grows by well-formed rows with consecutive ids. */
  lemma {:induction false} CreatedExtends(c: PCycle, pending: seq<PandaJob>, sites: map<string, SiteEntry>, parse: Parser, refused: set<int>)
    ensures Extends(c, Created(c, pending, sites, parse, refused))
    decreases |pending|
  {
    if pending != [] && c.failure.None? {
      var next := Submit(c, pending[0], sites, parse, refused);
      SubmitExtends(c, pending[0], sites, parse, refused);
      CreatedExtends(next, pending[1..], sites, parse, refused);
      ExtendsTrans(c, next, Created(next, pending[1..], sites, parse, refused));
    } else {
      assert c.rows[..|c.rows|] == c.rows;
    }
  }

  /** Every job the cycle handed to ARC names, as its ARC job, a row the
      cycle inserted for it. */
  ghost predicate Linked(c: PCycle, r: PCycle) {
    forall i :: 0 <= i < |c.jobs| && i < |r.jobs| && r.jobs[i] != c.jobs[i] ==>
      && r.jobs[i].arcjobid.Some?
      && exists k :: |c.rows| <= k < |r.rows| && r.rows[k].id == r.jobs[i].arcjobid.value
                     && r.rows[k].appjobid == IntToString(r.jobs[i].pandaid)
  }

  lemma {:induction false} SubmitLinked(c: PCycle, job: PandaJob, sites: map<string, SiteEntry>, parse: Parser, refused: set<int>)
    ensures Linked(c, Submit(c, job, sites, parse, refused))
  {
    var r := Submit(c, job, sites, parse, refused);
    if r.jobs != c.jobs {
      var k := |c.rows|;
      assert r.rows[k].id == c.nextArc;
      forall i | 0 <= i < |c.jobs| && i < |r.jobs| && r.jobs[i] != c.jobs[i]
        ensures r.jobs[i].arcjobid == Some(c.nextArc) && r.jobs[i].pandaid == job.pandaid
      {
      }
    }
  }

  lemma {:induction false} LinkedTrans(a: PCycle, b: PCycle, c: PCycle)
    requires Extends(a, b) && Extends(b, c) && Linked(a, b) && Linked(b, c)
    ensures Linked(a, c)
  {
    forall i | 0 <= i < |a.jobs| && i < |c.jobs| && c.jobs[i] != a.jobs[i]
      ensures c.jobs[i].arcjobid.Some?
      ensures exists k :: |a.rows| <= k < |c.rows| && c.rows[k].id == c.jobs[i].arcjobid.value
                          && c.rows[k].appjobid == IntToString(c.jobs[i].pandaid)
    {
      if c.jobs[i] != b.jobs[i] {
        var k :| |b.rows| <= k < |c.rows| && c.rows[k].id == c.jobs[i].arcjobid.value
                 && c.rows[k].appjobid == IntToString(c.jobs[i].pandaid);
      } else {
        var k :| |a.rows| <= k < |b.rows| && b.rows[k].id == b.jobs[i].arcjobid.value
                 && b.rows[k].appjobid == IntToString(b.jobs[i].pandaid);
        assert c.rows[k] == c.rows[..|b.rows|][k];
      }
    }
  }

  /** The cycle links every job it hands to ARC to a row it inserted with
      the job's id. */
  lemma {:induction false} CreatedLinked(c: PCycle, pending: seq<PandaJob>, sites: map<string, SiteEntry>, parse: Parser, refused: set<int>)
    ensures Linked(c, Created(c, pending, sites, parse, refused))
    decreases |pending|
  {
    if pending != [] && c.failure.None? {
      var next := Submit(c, pending[0], sites, parse, refused);
      var r := Created(next, pending[1..], sites, parse, refused);
      SubmitLinked(c, pending[0], sites, parse, refused);
      SubmitExtends(c, pending[0], sites, parse, refused);
      CreatedLinked(next, pending[1..], sites, parse, refused);
      CreatedExtends(next, pending[1..], sites, parse, refused);
      LinkedTrans(c, next, r);
    }
  }

  /** Each row `r` has beyond the rows of `c` is the row built for one of
      the jobs taken. */
  ghost predicate OwnRows(c: PCycle, r: PCycle, pending: seq<PandaJob>, sites: map<string, SiteEntry>, parse: Parser) {
    forall k :: |c.rows| <= k < |r.rows| ==> RowOfSome(r.rows[k], pending, sites, parse)
  }

  ghost predicate RowOfSome(row: ArcRow, pending: seq<PandaJob>, sites: map<string, SiteEntry>, parse: Parser) {
    exists j :: j in pending && RowOf(row, j, sites, parse)
  }

  /** Every row the cycle inserts is the row built for one of the jobs it
      took, so a job stuck in the parser is never sent with another job's
      description. */
  lemma {:induction false} CreatedOwnRows(c: PCycle, pending: seq<PandaJob>, sites: map<string, SiteEntry>, parse: Parser, refused: set<int>)
    ensures OwnRows(c, Created(c, pending, sites, parse, refused), pending, sites, parse)
    decreases |pending|
  {
    if pending != [] && c.failure.None? {
      var next := Submit(c, pending[0], sites, parse, refused);
      var r := Created(next, pending[1..], sites, parse, refused);
      SubmitOwnRow(c, pending[0], sites, parse, refused);
      CreatedOwnRows(next, pending[1..], sites, parse, refused);
      CreatedExtends(next, pending[1..], sites, parse, refused);
      assert r == Created(c, pending, sites, parse, refused);
      forall k | |c.rows| <= k < |r.rows| ensures RowOfSome(r.rows[k], pending, sites, parse) {
        if k < |next.rows| {
          assert r.rows[k] == r.rows[..|next.rows|][k];
          assert pending[0] in pending;
        } else {
          assert RowOfSome(r.rows[k], pending[1..], sites, parse);
          var j :| j in pending[1..] && RowOf(r.rows[k], j, sites, parse);
          assert j in pending;
        }
      }
    }
  }

  function IdsOf(pending: seq<PandaJob>): set<int> {
    set j | j in pending :: j.pandaid
  }

  /** Jobs the cycle did not take are left as they were. */
  lemma {:induction false} CreatedUntouched(c: PCycle, pending: seq<PandaJob>, sites: map<string, SiteEntry>, parse: Parser, refused: set<int>)
    ensures var r := Created(c, pending, sites, parse, refused);
      |r.jobs| == |c.jobs| && forall i :: 0 <= i < |c.jobs| && c.jobs[i].pandaid !in IdsOf(pending) ==> r.jobs[i] == c.jobs[i]
    decreases |pending|
  {
    CreatedExtends(c, pending, sites, parse, refused);
    if pending != [] && c.failure.None? {
      var next := Submit(c, pending[0], sites, parse, refused);
      CreatedUntouched(next, pending[1..], sites, parse, refused);
      assert pending == [pending[0]] + pending[1..];
      forall i | 0 <= i < |c.jobs| && c.jobs[i].pandaid !in IdsOf(pending) ensures next.jobs[i] == c.jobs[i] {
        assert pending[0] in pending;
      }
      forall i | 0 <= i < |c.jobs| && c.jobs[i].pandaid !in IdsOf(pending) ensures c.jobs[i].pandaid !in IdsOf(pending[1..]) {
        forall j | j in pending[1..] ensures j.pandaid != c.jobs[i].pandaid {
          assert j in pending;
        }
      }
    }
  }

  /** A cycle on the tables: it takes only jobs without an ARC job, hands
      jobs to ARC only by linking them to rows inserted for them, inserts
      only well-formed rows with consecutive ids, and leaves every other job
      as it was. */
  lemma {:induction false} CreatedAllEffects(jobs: seq<PandaJob>, rows: seq<ArcRow>, nextArc: nat, sites: map<string, SiteEntry>,
                                             parse: Parser, refused: set<int>)
    ensures var c := PCycle(jobs, rows, nextArc, None);
      var r := CreatedAll(jobs, rows, nextArc, sites, parse, refused);
      && Extends(c, r) && Linked(c, r)
      && forall i :: 0 <= i < |jobs| && r.jobs[i] != jobs[i] ==> jobs[i].pandaid in IdsOf(Pending(jobs))
  {
    var c := PCycle(jobs, rows, nextArc, None);
    CreatedExtends(c, Pending(jobs), sites, parse, refused);
    CreatedLinked(c, Pending(jobs), sites, parse, refused);
    CreatedUntouched(c, Pending(jobs), sites, parse, refused);
  }

  // ---------------------------------------------------------------------
  // The loop as written

  /** The variable `xrsl` of `createArcJobs`, which outlives each turn of
      the loop: unassigned before the first `getXrsl` that returns. */
  datatype XrslVar = Unbound | Bound(value: Option<string>)

  /** One turn as the code is written: when `getXrsl` raises, `xrsl` keeps
      the value of an earlier job, or is unassigned and reading it raises. */
  function SubmitAsWritten(c: PCycle, v: XrslVar, job: PandaJob, sites: map<string, SiteEntry>, parse: Parser,
                           refused: set<int>): (PCycle, XrslVar) {
    match SiteFor(sites, job)
    case Err(f) => (c.(failure := Some(f)), v)
    case Ok(site) =>
      match parse(job, site)
      case ParseFailed => (c.(failure := Some(ParserRaised)), v)
      case Parsed(xo, logFile) =>
        var v' := if xo.XrslRaised? then v else Bound(xo.xrsl);
        match v'
        case Unbound => (c.(failure := Some(UnboundXrsl)), v')
        case Bound(None) => (c, v')
        case Bound(Some(x)) => (Insert(c, job, site, x, logFile, refused), v')
  }

  /** The loop as written, with `xrsl` carried from turn to turn. */
  function CreatedAsWritten(c: PCycle, v: XrslVar, pending: seq<PandaJob>, sites: map<string, SiteEntry>, parse: Parser,
                            refused: set<int>): PCycle
    decreases |pending|
  {
    if pending == [] || c.failure.Some? then c
    else
      var s := SubmitAsWritten(c, v, pending[0], sites, parse, refused);
      CreatedAsWritten(s.0, s.1, pending[1..], sites, parse, refused)
  }

  /** `createArcJobs` as written on given tables: `xrsl` starts unassigned. */
  function CreatedAllAsWritten(jobs: seq<PandaJob>, rows: seq<ArcRow>, nextArc: nat, sites: map<string, SiteEntry>,
                               parse: Parser, refused: set<int>): PCycle {
    CreatedAsWritten(PCycle(jobs, rows, nextArc, None), Unbound, Pending(jobs), sites, parse, refused)
  }

  lemma {:induction false} CreatedAsWrittenStep(c: PCycle, v: XrslVar, pending: seq<PandaJob>, k: nat, sites: map<string, SiteEntry>,
                                                parse: Parser, refused: set<int>)
    requires k < |pending| && c.failure.None?
    ensures var s := SubmitAsWritten(c, v, pending[k], sites, parse, refused);
      CreatedAsWritten(c, v, pending[k..], sites, parse, refused) == CreatedAsWritten(s.0, s.1, pending[k + 1..], sites, parse, refused)
  {
    assert pending[k..][0] == pending[k] && pending[k..][1..] == pending[k + 1..];
  }

  /** `getXrsl` does not raise for the job, once its site and parse are
      found. */
  predicate XrslReturns(job: PandaJob, sites: map<string, SiteEntry>, parse: Parser) {
    SiteFor(sites, job).Ok? && parse(job, SiteFor(sites, job).value).Parsed? ==>
      parse(job, SiteFor(sites, job).value).xrsl.XrslValue?
  }

  /** When `getXrsl` never raises for the jobs taken, the loop as written is
      the loop that skips such jobs, whatever `xrsl` held before. */
  lemma {:induction false} CreatedAsWrittenAgrees(c: PCycle, v: XrslVar, pending: seq<PandaJob>, sites: map<string, SiteEntry>,
                                                  parse: Parser, refused: set<int>)
    requires forall i :: 0 <= i < |pending| ==> XrslReturns(pending[i], sites, parse)
    ensures CreatedAsWritten(c, v, pending, sites, parse, refused) == Created(c, pending, sites, parse, refused)
    decreases |pending|
  {
    if pending != [] && c.failure.None? {
      var s := SubmitAsWritten(c, v, pending[0], sites, parse, refused);
      assert s.0 == Submit(c, pending[0], sites, parse, refused);
      assert forall i :: 0 <= i < |pending[1..]| ==> pending[1..][i] == pending[i + 1];
      CreatedAsWrittenAgrees(s.0, s.1, pending[1..], sites, parse, refused);
    }
  }

  /** So `CreatedAllEffects` and `CreatedOwnRows` hold for the cycle as
      written whenever no `getXrsl` of a taken job raises. */
  lemma {:induction false} CreatedAllAgrees(jobs: seq<PandaJob>, rows: seq<ArcRow>, nextArc: nat, sites: map<string, SiteEntry>,
                                            parse: Parser, refused: set<int>)
    requires forall j :: j in Pending(jobs) ==> XrslReturns(j, sites, parse)
    ensures CreatedAllAsWritten(jobs, rows, nextArc, sites, parse, refused) == CreatedAll(jobs, rows, nextArc, sites, parse, refused)
  {
    var pending := Pending(jobs);
    assert forall i :: 0 <= i < |pending| ==> pending[i] in pending;
    CreatedAsWrittenAgrees(PCycle(jobs, rows, nextArc, None), Unbound, pending, sites, parse, refused);
  }

  /** An insertion hands the job to ARC only with the row inserted for it. */
  lemma {:induction false} InsertEffects(c: PCycle, job: PandaJob, site: Site, x: string, logFile: Option<string>, refused: set<int>)
    ensures Extends(c, Insert(c, job, site, x, logFile, refused)) && Linked(c, Insert(c, job, site, x, logFile, refused))
  {
    var r := Insert(c, job, site, x, logFile, refused);
    assert r.rows[..|c.rows|] == c.rows;
    DownloadStartsWithErrors(site.truepilot, logFile);
    if r.jobs != c.jobs {
      assert r.rows[|c.rows|].id == c.nextArc;
      forall i | 0 <= i < |c.jobs| && i < |r.jobs| && r.jobs[i] != c.jobs[i]
        ensures r.jobs[i].arcjobid == Some(c.nextArc) && r.jobs[i].pandaid == job.pandaid
      {
      }
    }
  }

  lemma {:induction false} SubmitAsWrittenEffects(c: PCycle, v: XrslVar, job: PandaJob, sites: map<string, SiteEntry>, parse: Parser,
                                                  refused: set<int>)
    ensures var r := SubmitAsWritten(c, v, job, sites, parse, refused).0;
      Extends(c, r) && Linked(c, r)
  {
    assert c.rows[..|c.rows|] == c.rows;
    if SiteFor(sites, job).Ok? {
      var site := SiteFor(sites, job).value;
      var p := parse(job, site);
      if p.Parsed? {
        var v' := if p.xrsl.XrslRaised? then v else Bound(p.xrsl.xrsl);
        if v'.Bound? && v'.value.Some? {
          InsertEffects(c, job, site, v'.value.value, p.logFile, refused);
        }
      }
    }
  }

  /** Even as written, however the cycle ends, jobs are only handed to ARC,
      each with a row inserted for a job of the same id, and the ARC job
      table only grows by well-formed rows with consecutive ids. */
  lemma {:induction false} CreatedAsWrittenEffects(c: PCycle, v: XrslVar, pending: seq<PandaJob>, sites: map<string, SiteEntry>,
                                                   parse: Parser, refused: set<int>)
    ensures var r := CreatedAsWritten(c, v, pending, sites, parse, refused);
      Extends(c, r) && Linked(c, r)
    decreases |pending|
  {
    if pending != [] && c.failure.None? {
      var s := SubmitAsWritten(c, v, pending[0], sites, parse, refused);
      var r := CreatedAsWritten(s.0, s.1, pending[1..], sites, parse, refused);
      SubmitAsWrittenEffects(c, v, pending[0], sites, parse, refused);
      CreatedAsWrittenEffects(s.0, s.1, pending[1..], sites, parse, refused);
      ExtendsTrans(c, s.0, r);
      LinkedTrans(c, s.0, r);
    } else {
      assert c.rows[..|c.rows|] == c.rows;
    }
  }

  /** As written, a job whose `getXrsl` raises is inserted with the
      description built for the job before it. */
  lemma {:induction false} StaleDescription(c: PCycle, x: string, job: PandaJob, sites: map<string, SiteEntry>, parse: Parser,
                                            refused: set<int>)
    requires c.failure.None? && SiteFor(sites, job).Ok?
    requires parse(job, SiteFor(sites, job).value).Parsed? && parse(job, SiteFor(sites, job).value).xrsl == XrslRaised
    requires ClusterList(SiteFor(sites, job).value.endpoints).Ok? && job.pandaid !in refused
    ensures var r := SubmitAsWritten(c, Bound(Some(x)), job, sites, parse, refused).0;
      |r.rows| == |c.rows| + 1 && r.rows[|c.rows|].description == x
      && r.rows[|c.rows|].appjobid == IntToString(job.pandaid)
  {
  }

  /** A concrete case: the first job gets description `&(a)`, the parser
      raises in `getXrsl` for the second, and the second is inserted with
      `&(a)` as well. */
  lemma {:induction false} StaleDescriptionExample()
    ensures var site := Site([], "cfg", 1, "cat", 0);
      var sites := map["S" := Full(site)];
      var j1 := PandaJob(1, "S", 0, "job1", None, "sent", "sent");
      var j2 := PandaJob(2, "S", 0, "job2", None, "sent", "sent");
      var parse: Parser := (j: PandaJob, s: Site) => if j.pandaid == 1 then Parsed(XrslValue(Some("&(a)")), None) else Parsed(XrslRaised, None);
      var s1 := SubmitAsWritten(PCycle([j1, j2], [], 0, None), Unbound, j1, sites, parse, {});
      var s2 := SubmitAsWritten(s1.0, s1.1, j2, sites, parse, {});
      |s2.0.rows| == 2 && s2.0.rows[1].appjobid == IntToString(2) && s2.0.rows[1].description == "&(a)"
  {
    var site := Site([], "cfg", 1, "cat", 0);
    var sites := map["S" := Full(site)];
    var j1 := PandaJob(1, "S", 0, "job1", None, "sent", "sent");
    var j2 := PandaJob(2, "S", 0, "job2", None, "sent", "sent");
    var parse: Parser := (j: PandaJob, s: Site) => if j.pandaid == 1 then Parsed(XrslValue(Some("&(a)")), None) else Parsed(XrslRaised, None);
    assert ClusterList([]) == Ok("");
    var s1 := SubmitAsWritten(PCycle([j1, j2], [], 0, None), Unbound, j1, sites, parse, {});
    assert s1.1 == Bound(Some("&(a)")) && |s1.0.rows| == 1 && s1.0.failure.None?;
    StaleDescription(s1.0, "&(a)", j2, sites, parse, {});
  }

  // ---------------------------------------------------------------------
  // The ATLAS submitter

  /** The submitter process and its site table, which persists from cycle
      to cycle. */
  class Panda2Arc {
    var sites: map<string, SiteEntry>

    /** `__init__`: the table starts empty and is filled by `setSites`. An
        object exists only when that ends normally, since a raise there
        aborts the construction. */
    constructor(conf: SiteConfig, globalCatalog: string)
      requires SetAll(map[], conf.names, conf, globalCatalog).failure.None?
      ensures sites == SetAll(map[], conf.names, conf, globalCatalog).sites
    {
      sites := map[];
      new;
      var failure := SetSites(conf, globalCatalog);
    }

    /** `setSites`: each configured site's entry is replaced in turn; a
        missing scheduler configuration raises and leaves that entry with
        only its endpoints. */
    method SetSites(conf: SiteConfig, globalCatalog: string) returns (failure: Option<Failure>)
      modifies this
      ensures SitesUpdate(sites, failure) == SetAll(old(sites), conf.names, conf, globalCatalog)
    {
      var names := conf.names;
      var i := 0;
      while i < |names|
        invariant 0 <= i <= |names|
        invariant SetAll(old(sites), names[..i], conf, globalCatalog) == SitesUpdate(sites, None)
      {
        SetAllNext(old(sites), names, i, conf, globalCatalog);
        failure := SetSite(names[i], conf, globalCatalog);
        if failure.Some? {
          SetAllSticks(old(sites), names, i + 1, conf, globalCatalog);
          return;
        }
        i := i + 1;
      }
      assert names[..i] == names;
      failure := None;
    }

    /** The body of the loop of `setSites` for one name. */
    method SetSite(name: string, conf: SiteConfig, globalCatalog: string) returns (failure: Option<Failure>)
      modifies this
      ensures SitesUpdate(sites, failure) == SetOne(old(sites), name, conf, globalCatalog)
    {
      var l := ListsOf(conf, name);
      sites := sites[name := EndpointsOnly(l.endpoints)];
      if l.schedconfig == [] {
        return Some(NoSchedconfig(name));
      }
      var corecount := FirstInt(l.corecount, 1);
      var catalog := if l.catalog != [] then l.catalog[0] else globalCatalog;
      var truepilot := FirstInt(l.truepilot, 0);
      sites := sites[name := Full(Site(l.endpoints, l.schedconfig[0], corecount, catalog, truepilot))];
      failure := None;
    }

    /** One job of the loop body as the code does it: `v` is the value of
        `xrsl` before the turn and `xrsl` the value after it. */
    method SubmitJob(store: PandaStore, arc: ArcStore, job: PandaJob, v: XrslVar, parse: Parser, refused: set<int>)
      returns (failure: Option<Failure>, xrsl: XrslVar)
      modifies store, arc
      ensures (PCycle(store.jobs, arc.rows, arc.nextId, failure), xrsl)
           == SubmitAsWritten(PCycle(old(store.jobs), old(arc.rows), old(arc.nextId), None), v, job, sites, parse, refused)
    {
      xrsl := v;
      if job.siteName !in sites {
        return Some(UnknownSite(job.siteName)), xrsl;
      }
      if sites[job.siteName].EndpointsOnly? {
        return Some(MissingKey(SchedconfigKey)), xrsl;
      }
      var site := sites[job.siteName].site;
      var parsed := parse(job, site);
      if parsed.ParseFailed? {
        return Some(ParserRaised), xrsl;
      }
      if parsed.xrsl.XrslValue? {
        xrsl := Bound(parsed.xrsl.xrsl);
      }
      if xrsl.Unbound? {
        return Some(UnboundXrsl), xrsl;
      }
      if xrsl.value.None? {
        return None, xrsl;
      }
      var cls := BuildClusterList(site.endpoints);
      if cls.Err? {
        return Some(cls.error), xrsl;
      }
      var maxattempts := MaxAttempts(job.siteName);
      var downloadfiles := DownloadFiles(site.truepilot, parsed.logFile);
      var aid := arc.Insert(xrsl.value.value, job.proxyid, cls.value, downloadfiles, IntToString(job.pandaid), None, Some(maxattempts),
                            job.pandaid !in refused);
      if aid.None? {
        return None, xrsl;
      }
      store.Assign(job.pandaid, aid.value);
      failure := None;
    }

    /** `createArcJobs`: the tables end as `CreatedAllAsWritten` says, and
        the cause is returned when a job raised. */
    method CreateArcJobs(store: PandaStore, arc: ArcStore, parse: Parser, refused: set<int>)
      returns (failure: Option<Failure>)
      modifies store, arc
      ensures PCycle(store.jobs, arc.rows, arc.nextId, failure)
           == CreatedAllAsWritten(old(store.jobs), old(arc.rows), old(arc.nextId), sites, parse, refused)
    {
      var pending := Pending(store.jobs);
      ghost var goal := CreatedAllAsWritten(store.jobs, arc.rows, arc.nextId, sites, parse, refused);
      var xrsl := Unbound;
      var k := 0;
      while k < |pending|
        invariant 0 <= k <= |pending|
        invariant CreatedAsWritten(PCycle(store.jobs, arc.rows, arc.nextId, None), xrsl, pending[k..], sites, parse, refused) == goal
      {
        CreatedAsWrittenStep(PCycle(store.jobs, arc.rows, arc.nextId, None), xrsl, pending, k, sites, parse, refused);
        failure, xrsl := SubmitJob(store, arc, pending[k], xrsl, parse, refused);
        if failure.Some? {
          return;
        }
        k := k + 1;
      }
      failure := None;
    }

    /** `process`: the site table is refreshed, and the jobs are submitted
        when that ends normally. */
    method Process(conf: SiteConfig, globalCatalog: string, store: PandaStore, arc: ArcStore, parse: Parser, refused: set<int>)
      returns (failure: Option<Failure>)
      modifies this, store, arc
      ensures var u := SetAll(old(sites), conf.names, conf, globalCatalog);
        && sites == u.sites
        && (u.failure.Some? ==> failure == u.failure && store.jobs == old(store.jobs) && arc.rows == old(arc.rows)
                                && arc.nextId == old(arc.nextId))
        && (u.failure.None? ==> PCycle(store.jobs, arc.rows, arc.nextId, failure)
                                == CreatedAllAsWritten(old(store.jobs), old(arc.rows), old(arc.nextId), sites, parse, refused))
    {
      failure := SetSites(conf, globalCatalog);
      if failure.Some? {
        return;
      }
      failure := CreateArcJobs(store, arc, parse, refused);
    }
  }
}
