/** The LDMX request reader (`getNewJobs`): each request file left in the
    buffer directory long enough is read, expanded into job variants whose
    description and template files are written to the scratch directory,
    and, when every variant was written, recorded as new jobs; the request
    file is then removed. */
module Ingestion {
  import opened Basics
  import opened Strings
  import opened Dicts
  import opened RequestFormat
  import opened Templates
  import opened Expansion
  import opened Stores

  const TemplateKey := "JobTemplate"
  const OutputRseKey := "FinalOutputDestination"
  /** Seconds a request file must have been left alone before it is read. */
  const SettleTime: real := 5.0

  // ---------------------------------------------------------------------
  // The output base

  /** A storage protocol as the replica catalogue describes it. */
  datatype Protocol = Protocol(scheme: string, hostname: string, port: int, prefix: string)

  /** `'{scheme}://{hostname}:{port}{prefix}'` */
  function ProtocolUrl(p: Protocol): (u: string)
    ensures |u| > 0
  {
    p.scheme + "://" + p.hostname + ":" + IntToString(p.port) + p.prefix
  }

  /** The output storage element a request names, when the name is not
      empty. */
  function OutputRse(cfg: Dict): Option<string> {
    match Get(cfg, OutputRseKey)
    case Some(v) => if Truthy(v) then Some(Text(v)) else None
    case None => None
  }

  /** `getOutputBase`: nothing when the request names no output storage;
      otherwise the URL of its first protocol, and an error when the
      catalogue lists none. */
  function OutputBase(cfg: Dict, protocols: map<string, seq<Protocol>>): (r: Result<Option<string>>)
    ensures OutputRse(cfg).None? ==> r == Ok(None)
    ensures OutputRse(cfg).Some? ==> var rse := OutputRse(cfg).value;
      && (r.Err? <==> rse !in protocols || protocols[rse] == [])
      && (r.Ok? ==> r.value == Some(ProtocolUrl(protocols[rse][0])))
  {
    match OutputRse(cfg)
    case None => Ok(None)
    case Some(rse) =>
      if rse !in protocols || protocols[rse] == [] then Err(NoOutputProtocol(rse))
      else Ok(Some(ProtocolUrl(protocols[rse][0])))
  }

  /** A request naming an output storage element always gets the base path
      line in its descriptions, as the base is never empty. */
  lemma {:induction false} OutputBaseLine(cfg: Dict, protocols: map<string, seq<Protocol>>, noUpload: seq<string>)
    requires OutputBase(cfg, protocols).Ok?
    ensures var ob := OutputBase(cfg, protocols).value;
      OutputRse(cfg).Some? <==> (|ExtraEntries(ob, noUpload)| >= 1 && ExtraEntries(ob, noUpload)[0].0 == OutputBaseKey)
  {
    var ob := OutputBase(cfg, protocols).value;
    if OutputRse(cfg).None? && noUpload != [] {
      assert ExtraEntries(ob, noUpload)[0].0 == NoUploadKey;
      assert NoUploadKey[0] == 'N' && OutputBaseKey[0] == 'F';
    }
  }

  // ---------------------------------------------------------------------
  // One request

  /** A file of the buffer directory: its path, its text and the time it
      was last modified, in seconds with their fraction, as the clock gives
      it. */
  datatype RequestFile = RequestFile(path: string, text: string, mtime: real)

  /** What the reader sees of the outside world: the clock and the batch
      timestamp, the template files by name, the storage protocols, the
      local storage elements, the replica catalogue, the draws of each
      request's shuffle, the sites that take no uploads and the scratch
      directory. */
  datatype Env = Env(now: real, timestamp: string, templates: map<string, string>,
                     protocols: map<string, seq<Protocol>>, rses: map<string, string>,
                     catalogue: Catalogue, draws: string -> seq<nat>, noUpload: seq<string>, tmpdir: string,
                     suffix: nat -> string)

  /** A file modified less than five seconds ago may still be being written. */
  predicate Settled(req: RequestFile, now: real) {
    now - req.mtime >= SettleTime
  }

  /** How far a request gets before anything is written: no readable
      template; an error from the output base or the expansion; or its
      batch, template and variants. */
  datatype Plan =
    | Unreadable
    | Broken(f: Failure)
    | Planned(batch: string, templateName: string, template: seq<string>, outputBase: Option<string>, variants: seq<Dict>)

  function PlanOf(req: RequestFile, env: Env): Plan {
    var cfg := ParseRequest(Lines(req.text));
    var batch := BatchId(cfg, env.timestamp);
    match Lookup(cfg, TemplateKey)
    case Err(_) => Unreadable
    case Ok(v) =>
      if Text(v) !in env.templates then Unreadable
      else
        match OutputBase(cfg, env.protocols)
        case Err(f) => Broken(f)
        case Ok(ob) =>
          match Expand(cfg, env.rses, env.catalogue, env.draws(req.path))
          case Err(f) => Broken(f)
          case Ok(vs) => Planned(batch, Text(v), Lines(env.templates[Text(v)]), ob, vs)
  }

  /** A request is planned exactly when it names a known template and its
      output base and expansion succeed; the plan carries the request's
      batch id and its variants. */
  lemma {:induction false} PlanOfCases(req: RequestFile, env: Env)
    ensures var cfg := ParseRequest(Lines(req.text));
      && (PlanOf(req, env).Unreadable? <==>
            !Has(cfg, TemplateKey) || Text(cfg.vals[TemplateKey]) !in env.templates)
      && (PlanOf(req, env).Planned? ==>
            && PlanOf(req, env).batch == BatchId(cfg, env.timestamp)
            && OutputBase(cfg, env.protocols) == Ok(PlanOf(req, env).outputBase)
            && Expand(cfg, env.rses, env.catalogue, env.draws(req.path)) == Ok(PlanOf(req, env).variants))
  {
  }

  /** What writing the variants of a request produces: the description and
      template texts of each variant written in full, and, when a template
      fails to render, the description and the part of the template already
      written for that variant, and the failure. */
  datatype Outputs = Outputs(pairs: seq<(string, string)>, failed: Option<(string, string, Failure)>)

  /** How a variant's description is written: its entries, then the
      output settings. */
  function Serializer(ob: Option<string>, noUpload: seq<string>): Dict -> string {
    v => Serialize(v, ob, noUpload)
  }

  /** How a variant's job template is written: the template with the
      variant's values substituted, up to a line that raises. */
  function Renderer(template: seq<string>): Dict -> Rendering {
    v => Rendered(template, v)
  }

  function Written(vs: seq<Dict>, serialise: Dict -> string, render: Dict -> Rendering): (o: Outputs)
    ensures o.failed.None? ==> |o.pairs| == |vs|
    ensures |o.pairs| <= |vs|
  {
    if vs == [] then Outputs([], None)
    else
      var prev := Written(vs[..|vs| - 1], serialise, render);
      if prev.failed.Some? then prev
      else
        var v := vs[|vs| - 1];
        var d := serialise(v);
        var t := render(v);
        if t.failure.Some? then Outputs(prev.pairs, Some((d, Concat(t.lines), t.failure.value)))
        else Outputs(prev.pairs + [(d, Concat(t.lines))], None)
  }

  lemma {:induction false} WrittenFailsFrom(vs: seq<Dict>, serialise: Dict -> string, render: Dict -> Rendering, j: nat)
    requires j <= |vs| && Written(vs[..j], serialise, render).failed.Some?
    ensures Written(vs, serialise, render) == Written(vs[..j], serialise, render)
    decreases |vs| - j
  {
    if j < |vs| {
      assert vs[..j + 1][..j] == vs[..j];
      WrittenFailsFrom(vs, serialise, render, j + 1);
    } else {
      assert vs[..j] == vs;
    }
  }

  /** The variants are all written exactly when each renders its template;
      variant i is then written as its serialised description and its
      rendered template. */
  lemma {:induction false} WrittenEach(vs: seq<Dict>, serialise: Dict -> string, render: Dict -> Rendering)
    ensures Written(vs, serialise, render).failed.None? <==> forall i :: 0 <= i < |vs| ==> render(vs[i]).failure.None?
    ensures Written(vs, serialise, render).failed.None? ==>
      forall i :: 0 <= i < |vs| ==>
        Written(vs, serialise, render).pairs[i] == (serialise(vs[i]), Concat(render(vs[i]).lines))
  {
    if vs != [] {
      var init := vs[..|vs| - 1];
      WrittenEach(init, serialise, render);
      var prev := Written(init, serialise, render);
      if prev.failed.Some? {
        var i :| 0 <= i < |init| && render(init[i]).failure.Some?;
        assert vs[i] == init[i];
      } else {
        forall i | 0 <= i < |init| ensures vs[i] == init[i] { }
      }
    }
  }

  /** How the files written from one prefix are named: the name of the
      file that is the n-th one in the scratch directory. */
  type Namer = nat -> string

  /** `tempfile.NamedTemporaryFile(prefix=f'{prefix}.')`: the prefix, a dot
      and the random characters the environment picks for the n-th file. */
  function TmpNamer(prefix: string, env: Env): Namer {
    (n: nat) => prefix + "." + env.suffix(n)
  }

  /** The scratch file names: the request's and the template's file names
      inside the scratch directory. */
  function DescPrefix(req: RequestFile, env: Env): Namer {
    TmpNamer(env.tmpdir + "/" + LastSegment(req.path, '/'), env)
  }

  function TemplatePrefix(name: string, env: Env): Namer {
    TmpNamer(env.tmpdir + "/" + LastSegment(name, '/'), env)
  }

  /** The names of the files of n variants written from position start on. */
  function Paths(start: nat, n: nat, dp: Namer, tp: Namer): (ps: seq<(string, string)>)
    ensures |ps| == n
  {
    seq(n, i requires 0 <= i < n => (dp(start + 2 * i), tp(start + 2 * i + 1)))
  }

  /** The scratch directory after the written variants, in writing order:
      each variant's description file, then its template file. */
  function WithPairs(base: seq<(string, string)>, pairs: seq<(string, string)>, dp: Namer, tp: Namer)
    : (fs: seq<(string, string)>)
    ensures |fs| == |base| + 2 * |pairs|
  {
    if pairs == [] then base
    else
      var n := |pairs| - 1;
      WithPairs(base, pairs[..n], dp, tp)
      + [(dp(|base| + 2 * n), pairs[n].0), (tp(|base| + 2 * n + 1), pairs[n].1)]
  }

  /** The files already there stay where they were. */
  lemma {:induction false} WithPairsKeeps(base: seq<(string, string)>, pairs: seq<(string, string)>, dp: Namer, tp: Namer)
    ensures WithPairs(base, pairs, dp, tp)[..|base|] == base
  {
    if pairs != [] {
      var n := |pairs| - 1;
      WithPairsKeeps(base, pairs[..n], dp, tp);
      var prev := WithPairs(base, pairs[..n], dp, tp);
      assert (prev + [(dp(|base| + 2 * n), pairs[n].0), (tp(|base| + 2 * n + 1), pairs[n].1)])[..|base|]
          == prev[..|base|];
    }
  }

  /** The files of variant i are where its paths say, with its texts. */
  lemma {:induction false} WithPairsAt(base: seq<(string, string)>, pairs: seq<(string, string)>, dp: Namer, tp: Namer, i: nat)
    requires i < |pairs|
    ensures WithPairs(base, pairs, dp, tp)[|base| + 2 * i] == (Paths(|base|, |pairs|, dp, tp)[i].0, pairs[i].0)
    ensures WithPairs(base, pairs, dp, tp)[|base| + 2 * i + 1] == (Paths(|base|, |pairs|, dp, tp)[i].1, pairs[i].1)
  {
    var n := |pairs| - 1;
    var prev := WithPairs(base, pairs[..n], dp, tp);
    var last := [(dp(|base| + 2 * n), pairs[n].0), (tp(|base| + 2 * n + 1), pairs[n].1)];
    assert WithPairs(base, pairs, dp, tp) == prev + last;
    assert |prev| == |base| + 2 * n;
    if i < n {
      WithPairsAt(base, pairs[..n], dp, tp, i);
      assert pairs[..n][i] == pairs[i];
      assert Paths(|base|, n, dp, tp)[i] == Paths(|base|, |pairs|, dp, tp)[i];
      assert (prev + last)[|base| + 2 * i] == prev[|base| + 2 * i];
      assert (prev + last)[|base| + 2 * i + 1] == prev[|base| + 2 * i + 1];
    } else {
      assert Paths(|base|, |pairs|, dp, tp)[i] == (dp(|base| + 2 * n), tp(|base| + 2 * n + 1));
      assert (prev + last)[|base| + 2 * i] == last[0];
      assert (prev + last)[|base| + 2 * i + 1] == last[1];
    }
  }

  /** The scratch directory after everything a request writes. */
  function Produced(base: seq<(string, string)>, o: Outputs, dp: Namer, tp: Namer): seq<(string, string)> {
    var fs := WithPairs(base, o.pairs, dp, tp);
    if o.failed.Some? then fs + [(dp(|fs|), o.failed.value.0), (tp(|fs| + 1), o.failed.value.1)] else fs
  }

  /** The job rows inserted for the written variants, with consecutive ids. */
  function Rows(nextId: nat, paths: seq<(string, string)>, proxyid: int, batch: string): (rs: seq<LdmxJob>)
    ensures |rs| == |paths|
  {
    seq(|paths|, i requires 0 <= i < |paths| => NewJob(nextId + i, paths[i].0, paths[i].1, proxyid, batch))
  }

  /** The scratch directory, the job table and its next id. */
  datatype World = World(scratch: seq<(string, string)>, jobs: seq<LdmxJob>, nextId: nat)

  /** The scratch directory and job table after writing a request's
      variants: the files written stay, and the rows are inserted only when
      nothing failed. */
  function Record(w: World, o: Outputs, n: nat, dp: Namer, tp: Namer, proxyid: int, batch: string): World {
    var start := |w.scratch|;
    var scratch := Produced(w.scratch, o, dp, tp);
    if o.failed.Some? then w.(scratch := scratch)
    else World(scratch, w.jobs + Rows(w.nextId, Paths(start, n, dp, tp), proxyid, batch), w.nextId + n)
  }

  /** What carrying out a plan writes and records: nothing for a request
      that stops before writing. */
  function Applied(w: World, plan: Plan, req: RequestFile, env: Env, proxyid: int): World {
    match plan
    case Unreadable => w
    case Broken(_) => w
    case Planned(batch, name, template, ob, vs) =>
      Record(w, Written(vs, Serializer(ob, env.noUpload), Renderer(template)), |vs|, DescPrefix(req, env), TemplatePrefix(name, env), proxyid, batch)
  }

  /** One settled request. */
  function IngestOne(w: World, req: RequestFile, env: Env, proxyid: int): World {
    Applied(w, PlanOf(req, env), req, env, proxyid)
  }

  lemma {:induction false} RowsAt(nextId: nat, paths: seq<(string, string)>, proxyid: int, batch: string, i: nat)
    requires i < |paths|
    ensures Rows(nextId, paths, proxyid, batch)[i].description == paths[i].0
    ensures Rows(nextId, paths, proxyid, batch)[i].template == paths[i].1
    ensures Rows(nextId, paths, proxyid, batch)[i] == NewJob(nextId + i, paths[i].0, paths[i].1, proxyid, batch)
  {
  }

  /** The i-th job added in going from w to r is a new job of the proxy
      and batch with the next id in turn, and the i-th description and
      template files written hold the given texts under that job's paths. */
  ghost predicate RowPoints(w: World, r: World, i: nat, texts: (string, string), proxyid: int, batch: string) {
    && |w.jobs| + i < |r.jobs| && |w.scratch| + 2 * i + 1 < |r.scratch|
    && var job := r.jobs[|w.jobs| + i];
       && job == NewJob(w.nextId + i, job.description, job.template, proxyid, batch)
       && r.scratch[|w.scratch| + 2 * i] == (job.description, texts.0)
       && r.scratch[|w.scratch| + 2 * i + 1] == (job.template, texts.1)
  }

  /** The row of variant i points at the files of variant i. */
  lemma {:induction false} RowPointsAt(w: World, pairs: seq<(string, string)>, dp: Namer, tp: Namer, proxyid: int, batch: string, i: nat)
    requires i < |pairs|
    ensures RowPoints(w, World(WithPairs(w.scratch, pairs, dp, tp),
                               w.jobs + Rows(w.nextId, Paths(|w.scratch|, |pairs|, dp, tp), proxyid, batch),
                               w.nextId + |pairs|),
                      i, pairs[i], proxyid, batch)
  {
    var paths := Paths(|w.scratch|, |pairs|, dp, tp);
    var rows := Rows(w.nextId, paths, proxyid, batch);
    var fs := WithPairs(w.scratch, pairs, dp, tp);
    WithPairsAt(w.scratch, pairs, dp, tp, i);
    RowsAt(w.nextId, paths, proxyid, batch, i);
    var job := (w.jobs + rows)[|w.jobs| + i];
    assert job == rows[i] == NewJob(w.nextId + i, paths[i].0, paths[i].1, proxyid, batch);
    assert fs[|w.scratch| + 2 * i] == (job.description, pairs[i].0);
    assert fs[|w.scratch| + 2 * i + 1] == (job.template, pairs[i].1);
  }

  /** Written rows point at the files of their variant. */
  lemma {:induction false} RecordRows(w: World, o: Outputs, n: nat, dp: Namer, tp: Namer, proxyid: int, batch: string)
    requires o.failed.None? && |o.pairs| == n
    ensures |Record(w, o, n, dp, tp, proxyid, batch).jobs| == |w.jobs| + n
    ensures forall i :: 0 <= i < n ==> RowPoints(w, Record(w, o, n, dp, tp, proxyid, batch), i, o.pairs[i], proxyid, batch)
  {
    assert Record(w, o, n, dp, tp, proxyid, batch)
        == World(WithPairs(w.scratch, o.pairs, dp, tp),
                 w.jobs + Rows(w.nextId, Paths(|w.scratch|, n, dp, tp), proxyid, batch), w.nextId + n);
    forall i | 0 <= i < n
      ensures RowPoints(w, Record(w, o, n, dp, tp, proxyid, batch), i, o.pairs[i], proxyid, batch)
    {
      RowPointsAt(w, o.pairs, dp, tp, proxyid, batch, i);
    }
  }

  /** Recording keeps what the scratch directory and the job table held and
      adds new jobs with the proxy and consecutive ids. */
  lemma {:induction false} RecordGrows(w: World, o: Outputs, n: nat, dp: Namer, tp: Namer, proxyid: int, batch: string)
    ensures var r := Record(w, o, n, dp, tp, proxyid, batch);
      && |w.scratch| <= |r.scratch| && r.scratch[..|w.scratch|] == w.scratch
      && |w.jobs| <= |r.jobs| && r.jobs[..|w.jobs|] == w.jobs
      && r.nextId == w.nextId + (|r.jobs| - |w.jobs|)
      && (o.failed.Some? ==> r.jobs == w.jobs)
      && forall i :: |w.jobs| <= i < |r.jobs| ==>
           r.jobs[i].id == w.nextId + (i - |w.jobs|) && r.jobs[i].status == "new" && r.jobs[i].proxyid == proxyid
  {
    var r := Record(w, o, n, dp, tp, proxyid, batch);
    var fs := WithPairs(w.scratch, o.pairs, dp, tp);
    WithPairsKeeps(w.scratch, o.pairs, dp, tp);
    if o.failed.Some? {
      assert r.scratch[..|w.scratch|] == fs[..|w.scratch|];
    }
    assert r.jobs[..|w.jobs|] == w.jobs;
  }

  /** Writing variants adds no job unless every variant renders; then it
      adds one new job per variant, in variant order, whose files hold the
      variant's description and rendered template. */
  lemma {:induction false} RecordWritten(w: World, vs: seq<Dict>, serialise: Dict -> string, render: Dict -> Rendering,
                      dp: Namer, tp: Namer, proxyid: int, batch: string)
    ensures var r := Record(w, Written(vs, serialise, render), |vs|, dp, tp, proxyid, batch);
      && |w.scratch| <= |r.scratch| && r.scratch[..|w.scratch|] == w.scratch
      && (!(forall i :: 0 <= i < |vs| ==> render(vs[i]).failure.None?) ==> r.jobs == w.jobs && r.nextId == w.nextId)
      && ((forall i :: 0 <= i < |vs| ==> render(vs[i]).failure.None?) ==>
            && |r.jobs| == |w.jobs| + |vs| && r.nextId == w.nextId + |vs|
            && forall i :: 0 <= i < |vs| ==> RowPoints(w, r, i, (serialise(vs[i]), Concat(render(vs[i]).lines)), proxyid, batch))
  {
    var o := Written(vs, serialise, render);
    WrittenEach(vs, serialise, render);
    RecordGrows(w, o, |vs|, dp, tp, proxyid, batch);
    if o.failed.None? {
      RecordRows(w, o, |vs|, dp, tp, proxyid, batch);
    }
  }

  /** A request adds no job unless all its variants were generated and
      rendered; then it adds one new job per variant, in variant order, whose
      description and template files hold the variant's description and
      rendered template. */
  lemma {:induction false} IngestOneRows(w: World, req: RequestFile, env: Env, proxyid: int)
    ensures var r := IngestOne(w, req, env, proxyid);
      var p := PlanOf(req, env);
      && |w.scratch| <= |r.scratch| && r.scratch[..|w.scratch|] == w.scratch
      && (!(p.Planned? && forall i :: 0 <= i < |p.variants| ==> Render(p.template, p.variants[i]).Ok?) ==>
            r.jobs == w.jobs && r.nextId == w.nextId)
      && (p.Planned? && (forall i :: 0 <= i < |p.variants| ==> Render(p.template, p.variants[i]).Ok?) ==>
            && |r.jobs| == |w.jobs| + |p.variants| && r.nextId == w.nextId + |p.variants|
            && forall i :: 0 <= i < |p.variants| ==>
                 RowPoints(w, r, i, (Serialize(p.variants[i], p.outputBase, env.noUpload),
                                     Concat(Render(p.template, p.variants[i]).value)), proxyid, p.batch))
  {
    AppliedRows(w, PlanOf(req, env), req, env, proxyid);
  }

  /** The same for any plan carried out. */
  lemma {:induction false} AppliedRows(w: World, p: Plan, req: RequestFile, env: Env, proxyid: int)
    ensures var r := Applied(w, p, req, env, proxyid);
      && |w.scratch| <= |r.scratch| && r.scratch[..|w.scratch|] == w.scratch
      && (!(p.Planned? && forall i :: 0 <= i < |p.variants| ==> Render(p.template, p.variants[i]).Ok?) ==>
            r.jobs == w.jobs && r.nextId == w.nextId)
      && (p.Planned? && (forall i :: 0 <= i < |p.variants| ==> Render(p.template, p.variants[i]).Ok?) ==>
            && |r.jobs| == |w.jobs| + |p.variants| && r.nextId == w.nextId + |p.variants|
            && forall i :: 0 <= i < |p.variants| ==>
                 RowPoints(w, r, i, (Serialize(p.variants[i], p.outputBase, env.noUpload),
                                     Concat(Render(p.template, p.variants[i]).value)), proxyid, p.batch))
  {
    if p.Planned? {
      var serialise := Serializer(p.outputBase, env.noUpload);
      var render := Renderer(p.template);
      RecordWritten(w, p.variants, serialise, render, DescPrefix(req, env), TemplatePrefix(p.templateName, env), proxyid, p.batch);
      forall i | 0 <= i < |p.variants|
        ensures render(p.variants[i]).failure.None? <==> Render(p.template, p.variants[i]).Ok?
        ensures Render(p.template, p.variants[i]).Ok? ==> render(p.variants[i]).lines == Render(p.template, p.variants[i]).value
      {
        assert render(p.variants[i]) == Rendered(p.template, p.variants[i]);
        RenderedLines(p.template, p.variants[i]);
      }
    } else {
      assert w.scratch[..|w.scratch|] == w.scratch;
    }
  }

  // ---------------------------------------------------------------------
  // The whole buffer

  /** A file of the listing: a settled request is ingested, a new one left
      alone. */
  function Visited(w: World, req: RequestFile, env: Env, proxyid: int): World {
    if Settled(req, env.now) then IngestOne(w, req, env, proxyid) else w
  }

  /** The requests in listing order, given a proxy. */
  function IngestFrom(w: World, reqs: seq<RequestFile>, env: Env, proxyid: int): World
    decreases |reqs|
  {
    if reqs == [] then w
    else IngestFrom(Visited(w, reqs[0], env, proxyid), reqs[1..], env, proxyid)
  }

  lemma {:induction false} IngestFromStep(w: World, reqs: seq<RequestFile>, k: nat, env: Env, proxyid: int)
    requires k < |reqs|
    ensures IngestFrom(w, reqs[k..], env, proxyid)
         == IngestFrom(Visited(w, reqs[k], env, proxyid), reqs[k + 1..], env, proxyid)
  {
    assert reqs[k..][0] == reqs[k] && reqs[k..][1..] == reqs[k + 1..];
  }

  /** The worlds the loop passes through: before each file of the listing,
      and after the last. */
  ghost function Trace(w: World, reqs: seq<RequestFile>, env: Env, proxyid: int): (t: seq<World>)
    ensures |t| == |reqs| + 1 && t[0] == w
    decreases |reqs|
  {
    if reqs == [] then [w] else [w] + Trace(Visited(w, reqs[0], env, proxyid), reqs[1..], env, proxyid)
  }

  /** Each world of the trace is the one before it with one more file visited. */
  lemma {:induction false} TraceStep(w: World, reqs: seq<RequestFile>, env: Env, proxyid: int, k: nat)
    requires k < |reqs|
    ensures Trace(w, reqs, env, proxyid)[k + 1] == Visited(Trace(w, reqs, env, proxyid)[k], reqs[k], env, proxyid)
    decreases k
  {
    var next := Visited(w, reqs[0], env, proxyid);
    var t := Trace(w, reqs, env, proxyid);
    assert t == [w] + Trace(next, reqs[1..], env, proxyid);
    if k > 0 {
      TraceStep(next, reqs[1..], env, proxyid, k - 1);
      assert reqs[1..][k - 1] == reqs[k];
    }
  }

  /** The last world of the trace is what the whole listing gives. */
  lemma {:induction false} TraceEnd(w: World, reqs: seq<RequestFile>, env: Env, proxyid: int)
    ensures Trace(w, reqs, env, proxyid)[|reqs|] == IngestFrom(w, reqs, env, proxyid)
    decreases |reqs|
  {
    if reqs != [] {
      var next := Visited(w, reqs[0], env, proxyid);
      TraceEnd(next, reqs[1..], env, proxyid);
      assert Trace(w, reqs, env, proxyid) == [w] + Trace(next, reqs[1..], env, proxyid);
    }
  }

  /** The reader only adds: the scratch directory and the job table keep
      what they held, and every job added is new, with the proxy, and has
      the next id in turn. */
  lemma {:induction false} IngestFromGrows(w: World, reqs: seq<RequestFile>, env: Env, proxyid: int)
    ensures var r := IngestFrom(w, reqs, env, proxyid);
      && |w.scratch| <= |r.scratch| && r.scratch[..|w.scratch|] == w.scratch
      && |w.jobs| <= |r.jobs| && r.jobs[..|w.jobs|] == w.jobs
      && r.nextId == w.nextId + (|r.jobs| - |w.jobs|)
      && forall i :: |w.jobs| <= i < |r.jobs| ==>
           r.jobs[i].id == w.nextId + (i - |w.jobs|) && r.jobs[i].status == "new" && r.jobs[i].proxyid == proxyid
    decreases |reqs|
  {
    if reqs != [] {
      var next := Visited(w, reqs[0], env, proxyid);
      OneGrows(w, reqs[0], env, proxyid);
      IngestFromGrows(next, reqs[1..], env, proxyid);
      var r := IngestFrom(next, reqs[1..], env, proxyid);
      assert r.scratch[..|w.scratch|] == r.scratch[..|next.scratch|][..|w.scratch|];
      assert r.jobs[..|w.jobs|] == r.jobs[..|next.jobs|][..|w.jobs|];
      forall i | |w.jobs| <= i < |r.jobs|
        ensures r.jobs[i].id == w.nextId + (i - |w.jobs|) && r.jobs[i].status == "new" && r.jobs[i].proxyid == proxyid
      {
        if i < |next.jobs| {
          assert r.jobs[i] == r.jobs[..|next.jobs|][i];
        }
      }
    } else {
      assert w.scratch[..|w.scratch|] == w.scratch && w.jobs[..|w.jobs|] == w.jobs;
    }
  }

  lemma {:induction false} OneGrows(w: World, req: RequestFile, env: Env, proxyid: int)
    ensures var r := Visited(w, req, env, proxyid);
      && |w.scratch| <= |r.scratch| && r.scratch[..|w.scratch|] == w.scratch
      && |w.jobs| <= |r.jobs| && r.jobs[..|w.jobs|] == w.jobs
      && r.nextId == w.nextId + (|r.jobs| - |w.jobs|)
      && forall i :: |w.jobs| <= i < |r.jobs| ==>
           r.jobs[i].id == w.nextId + (i - |w.jobs|) && r.jobs[i].status == "new" && r.jobs[i].proxyid == proxyid
  {
    var p := PlanOf(req, env);
    if Settled(req, env.now) && p.Planned? {
      RecordGrows(w, Written(p.variants, Serializer(p.outputBase, env.noUpload), Renderer(p.template)), |p.variants|,
                  DescPrefix(req, env), TemplatePrefix(p.templateName, env), proxyid, p.batch);
    } else {
      assert w.scratch[..|w.scratch|] == w.scratch && w.jobs[..|w.jobs|] == w.jobs;
    }
  }

  /** The requests left in the buffer: those still too new to read. */
  function Kept(reqs: seq<RequestFile>, now: real): (r: seq<RequestFile>)
    ensures |r| <= |reqs|
  {
    if reqs == [] then []
    else if Settled(reqs[|reqs| - 1], now) then Kept(reqs[..|reqs| - 1], now)
    else Kept(reqs[..|reqs| - 1], now) + [reqs[|reqs| - 1]]
  }

  /** A request file stays exactly when it is too new; all others are
      removed, whatever happened to them. */
  lemma {:induction false} KeptRequests(reqs: seq<RequestFile>, now: real)
    ensures forall q :: q in Kept(reqs, now) <==> q in reqs && !Settled(q, now)
  {
    if reqs != [] {
      var init := reqs[..|reqs| - 1];
      KeptRequests(init, now);
      assert reqs == init + [reqs[|reqs| - 1]];
    }
  }

  /** The buffer without the file at a path. */
  function WithoutPath(files: seq<RequestFile>, path: string): (r: seq<RequestFile>)
    ensures |r| <= |files|
  {
    if files == [] then []
    else if files[0].path == path then WithoutPath(files[1..], path)
    else [files[0]] + WithoutPath(files[1..], path)
  }

  lemma {:induction false} WithoutPathAbsent(files: seq<RequestFile>, path: string)
    requires forall i :: 0 <= i < |files| ==> files[i].path != path
    ensures WithoutPath(files, path) == files
  {
    if files != [] {
      WithoutPathAbsent(files[1..], path);
      assert files == [files[0]] + files[1..];
    }
  }

  lemma {:induction false} WithoutPathAppend(a: seq<RequestFile>, b: seq<RequestFile>, path: string)
    ensures WithoutPath(a + b, path) == WithoutPath(a, path) + WithoutPath(b, path)
  {
    if a == [] {
      assert a + b == b;
    } else {
      assert (a + b)[1..] == a[1..] + b;
      WithoutPathAppend(a[1..], b, path);
    }
  }

  lemma {:induction false} KeptFrom(reqs: seq<RequestFile>, now: real, q: RequestFile)
    requires q in Kept(reqs, now)
    ensures q in reqs
  {
    KeptRequests(reqs, now);
  }

  /** The path of the i-th file. */
  function PathAt(files: seq<RequestFile>, i: nat): string
    requires i < |files|
  {
    files[i].path
  }

  /** No two files of the buffer share a path. */
  ghost predicate DistinctPaths(files: seq<RequestFile>) {
    forall i, j :: 0 <= i < j < |files| ==> PathAt(files, i) != PathAt(files, j)
  }

  /** Removing the file the loop is at leaves the kept files and the files
      still to visit. */
  lemma {:induction false} RemoveStep(listing: seq<RequestFile>, k: nat, now: real)
    requires k < |listing| && DistinctPaths(listing)
    ensures WithoutPath(Kept(listing[..k], now) + listing[k..], listing[k].path) == Kept(listing[..k], now) + listing[k + 1..]
  {
    var kept := Kept(listing[..k], now);
    var p := listing[k].path;
    WithoutPathAppend(kept, listing[k..], p);
    forall i | 0 <= i < |kept| ensures kept[i].path != p {
      KeptFrom(listing[..k], now, kept[i]);
      var m :| 0 <= m < k && listing[..k][m] == kept[i];
      assert listing[m] == kept[i] && PathAt(listing, m) != PathAt(listing, k);
    }
    WithoutPathAbsent(kept, p);
    var later := listing[k + 1..];
    forall i | 0 <= i < |later| ensures later[i].path != p {
      assert later[i] == listing[k + 1 + i] && PathAt(listing, k) != PathAt(listing, k + 1 + i);
    }
    WithoutPathAbsent(listing[k + 1..], p);
    assert listing[k..] == [listing[k]] + listing[k + 1..];
  }

  /** Once the loop has visited the whole listing, the buffer holds the
      kept files and nothing is left to visit. */
  lemma {:induction false} KeptAll(listing: seq<RequestFile>, now: real)
    ensures Kept(listing[..|listing|], now) + listing[|listing|..] == Kept(listing, now)
    ensures listing[|listing|..] == []
  {
    assert listing[..|listing|] == listing;
  }

  lemma {:induction false} KeptStep(listing: seq<RequestFile>, k: nat, now: real)
    requires k < |listing|
    ensures Kept(listing[..k + 1], now) == if Settled(listing[k], now) then Kept(listing[..k], now) else Kept(listing[..k], now) + [listing[k]]
  {
    assert listing[..k + 1][..k] == listing[..k];
  }

  /** A variant whose template renders is written after the ones before it. */
  lemma {:induction false} WrittenOkAt(vs: seq<Dict>, serialise: Dict -> string, render: Dict -> Rendering, i: nat,
                    pairs: seq<(string, string)>, ls: seq<string>)
    requires i < |vs| && Written(vs[..i], serialise, render) == Outputs(pairs, None)
    requires render(vs[i]) == Rendering(ls, None)
    ensures Written(vs[..i + 1], serialise, render) == Outputs(pairs + [(serialise(vs[i]), Concat(ls))], None)
  {
    assert vs[..i + 1][..i] == vs[..i];
    assert vs[..i + 1][i] == vs[i];
  }

  /** A variant whose template does not render ends the writing. */
  lemma {:induction false} WrittenErrAt(vs: seq<Dict>, serialise: Dict -> string, render: Dict -> Rendering, i: nat,
                     pairs: seq<(string, string)>)
    requires i < |vs| && Written(vs[..i], serialise, render) == Outputs(pairs, None)
    requires render(vs[i]).failure.Some?
    ensures Written(vs, serialise, render)
         == Outputs(pairs, Some((serialise(vs[i]), Concat(render(vs[i]).lines), render(vs[i]).failure.value)))
  {
    assert vs[..i + 1][..i] == vs[..i];
    assert vs[..i + 1][i] == vs[i];
    WrittenFailsFrom(vs, serialise, render, i + 1);
  }

  lemma {:induction false} WithPairsStep(base: seq<(string, string)>, pairs: seq<(string, string)>, x: (string, string), dp: Namer, tp: Namer)
    ensures WithPairs(base, pairs + [x], dp, tp)
         == WithPairs(base, pairs, dp, tp) + [(dp(|base| + 2 * |pairs|), x.0), (tp(|base| + 2 * |pairs| + 1), x.1)]
  {
    assert (pairs + [x])[..|pairs|] == pairs;
  }

  lemma {:induction false} PathsStep(start: nat, n: nat, dp: Namer, tp: Namer)
    ensures Paths(start, n + 1, dp, tp) == Paths(start, n, dp, tp) + [(dp(start + 2 * n), tp(start + 2 * n + 1))]
  {
  }

  // ---------------------------------------------------------------------
  // The directories

  /** The buffer directory of request files. */
  class RequestBuffer {
    var files: seq<RequestFile>

    ghost predicate Valid()
      reads this
    {
      DistinctPaths(files)
    }

    constructor(files0: seq<RequestFile>)
      requires DistinctPaths(files0)
      ensures Valid() && files == files0
    {
      files := files0;
    }

    /** `os.remove(path)` */
    method Remove(path: string)
      requires Valid()
      modifies this
      ensures Valid()
      ensures files == WithoutPath(old(files), path)
    {
      WithoutPathSub(files, path);
      files := WithoutPath(files, path);
    }
  }

  lemma {:induction false} WithoutPathSub(files: seq<RequestFile>, path: string)
    requires DistinctPaths(files)
    ensures DistinctPaths(WithoutPath(files, path))
    ensures forall q :: q in WithoutPath(files, path) ==> q in files
  {
    if files != [] {
      var rest := files[1..];
      assert DistinctPaths(rest) by {
        forall i, j | 0 <= i < j < |rest| ensures PathAt(rest, i) != PathAt(rest, j) {
          assert rest[i] == files[i + 1] && rest[j] == files[j + 1];
          assert PathAt(files, i + 1) != PathAt(files, j + 1);
        }
      }
      WithoutPathSub(rest, path);
      if files[0].path != path {
        var r := WithoutPath(rest, path);
        forall k | 0 <= k < |r| ensures files[0].path != r[k].path {
          assert r[k] in r;
          var m :| 0 <= m < |rest| && rest[m] == r[k];
          assert files[m + 1] == r[k] && PathAt(files, 0) != PathAt(files, m + 1);
        }
        var s := [files[0]] + r;
        forall i, j | 0 <= i < j < |s| ensures PathAt(s, i) != PathAt(s, j) {
          assert s[j] == r[j - 1];
          if i > 0 {
            assert s[i] == r[i - 1] && PathAt(r, i - 1) != PathAt(r, j - 1);
          }
        }
      }
    }
  }

  /** The scratch directory: the files written, in writing order. */
  class Scratch {
    var files: seq<(string, string)>

    constructor(files0: seq<(string, string)>)
      ensures files == files0
    {
      files := files0;
    }

    /** A new temporary file with the given prefix holding the text. */
    method Write(name: Namer, text: string) returns (path: string)
      modifies this
      ensures path == name(|old(files)|)
      ensures files == old(files) + [(path, text)]
    {
      path := name(|files|);
      files := files + [(path, text)];
    }
  }

  // ---------------------------------------------------------------------
  // The reader

  /** One variant: write its description, then render its template into
      a second file, which keeps what was written when a line raises. */
  method WriteVariant(scratch: Scratch, v: Dict, serialise: Dict -> string, render: Dict -> Rendering,
                      dp: Namer, tp: Namer)
    returns (d: string, dpath: string, tpath: string, rendered: Rendering)
    modifies scratch
    ensures d == serialise(v) && rendered == render(v)
    ensures dpath == dp(|old(scratch.files)|) && tpath == tp(|old(scratch.files)| + 1)
    ensures scratch.files == old(scratch.files) + [(dpath, d), (tpath, Concat(rendered.lines))]
  {
    d := serialise(v);
    dpath := scratch.Write(dp, d);
    rendered := render(v);
    tpath := scratch.Write(tp, Concat(rendered.lines));
  }

  /** The loop over the variants up to variant i, as the scratch files
      written so far and the texts they hold. */
  ghost predicate WrittenUpTo(files: seq<(string, string)>, base: seq<(string, string)>, pairs: seq<(string, string)>,
                              vs: seq<Dict>, serialise: Dict -> string, render: Dict -> Rendering,
                              dp: Namer, tp: Namer, i: nat)
  {
    && i <= |vs| && |pairs| == i
    && Written(vs[..i], serialise, render) == Outputs(pairs, None)
    && files == WithPairs(base, pairs, dp, tp)
  }

  /** Variant i after the first i are written: either all of variant i is
      written, or its template fails to render and the request's writing
      stops with its description and part of its template written. */
  method WriteNext(scratch: Scratch, vs: seq<Dict>, serialise: Dict -> string, render: Dict -> Rendering,
                   dp: Namer, tp: Namer, i: nat, ghost base: seq<(string, string)>, ghost pairs: seq<(string, string)>)
    returns (dpath: string, tpath: string, failed: bool, ghost next: seq<(string, string)>)
    requires i < |vs| && WrittenUpTo(scratch.files, base, pairs, vs, serialise, render, dp, tp, i)
    modifies scratch
    ensures failed ==> Written(vs, serialise, render).failed.Some?
    ensures failed ==> scratch.files == Produced(base, Written(vs, serialise, render), dp, tp)
    ensures !failed ==> WrittenUpTo(scratch.files, base, next, vs, serialise, render, dp, tp, i + 1)
    ensures !failed ==> dpath == dp(|base| + 2 * i) && tpath == tp(|base| + 2 * i + 1)
  {
    var d, rendered;
    assert |scratch.files| == |base| + 2 * i;
    d, dpath, tpath, rendered := WriteVariant(scratch, vs[i], serialise, render, dp, tp);
    if rendered.failure.Some? {
      FailedStep(base, pairs, vs, serialise, render, dp, tp, i);
      return dpath, tpath, true, pairs;
    }
    WrittenStep(base, pairs, vs, serialise, render, dp, tp, i, rendered.lines);
    failed := false;
    next := pairs + [(d, Concat(rendered.lines))];
  }

  /** A variant that fails to render leaves what was written before it,
      its own description and the part of its template written. */
  lemma {:induction false} FailedStep(base: seq<(string, string)>, pairs: seq<(string, string)>, vs: seq<Dict>,
                                      serialise: Dict -> string, render: Dict -> Rendering,
                                      dp: Namer, tp: Namer, i: nat)
    requires i < |vs| && |pairs| == i && Written(vs[..i], serialise, render) == Outputs(pairs, None)
    requires render(vs[i]).failure.Some?
    ensures Written(vs, serialise, render).failed.Some?
    ensures Produced(base, Written(vs, serialise, render), dp, tp)
         == WithPairs(base, pairs, dp, tp) + [(dp(|base| + 2 * i), serialise(vs[i])), (tp(|base| + 2 * i + 1), Concat(render(vs[i]).lines))]
  {
    WrittenErrAt(vs, serialise, render, i, pairs);
    var o := Written(vs, serialise, render);
    assert o.pairs == pairs && |WithPairs(base, pairs, dp, tp)| == |base| + 2 * i;
  }

  /** A variant that renders extends the writing by its two files. */
  lemma {:induction false} WrittenStep(base: seq<(string, string)>, pairs: seq<(string, string)>, vs: seq<Dict>,
                                       serialise: Dict -> string, render: Dict -> Rendering,
                                       dp: Namer, tp: Namer, i: nat, ls: seq<string>)
    requires i < |vs| && WrittenUpTo(WithPairs(base, pairs, dp, tp), base, pairs, vs, serialise, render, dp, tp, i)
    requires render(vs[i]) == Rendering(ls, None)
    ensures WrittenUpTo(WithPairs(base, pairs, dp, tp) + [(dp(|base| + 2 * i), serialise(vs[i])), (tp(|base| + 2 * i + 1), Concat(ls))],
                        base, pairs + [(serialise(vs[i]), Concat(ls))], vs, serialise, render, dp, tp, i + 1)
  {
    WrittenOkAt(vs, serialise, render, i, pairs, ls);
    WithPairsStep(base, pairs, (serialise(vs[i]), Concat(ls)), dp, tp);
  }

  /** The loop over the variants: write each description, render and write
      its template; a template that fails to render ends the loop. */
  method WriteVariants(scratch: Scratch, vs: seq<Dict>, serialise: Dict -> string, render: Dict -> Rendering,
                       dp: Namer, tp: Namer)
    returns (paths: seq<(string, string)>, failed: bool)
    modifies scratch
    ensures var o := Written(vs, serialise, render);
      && scratch.files == Produced(old(scratch.files), o, dp, tp)
      && (failed <==> o.failed.Some?)
      && (!failed ==> paths == Paths(|old(scratch.files)|, |vs|, dp, tp))
  {
    ghost var base := scratch.files;
    var start := |scratch.files|;
    ghost var pairs: seq<(string, string)> := [];
    paths := [];
    var i := 0;
    while i < |vs|
      invariant WrittenUpTo(scratch.files, base, pairs, vs, serialise, render, dp, tp, i)
      invariant paths == Paths(start, i, dp, tp)
    {
      var dpath, tpath;
      dpath, tpath, failed, pairs := WriteNext(scratch, vs, serialise, render, dp, tp, i, base, pairs);
      if failed {
        return;
      }
      PathsStep(start, i, dp, tp);
      paths := paths + [(dpath, tpath)];
      i := i + 1;
    }
    assert vs[..i] == vs;
    failed := false;
  }

  /** `for (newjobfile, newtemplatefile) in jobfiles: insertJob(...)` */
  method InsertVariants(store: LdmxStore, paths: seq<(string, string)>, proxyid: int, batch: string)
    requires store.Valid()
    modifies store
    ensures store.Valid() && store.archive == old(store.archive)
    ensures store.jobs == old(store.jobs) + Rows(old(store.nextId), paths, proxyid, batch)
    ensures store.nextId == old(store.nextId) + |paths|
  {
    ghost var jobs0 := store.jobs;
    var i := 0;
    while i < |paths|
      invariant 0 <= i <= |paths|
      invariant store.Valid() && store.archive == old(store.archive)
      invariant store.jobs == jobs0 + Rows(old(store.nextId), paths[..i], proxyid, batch)
      invariant store.nextId == old(store.nextId) + i
    {
      var _ := store.InsertJob(paths[i].0, paths[i].1, proxyid, batch);
      assert Rows(old(store.nextId), paths[..i + 1], proxyid, batch)
          == Rows(old(store.nextId), paths[..i], proxyid, batch) + [NewJob(old(store.nextId) + i, paths[i].0, paths[i].1, proxyid, batch)];
      i := i + 1;
    }
    assert paths[..i] == paths;
  }

  /** The first part of the loop body for a settled request: the request
      is parsed, its template looked up, its output base found and its
      variants generated; nothing is written yet. */
  method PlanRequest(req: RequestFile, env: Env) returns (plan: Plan)
    ensures plan == PlanOf(req, env)
  {
    var cfg := ParseRequest(Lines(req.text));
    var batch := BatchId(cfg, env.timestamp);
    var name := Lookup(cfg, TemplateKey);
    if name.Err? || Text(name.value) !in env.templates {
      return Unreadable;
    }
    var template := Lines(env.templates[Text(name.value)]);
    var ob := OutputBase(cfg, env.protocols);
    if ob.Err? {
      return Broken(ob.error);
    }
    var shared := new SharedConfig(cfg);
    var vs := GenerateJobs(shared, env.rses, env.catalogue, env.draws(req.path));
    if vs.Err? {
      return Broken(vs.error);
    }
    plan := Planned(batch, Text(name.value), template, ob.value, vs.value);
  }

  /** The second part: the variants are written and, when every template
      rendered, inserted as new jobs. */
  method ApplyPlan(plan: Plan, req: RequestFile, scratch: Scratch, store: LdmxStore, env: Env, proxyid: int)
    requires store.Valid()
    modifies scratch, store
    ensures store.Valid() && store.archive == old(store.archive)
    ensures World(scratch.files, store.jobs, store.nextId)
         == Applied(World(old(scratch.files), old(store.jobs), old(store.nextId)), plan, req, env, proxyid)
  {
    if !plan.Planned? {
      return;
    }
    ghost var w := World(scratch.files, store.jobs, store.nextId);
    var serialise, render := Serializer(plan.outputBase, env.noUpload), Renderer(plan.template);
    var dp, tp := DescPrefix(req, env), TemplatePrefix(plan.templateName, env);
    var paths, failed := WriteVariants(scratch, plan.variants, serialise, render, dp, tp);
    assert Applied(w, plan, req, env, proxyid) == Record(w, Written(plan.variants, serialise, render), |plan.variants|, dp, tp, proxyid, plan.batch);
    if failed {
      return;
    }
    InsertVariants(store, paths, proxyid, plan.batch);
  }

  /** The body of the loop for a settled request, up to its removal. */
  method IngestRequest(req: RequestFile, scratch: Scratch, store: LdmxStore, env: Env, proxyid: int)
    requires store.Valid()
    modifies scratch, store
    ensures store.Valid() && store.archive == old(store.archive)
    ensures World(scratch.files, store.jobs, store.nextId)
         == IngestOne(World(old(scratch.files), old(store.jobs), old(store.nextId)), req, env, proxyid)
  {
    var plan := PlanRequest(req, env);
    ApplyPlan(plan, req, scratch, store, env, proxyid);
  }

  /** The k-th file of the listing, with the buffer holding what the
      first k visits left of the listing: a settled request is ingested
      and removed, a new one left alone. */
  method VisitAt(buffer: RequestBuffer, scratch: Scratch, store: LdmxStore, listing: seq<RequestFile>, k: nat,
                 env: Env, proxyid: int)
    requires k < |listing| && DistinctPaths(listing)
    requires buffer.Valid() && store.Valid()
    requires buffer.files == Kept(listing[..k], env.now) + listing[k..]
    modifies buffer, scratch, store
    ensures buffer.Valid() && store.Valid() && store.archive == old(store.archive)
    ensures buffer.files == Kept(listing[..k + 1], env.now) + listing[k + 1..]
    ensures World(scratch.files, store.jobs, store.nextId)
         == Visited(World(old(scratch.files), old(store.jobs), old(store.nextId)), listing[k], env, proxyid)
  {
    if env.now - listing[k].mtime < SettleTime {
      KeepStep(listing, k, env.now);
      return;
    }
    IngestRequest(listing[k], scratch, store, env, proxyid);
    RemoveAt(buffer, listing, k, env.now);
  }

  /** A new file stays in the buffer: it joins the kept files. */
  lemma {:induction false} KeepStep(listing: seq<RequestFile>, k: nat, now: real)
    requires k < |listing| && !Settled(listing[k], now)
    ensures Kept(listing[..k + 1], now) + listing[k + 1..] == Kept(listing[..k], now) + listing[k..]
  {
    KeptStep(listing, k, now);
    assert listing[k..] == [listing[k]] + listing[k + 1..];
  }

  /** A settled file is removed from the buffer once it has been ingested. */
  method RemoveAt(buffer: RequestBuffer, listing: seq<RequestFile>, k: nat, now: real)
    requires k < |listing| && DistinctPaths(listing) && Settled(listing[k], now)
    requires buffer.Valid() && buffer.files == Kept(listing[..k], now) + listing[k..]
    modifies buffer
    ensures buffer.Valid() && buffer.files == Kept(listing[..k + 1], now) + listing[k + 1..]
  {
    KeptStep(listing, k, now);
    RemoveStep(listing, k, now);
    buffer.Remove(listing[k].path);
  }

  /** `getNewJobs`: without a proxy nothing happens; otherwise every
      settled request is ingested and removed, in listing order. */
  method GetNewJobs(buffer: RequestBuffer, scratch: Scratch, store: LdmxStore, env: Env, proxy: Option<int>)
    requires buffer.Valid() && store.Valid()
    modifies buffer, scratch, store
    ensures buffer.Valid() && store.Valid() && store.archive == old(store.archive)
    ensures proxy.None? ==> buffer.files == old(buffer.files) && scratch.files == old(scratch.files)
                            && store.jobs == old(store.jobs) && store.nextId == old(store.nextId)
    ensures proxy.Some? ==> buffer.files == Kept(old(buffer.files), env.now)
    ensures proxy.Some? ==>
      World(scratch.files, store.jobs, store.nextId) == IngestFrom(World(old(scratch.files), old(store.jobs), old(store.nextId)), old(buffer.files), env, proxy.value)
  {
    if proxy.None? {
      return;
    }
    var listing := buffer.files;
    ghost var w0 := World(scratch.files, store.jobs, store.nextId);
    ghost var trace := Trace(w0, listing, env, proxy.value);
    var k := 0;
    while k < |listing|
      invariant 0 <= k <= |listing|
      invariant buffer.Valid() && store.Valid() && store.archive == old(store.archive)
      invariant buffer.files == Kept(listing[..k], env.now) + listing[k..]
      invariant World(scratch.files, store.jobs, store.nextId) == trace[k]
    {
      TraceStep(w0, listing, env, proxy.value, k);
      VisitAt(buffer, scratch, store, listing, k, env, proxy.value);
      k := k + 1;
    }
    TraceEnd(w0, listing, env, proxy.value);
    KeptAll(listing, env.now);
  }
}
