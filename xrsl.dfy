/** The xRSL job description of an LDMX job: thirteen clauses in a fixed
    order, built from the job's description file, its template and the
    executable settings of the site configuration. */
module Xrsl {
  import opened Basics
  import opened Strings
  import opened Dicts

  const MemoryKey := "JobMemory"
  const WallTimeKey := "JobWallTime"
  const RteKey := "RunTimeEnvironment"
  const DestinationKey := "FinalOutputDestination"
  const InputFileKey := "InputFile"
  const LocalRseKey := "InputDataLocationLocalRSE"
  const RemoteKey := "InputDataLocationRemote"
  const PileupKey := "PileupLocation"

  /** The `executable` section of the site configuration: the wrapper
      script, the simulation production runtime environment and the Rucio
      helper script. */
  datatype Executables = Executables(wrapper: string, simprodrte: string, ruciohelper: string)

  /** An entry of the input files clause: a file shipped with the job, or a
      file the cluster fetches from a URL, cached or not. */
  datatype InputEntry = Shipped(name: string, path: string) | Fetched(name: string, url: string, cache: bool)

  /** A resource field read as a number: the integer its text denotes, the
      default when the field is absent, an error for any other text. */
  function NumberField(cfg: Dict, k: string, default: int): (r: Result<int>)
    ensures !Has(cfg, k) ==> r == Ok(default)
    ensures Has(cfg, k) && cfg.vals[k].Str? ==>
      (r.Ok? <==> ParseInt(cfg.vals[k].s).Some?) && (r.Ok? ==> r == Ok(ParseInt(cfg.vals[k].s).value))
  {
    if k !in cfg.vals then Ok(default)
    else match cfg.vals[k]
      case Int(i) => Ok(i)
      case Str(s) =>
        match ParseInt(s)
        case None => Err(BadInteger(s))
        case Some(i) => Ok(i)
  }

  /** The memory clause's number: megabytes times 1000 as a float, which
      for an integral number of megabytes is the product followed by ".0"
      while the product stays below 10^16 in magnitude. */
  function MemoryText(m: int): string {
    IntToString(m * 1000) + ".0"
  }

  /** The runtime environment clause: the job's own environment when its
      description names one, then always the simulation production one. */
  function RteClause(cfg: Dict, exe: Executables): string {
    (if Has(cfg, RteKey) then "(runtimeenvironment = APPS/" + Text(cfg.vals[RteKey]) + ")" else "")
    + "(runtimeenvironment = APPS/" + exe.simprodrte + ")"
  }

  /** The output files clause: the metadata file, and the job's outputs when
      the description names a final destination. */
  function OutputClause(cfg: Dict): string {
    "(outputfiles = " + MetadataOutput
    + (if Has(cfg, DestinationKey) && Truthy(cfg.vals[DestinationKey]) then JobOutputs else "") + ")"
  }

  /** The metadata file the job writes, kept by the cluster. */
  const MetadataOutput := "(\"rucio.metadata\" \"\")"

  /** The files the job lists in `output.files`, uploaded by the cluster. */
  const JobOutputs := "(\"@output.files\" \"\")"

  /** The four files every job ships: wrapper, description, template and the
      helper script. */
  function ShippedEntries(description: string, template: string, exe: Executables): seq<InputEntry> {
    [Shipped("ldmxsim.sh", exe.wrapper), Shipped("ldmxproduction.config", description),
     Shipped("ldmxjob.py", template), Shipped("ldmx-simprod-rte-helper.py", exe.ruciohelper)]
  }

  /** The job reads an input file of which no local copy exists. */
  predicate NeedsDownload(cfg: Dict) {
    Has(cfg, InputFileKey) && !Has(cfg, LocalRseKey)
  }

  /** The input file when there is no local copy: named after the part of
      `InputFile` between its first and second ':', fetched from the remote location,
      uncached. An `InputFile` without ':' or a missing remote location
      raises, in that order. */
  function PrimaryEntry(cfg: Dict): Result<seq<InputEntry>> {
    if !NeedsDownload(cfg) then Ok([])
    else
      var parts := Split(Text(cfg.vals[InputFileKey]), ':');
      if |parts| < 2 then Err(MissingField(Text(cfg.vals[InputFileKey])))
      else if !Has(cfg, RemoteKey) then Err(MissingKey(RemoteKey))
      else Ok([Fetched(parts[1], Text(cfg.vals[RemoteKey]), false)])
  }

  /** The pileup file when there is one: named after the last '/' segment of
      its location, fetched from there, cached. */
  function PileupEntry(cfg: Dict): seq<InputEntry> {
    if Has(cfg, PileupKey) then
      var loc := Text(cfg.vals[PileupKey]);
      [Fetched(LastSegment(loc, '/'), loc, true)]
    else []
  }

  /** All input file entries, in clause order. */
  function InputEntries(description: string, template: string, cfg: Dict, exe: Executables): (r: Result<seq<InputEntry>>)
    ensures r.Ok? ==> |r.value| >= 4
  {
    match PrimaryEntry(cfg)
    case Err(e) => Err(e)
    case Ok(primary) => Ok(ShippedEntries(description, template, exe) + primary + PileupEntry(cfg))
  }

  /** The text of one entry. */
  function EntryText(e: InputEntry): string {
    match e
    case Shipped(n, p) => "(" + n + " " + p + ")"
    case Fetched(n, u, c) => "(" + n + " \"" + u + "\" \"cache=" + (if c then "yes" else "no") + "\")"
  }

  function EntryTexts(es: seq<InputEntry>): (ts: seq<string>)
    ensures |ts| == |es|
  {
    if es == [] then [] else [EntryText(es[0])] + EntryTexts(es[1..])
  }

  /** What separates the shipped entries: the space before each line
      continuation and the 23 spaces that indent the next source line. */
  const Gap := "                        "

  /** The shipped entries separated by the gap, then the fetched entries
      appended without any separator. */
  function InputText(es: seq<InputEntry>): string
    requires |es| >= 4
  {
    Join(EntryTexts(es[..4]), Gap) + Concat(EntryTexts(es[4..]))
  }

  /** `(memory = ...)` */
  function MemoryClause(m: int): string {
    "(memory = " + MemoryText(m) + ")"
  }

  /** `(walltime = ...)` and `(cputime = ...)`, in minutes. */
  function TimeClause(name: string, t: int): string {
    "(" + name + " = " + IntToString(t) + ")"
  }

  /** `(inputfiles = ...)` */
  function InputClause(inputs: seq<InputEntry>): string
    requires |inputs| >= 4
  {
    "(inputfiles = " + InputText(inputs) + ")"
  }

  const ExecutableClause := "(executable = ldmxsim.sh)"

  /** The clauses that are the same for every job, after the input files. */
  const TrailingClauses := ["(stdout = stdout)", "(gmlog = gmlog)", "(join = yes)", "(rerun = 2)", "(count = 1)",
    "(jobname = \"LDMX Prod Simulation\")"]

  /** The thirteen clauses, in the order they are assigned. */
  function ClauseList(memory: int, walltime: int, inputs: seq<InputEntry>, cfg: Dict, exe: Executables): (cs: seq<string>)
    requires |inputs| >= 4
    ensures |cs| == 13
  {
    [MemoryClause(memory), TimeClause("walltime", walltime), TimeClause("cputime", walltime),
     RteClause(cfg, exe), OutputClause(cfg), ExecutableClause, InputClause(inputs)] + TrailingClauses
  }

  /** The clauses of the description: the memory and the wall time are read
      first, then the input files are listed; the first of them that fails
      raises. */
  function Clauses(description: string, template: string, cfg: Dict, exe: Executables): (r: Result<seq<string>>)
    ensures r.Ok? ==> |r.value| == 13
  {
    match NumberField(cfg, MemoryKey, 2)
    case Err(e) => Err(e)
    case Ok(memory) =>
      match NumberField(cfg, WallTimeKey, 240)
      case Err(e) => Err(e)
      case Ok(walltime) =>
        match InputEntries(description, template, cfg, exe)
        case Err(e) => Err(e)
        case Ok(inputs) => Ok(ClauseList(memory, walltime, inputs, cfg, exe))
  }

  /** `createXRSL`: '&' and the clauses, one per line. What it builds is
      never empty, so the dispatcher's test for a missing description never
      holds. */
  function CreateXrsl(description: string, template: string, cfg: Dict, exe: Executables): (r: Result<string>)
    ensures r.Ok? ==> |r.value| > 0 && r.value[0] == '&'
    ensures r.Ok? <==> Clauses(description, template, cfg, exe).Ok?
  {
    match Clauses(description, template, cfg, exe)
    case Err(e) => Err(e)
    case Ok(cs) => Ok("&" + Join(cs, "\n"))
  }

  /** A description can be built unless a resource field is not an integer,
      or the input file has to be fetched and either has no ':' in its name
      or no remote location is given. */
  lemma {:induction false} XrslFails(description: string, template: string, cfg: Dict, exe: Executables)
    ensures CreateXrsl(description, template, cfg, exe).Err? <==>
      || NumberField(cfg, MemoryKey, 2).Err?
      || NumberField(cfg, WallTimeKey, 240).Err?
      || (NeedsDownload(cfg) && (':' !in Text(cfg.vals[InputFileKey]) || !Has(cfg, RemoteKey)))
  {
    if NeedsDownload(cfg) {
      var f := Text(cfg.vals[InputFileKey]);
      SplitIn(f, ':');
    }
  }

  /** A text has two parts or more exactly when it holds the separator. */
  lemma SplitIn(s: string, sep: char)
    ensures |Split(s, sep)| >= 2 <==> sep in s
  {
    SplitWithoutSep(s, sep);
    if |Split(s, sep)| == 1 {
      OneSplit(s, sep);
      SplitParts(s, sep);
    }
  }

  /** What a built description is made of: the memory and the wall time
      read from the job description and its input file entries. */
  lemma {:induction false} ClausesOk(description: string, template: string, cfg: Dict, exe: Executables)
    requires Clauses(description, template, cfg, exe).Ok?
    ensures NumberField(cfg, MemoryKey, 2).Ok? && NumberField(cfg, WallTimeKey, 240).Ok?
    ensures InputEntries(description, template, cfg, exe).Ok?
    ensures Clauses(description, template, cfg, exe).value == ClauseList(NumberField(cfg, MemoryKey, 2).value,
      NumberField(cfg, WallTimeKey, 240).value, InputEntries(description, template, cfg, exe).value, cfg, exe)
  {
  }

  /** Wall time and CPU time are the same number, 240 minutes when the
      description gives none; the memory is 2000.0 when it gives none. */
  lemma {:induction false} ResourceClauses(description: string, template: string, cfg: Dict, exe: Executables)
    requires Clauses(description, template, cfg, exe).Ok?
    ensures var cs := Clauses(description, template, cfg, exe).value;
      var w := NumberField(cfg, WallTimeKey, 240).value;
      && cs[1] == TimeClause("walltime", w)
      && cs[2] == TimeClause("cputime", w)
      && (!Has(cfg, WallTimeKey) ==> cs[1] == "(walltime = 240)" && cs[2] == "(cputime = 240)")
      && cs[0] == MemoryClause(NumberField(cfg, MemoryKey, 2).value)
      && (!Has(cfg, MemoryKey) ==> cs[0] == "(memory = 2000.0)")
  {
    ClausesOk(description, template, cfg, exe);
    DefaultTexts();
  }

  lemma {:induction false} DefaultTexts()
    ensures TimeClause("walltime", 240) == "(walltime = 240)"
    ensures TimeClause("cputime", 240) == "(cputime = 240)"
    ensures MemoryClause(2) == "(memory = 2000.0)"
  {
    DefaultNumbers();
  }

  lemma {:induction false} DefaultNumbers()
    ensures IntToString(240) == "240" && IntToString(2000) == "2000"
  {
    assert NatToString(240) == NatToString(24) + "0";
    assert NatToString(24) == NatToString(2) + "4";
    assert NatToString(2000) == NatToString(200) + "0";
    assert NatToString(200) == NatToString(20) + "0";
    assert NatToString(20) == NatToString(2) + "0";
  }

  /** The job's own runtime environment, when it names one, comes first and
      the simulation production one always comes last. */
  lemma {:induction false} RteOrder(cfg: Dict, exe: Executables)
    ensures var c := RteClause(cfg, exe);
      var last := "(runtimeenvironment = APPS/" + exe.simprodrte + ")";
      && |last| <= |c| && c[|c| - |last|..] == last
      && (Has(cfg, RteKey) ==> StartsWith(c, "(runtimeenvironment = APPS/" + Text(cfg.vals[RteKey]) + ")"))
      && (!Has(cfg, RteKey) ==> c == last)
  {
    var c := RteClause(cfg, exe);
    var last := "(runtimeenvironment = APPS/" + exe.simprodrte + ")";
    var own := if Has(cfg, RteKey) then "(runtimeenvironment = APPS/" + Text(cfg.vals[RteKey]) + ")" else "";
    assert c == own + last;
    assert c[|own|..] == last;
    assert c[..|own|] == own;
  }

  /** The four shipped files come first; a fetched, uncached entry follows
      exactly when the input file has no local copy, and a fetched, cached
      one exactly when there is a pileup file. */
  lemma {:induction false} InputEntriesShape(description: string, template: string, cfg: Dict, exe: Executables)
    requires InputEntries(description, template, cfg, exe).Ok?
    ensures var es := InputEntries(description, template, cfg, exe).value;
      && es[..4] == ShippedEntries(description, template, exe)
      && |es| == 4 + (if NeedsDownload(cfg) then 1 else 0) + (if Has(cfg, PileupKey) then 1 else 0)
      && (forall i :: 4 <= i < |es| ==> es[i].Fetched?)
      && ((exists i :: 4 <= i < |es| && !es[i].cache) <==> NeedsDownload(cfg))
      && ((exists i :: 4 <= i < |es| && es[i].cache) <==> Has(cfg, PileupKey))
  {
    var es := InputEntries(description, template, cfg, exe).value;
    var primary := PrimaryEntry(cfg).value;
    assert es == ShippedEntries(description, template, exe) + primary + PileupEntry(cfg);
    if NeedsDownload(cfg) {
      assert !es[4].cache;
    }
    if Has(cfg, PileupKey) {
      assert es[|es| - 1].cache;
    }
  }

  /** An input file `scope:name` without a local copy is fetched uncached
      from the remote location under its name. */
  lemma {:induction false} DownloadEntry(cfg: Dict, scope: string, name: string)
    requires NeedsDownload(cfg) && Has(cfg, RemoteKey)
    requires Get(cfg, InputFileKey) == Some(Str(scope + ":" + name))
    requires ':' !in scope && ':' !in name
    ensures PrimaryEntry(cfg) == Ok([Fetched(name, Text(cfg.vals[RemoteKey]), false)])
  {
    TwoParts(scope + ":" + name, ':', scope, name);
  }

  /** A pileup file `dir/name` is fetched cached under its file name. */
  lemma {:induction false} PileupEntryName(cfg: Dict, dir: string, name: string)
    requires Get(cfg, PileupKey) == Some(Str(dir + "/" + name))
    requires '/' !in name
    ensures PileupEntry(cfg) == [Fetched(name, dir + "/" + name, true)]
  {
    LastSegmentAfter(dir, name, '/');
  }

  /** Nothing in the inputs holds a line break: the description and
      template paths, the executable settings and every value of the job
      description (lines read from a file and stripped). */
  predicate SingleLines(description: string, template: string, cfg: Dict, exe: Executables) {
    && '\n' !in description && '\n' !in template
    && '\n' !in exe.wrapper && '\n' !in exe.simprodrte && '\n' !in exe.ruciohelper
    && forall k :: k in cfg.vals ==> '\n' !in Text(cfg.vals[k])
  }

  /** The description is '&' followed by its clauses one per line: when no
      input holds a line break, splitting the rest at line breaks gives the
      clauses back. */
  lemma {:induction false} XrslLines(description: string, template: string, cfg: Dict, exe: Executables)
    requires CreateXrsl(description, template, cfg, exe).Ok?
    requires SingleLines(description, template, cfg, exe)
    ensures Split(CreateXrsl(description, template, cfg, exe).value[1..], '\n') == Clauses(description, template, cfg, exe).value
  {
    var memory := NumberField(cfg, MemoryKey, 2).value;
    var walltime := NumberField(cfg, WallTimeKey, 240).value;
    var inputs := InputEntries(description, template, cfg, exe).value;
    var cs := ClauseList(memory, walltime, inputs, cfg, exe);
    ClausesOk(description, template, cfg, exe);
    ClausesSingleLine(memory, walltime, inputs, cfg, exe, description, template);
    SplitJoin(cs, '\n');
    assert ("&" + Join(cs, "\n"))[1..] == Join(cs, "\n");
  }

  lemma {:induction false} ClausesSingleLine(memory: int, walltime: int, inputs: seq<InputEntry>, cfg: Dict, exe: Executables,
                          description: string, template: string)
    requires SingleLines(description, template, cfg, exe)
    requires InputEntries(description, template, cfg, exe) == Ok(inputs)
    ensures var cs := ClauseList(memory, walltime, inputs, cfg, exe);
      forall i :: 0 <= i < 13 ==> '\n' !in cs[i]
  {
    ResourceSingleLine(memory, walltime);
    RteSingleLine(cfg, exe, description, template);
    FixedSingleLine();
    OutputSingleLine(cfg);
    EntriesSingleLine(description, template, cfg, exe);
    InputClauseSingleLine(inputs);
  }

  lemma {:induction false} ResourceSingleLine(memory: int, walltime: int)
    ensures '\n' !in MemoryClause(memory)
    ensures '\n' !in TimeClause("walltime", walltime) && '\n' !in TimeClause("cputime", walltime)
  {
    IntSingleLine(memory * 1000);
    IntSingleLine(walltime);
  }

  lemma {:induction false} RteSingleLine(cfg: Dict, exe: Executables, description: string, template: string)
    requires SingleLines(description, template, cfg, exe)
    ensures '\n' !in RteClause(cfg, exe)
  {
    if Has(cfg, RteKey) {
      assert '\n' !in Text(cfg.vals[RteKey]);
    }
  }

  lemma {:induction false} InputClauseSingleLine(inputs: seq<InputEntry>)
    requires |inputs| >= 4
    requires forall i :: 0 <= i < |inputs| ==> '\n' !in EntryText(inputs[i])
    ensures '\n' !in InputClause(inputs)
  {
    EntryTextsEach(inputs[..4]);
    EntryTextsEach(inputs[4..]);
    FixedSingleLine();
    JoinSingleLine(EntryTexts(inputs[..4]), Gap);
    ConcatSingleLine(EntryTexts(inputs[4..]));
  }

  lemma {:induction false} FixedSingleLine()
    ensures '\n' !in ExecutableClause && '\n' !in Gap
    ensures forall i :: 0 <= i < |TrailingClauses| ==> '\n' !in TrailingClauses[i]
  {
    TrailingSingleLine(0);
    TrailingSingleLine(1);
    TrailingSingleLine(2);
    TrailingSingleLine(3);
    TrailingSingleLine(4);
    TrailingSingleLine(5);
  }

  lemma {:induction false} TrailingSingleLine(i: nat)
    requires i < |TrailingClauses|
    ensures '\n' !in TrailingClauses[i]
  {
  }

  lemma {:induction false} OutputSingleLine(cfg: Dict)
    ensures '\n' !in OutputClause(cfg)
  {
    assert '\n' !in MetadataOutput;
    assert '\n' !in JobOutputs;
  }


  lemma {:induction false} IntSingleLine(i: int)
    ensures '\n' !in IntToString(i)
  {
    var d := if i < 0 then NatToString(-i) else NatToString(i);
    NatToStringDigits(if i < 0 then -i else i);
    assert AllDigits(d);
  }

  /** No entry's text holds a line break. */
  lemma {:induction false} EntriesSingleLine(description: string, template: string, cfg: Dict, exe: Executables)
    requires SingleLines(description, template, cfg, exe)
    requires InputEntries(description, template, cfg, exe).Ok?
    ensures var es := InputEntries(description, template, cfg, exe).value;
      forall i :: 0 <= i < |es| ==> '\n' !in EntryText(es[i])
  {
    var es := InputEntries(description, template, cfg, exe).value;
    var primary := PrimaryEntry(cfg).value;
    assert es == ShippedEntries(description, template, exe) + primary + PileupEntry(cfg);
    ShippedSingleLine(description, template, exe);
    PrimarySingleLine(cfg, description, template, exe);
    PileupSingleLine(cfg, description, template, exe);
  }

  lemma {:induction false} ShippedSingleLine(description: string, template: string, exe: Executables)
    requires '\n' !in description && '\n' !in template && '\n' !in exe.wrapper && '\n' !in exe.ruciohelper
    ensures var es := ShippedEntries(description, template, exe);
      forall i :: 0 <= i < |es| ==> '\n' !in EntryText(es[i])
  {
    var es := ShippedEntries(description, template, exe);
    NamesSingleLine();
    EntrySingleLine(es[0]);
    EntrySingleLine(es[1]);
    EntrySingleLine(es[2]);
    EntrySingleLine(es[3]);
  }

  lemma {:induction false} NamesSingleLine()
    ensures '\n' !in "ldmxsim.sh" && '\n' !in "ldmxproduction.config"
    ensures '\n' !in "ldmxjob.py" && '\n' !in "ldmx-simprod-rte-helper.py"
  {
  }

  lemma {:induction false} EntrySingleLine(e: InputEntry)
    requires '\n' !in e.name && '\n' !in (if e.Shipped? then e.path else e.url)
    ensures '\n' !in EntryText(e)
  {
    assert '\n' !in "cache=yes" && '\n' !in "cache=no";
  }

  lemma {:induction false} PrimarySingleLine(cfg: Dict, description: string, template: string, exe: Executables)
    requires SingleLines(description, template, cfg, exe)
    requires PrimaryEntry(cfg).Ok?
    ensures var es := PrimaryEntry(cfg).value;
      forall i :: 0 <= i < |es| ==> '\n' !in EntryText(es[i])
  {
    if NeedsDownload(cfg) && PrimaryEntry(cfg).value != [] {
      var f := Text(cfg.vals[InputFileKey]);
      SplitFree(f, ':', '\n');
    }
  }

  lemma {:induction false} PileupSingleLine(cfg: Dict, description: string, template: string, exe: Executables)
    requires SingleLines(description, template, cfg, exe)
    ensures var es := PileupEntry(cfg);
      forall i :: 0 <= i < |es| ==> '\n' !in EntryText(es[i])
  {
    if Has(cfg, PileupKey) {
      var loc := Text(cfg.vals[PileupKey]);
      assert '\n' !in loc;
      EntrySingleLine(Fetched(LastSegment(loc, '/'), loc, true));
    }
  }

  /** The parts of a split hold no character the text does not hold. */
  lemma {:induction false} SplitFree(s: string, sep: char, c: char)
    requires c !in s
    ensures forall i :: 0 <= i < |Split(s, sep)| ==> c !in Split(s, sep)[i]
  {
    var parts := Split(s, sep);
    JoinSplit(s, sep);
    forall i | 0 <= i < |parts| ensures c !in parts[i] {
      if c in parts[i] {
        JoinHolds(parts, [sep], i, c);
      }
    }
  }

  lemma {:induction false} JoinHolds(parts: seq<string>, sep: string, i: nat, c: char)
    requires i < |parts| && c in parts[i]
    ensures c in Join(parts, sep)
  {
    if i > 0 {
      JoinHolds(parts[1..], sep, i - 1, c);
    }
  }

  lemma {:induction false} EntryTextsEach(es: seq<InputEntry>)
    ensures forall i :: 0 <= i < |es| ==> EntryTexts(es)[i] == EntryText(es[i])
  {
    if es != [] {
      EntryTextsEach(es[1..]);
    }
  }

  lemma {:induction false} JoinSingleLine(parts: seq<string>, sep: string)
    requires '\n' !in sep
    requires forall i :: 0 <= i < |parts| ==> '\n' !in parts[i]
    ensures '\n' !in Join(parts, sep)
  {
    if |parts| > 1 {
      JoinSingleLine(parts[1..], sep);
    }
  }

  lemma {:induction false} ConcatSingleLine(parts: seq<string>)
    requires forall i :: 0 <= i < |parts| ==> '\n' !in parts[i]
    ensures '\n' !in Concat(parts)
  {
    if parts != [] {
      ConcatSingleLine(parts[1..]);
    }
  }
}
