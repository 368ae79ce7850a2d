# ARC Control Tower: LDMX job intake, archiving and submission, and the PanDA submitter

This project models three components of the ARC Control Tower (aCT), the service
that takes jobs from an experiment's workload system and passes them on to ARC
computing elements.

- **LDMX job intake** (`aCTLDMXGetJobs`). A request file in the buffer directory is
  read as `key=value` lines. Its batch id is found and its job template is loaded. An
  output base URL is built from the storage protocols of the final destination. The
  request is then expanded into job variants:
  - one variant per file of an input dataset, with local or remote replicas and
    optionally a shuffled, repeated pileup dataset; or
  - a seeded series of `NumberofJobs` variants.

  Each variant is written as a description file and a rendered template. A job row is
  inserted for each variant, and the request file is removed. Separately, batches whose
  jobs are all `finished`, `failed` or `cancelled` are moved from the job table into
  the archive table.
- **LDMX submission** (`aCTLDMX2Arc`). Up to 100 `new` jobs are read back from their
  description files. Each gets an xRSL job description, a cluster list and a fair-share
  group, and is inserted into the ARC job table. The job then waits for that ARC job,
  or is marked failed when the table refuses it.
- **PanDA submission** (`aCTPanda2Arc`). The site table is built from the site
  configuration. For each PanDA job without an ARC job, the job description parser is
  asked for an xRSL text. The job is inserted with the site's endpoints as cluster
  list, a number of attempts and the list of files to download. It is then marked
  `starting` for PanDA and `sent` for aCT.

Values are modelled as datatypes. The things the source updates in place are classes:
- the request buffer and the scratch directory;
- the LDMX, ARC and PanDA job tables;
- the shared configuration dictionary that seeded expansion mutates;
- the PanDA submitter with its site table.

Python dictionaries keep their insertion order: `Dicts.Dict` pairs a key sequence with
a map. Each loop of the source is a method, proved equal to a specification function.
The properties the source promises are lemmas about those functions. The methods run
the code as it is written, also where it departs from what it evidently means (see
"## Findings"). Agreement lemmas then state when the code as written gives the same
result as the corrected definition, so the corrected definition's properties carry over.

The outside world is given to the model as values:
- the clock and timestamp;
- the template files;
- the Rucio replica catalogue and storage protocols;
- the shuffle's random draws;
- the names of temporary files;
- which inserts the database refuses;
- what the PanDA job description parser returns.

Modules follow the program. `Basics`, `Strings` and `Dicts` hold the Python string
and dictionary operations the components use. `RequestFormat` holds the request and
description file formats, and `Templates` the template substitution. `Replicas`,
`Pileup` and `Expansion` model `generateJobs`. `Stores` holds the tables, `Ingestion`
models `getNewJobs`, and `Archiving` models `archiveBatches`. `Xrsl` and `Dispatch`
model `aCTLDMX2Arc`, and `Panda` models `aCTPanda2Arc`.

## Model

| member | source | states |
|---|---|---|
| RequestFormat.ParseRequestHas | src/act/ldmx/aCTLDMXGetJobs.py:149 | the parsed request has a key exactly when some line holding '=' starts with that key before its first '=' |
| RequestFormat.ParseRequestLatest | src/act/ldmx/aCTLDMXGetJobs.py:149 | when a key repeats, the last line for it wins; the value is the text between the first and second '=', stripped |
| RequestFormat.ParseRequestSkips | src/act/ldmx/aCTLDMXGetJobs.py:149 | lines without '=' are ignored wherever they stand |
| RequestFormat.ParseRequestPlain | src/act/ldmx/aCTLDMXGetJobs.py:149 | every parsed key and value is free of '=', every value is stripped of surrounding whitespace |
| RequestFormat.BatchId | src/act/ldmx/aCTLDMXGetJobs.py:150 | the batch id is the `BatchID` value when present, otherwise `Batch-` followed by the timestamp |
| RequestFormat.RequestBatchId | src/act/ldmx/aCTLDMXGetJobs.py:149-150 | in terms of the request's lines: the last `BatchID` line's value, or the timestamped default when there is none |
| RequestFormat.SerializeLines | src/act/ldmx/aCTLDMXGetJobs.py:175-182 | a description file is one `key=value` line per variant key in insertion order, then `FinalOutputBasePath` when there is a non-empty output base, then `NoUploadSites` when some sites take no uploads |
| RequestFormat.DescriptionLines | src/act/ldmx/aCTLDMXGetJobs.py:175-182 | split into lines, a written description gives back exactly those terminated entry lines |
| RequestFormat.FromDescribedEntries | src/act/ldmx/aCTLDMXGetJobs.py:175-182 | the entries written, read as a dictionary, are the variant's text values with the output base and no-upload list set on top |
| RequestFormat.ReadDescriptionFails | src/act/ldmx/aCTLDMX2Arc.py:19-20 | reading a description back succeeds exactly when every line holds '=' (otherwise the source raises) |
| RequestFormat.DescriptionRoundTrip | src/act/ldmx/aCTLDMX2Arc.py:19-20 | a description written by the intake and read back with the full read (values taken after the first '=') gives back the written dictionary |
| RequestFormat.TruncatedRead | src/act/ldmx/aCTLDMX2Arc.py:20 | as written, a value `a=b` reads back as `a`, while the corrected read gives the whole value |
| RequestFormat.TruncatedValue | src/act/ldmx/aCTLDMX2Arc.py:20 | as written, a remote location with a query string, `https://se/f?a=b`, reads back as `https://se/f?a` |
| RequestFormat.ReadDescriptionAgrees | src/act/ldmx/aCTLDMX2Arc.py:20 | the submitter's truncating read and the full read give the same result for a description in which no line holds a second '=' |
| Templates.RenderTemplate | src/act/ldmx/aCTLDMXGetJobs.py:184-197 | the substitution loop leaves the template file as `Rendered` says: the rendered lines up to the first line that raises, and that line's failure |
| Templates.RenderedLines | src/act/ldmx/aCTLDMXGetJobs.py:184-197 | the template file holds the rendering of each template line before the first that raises, and that line's failure; it holds the whole rendered template exactly when rendering succeeds |
| Templates.RenderEach | src/act/ldmx/aCTLDMXGetJobs.py:187-197 | rendering succeeds exactly when every line renders, and line i of the result is the rendering of template line i |
| Templates.DirectivesExclusive | src/act/ldmx/aCTLDMXGetJobs.py:188-194 | the four directive prefixes never both start one line, so the order of the tests does not matter |
| Templates.VerbatimLine | src/act/ldmx/aCTLDMXGetJobs.py:196-197 | a line starting with none of the prefixes is copied unchanged |
| Templates.RunNumberLine | src/act/ldmx/aCTLDMXGetJobs.py:188-191 | `sim.runNumber` and `p.run` lines become the assignment of the variant's run number |
| Templates.SeedsLine | src/act/ldmx/aCTLDMXGetJobs.py:194-195 | a `sim.randomSeeds` line lists the two seeds, 0 for a seed the variant lacks |
| Templates.InputFileLine | src/act/ldmx/aCTLDMXGetJobs.py:192-193 | a `p.inputFiles` line lists the name part of the `scope:name` input file |
| Templates.RenderIdempotent | src/act/ldmx/aCTLDMXGetJobs.py:187-197 | rendering a rendered template again changes nothing |
| Replicas.SplitIdentifierShape | src/act/ldmx/aCTLDMXGetJobs.py:24-27 | an identifier splits into (scope, name) exactly when it is `scope:name` with a single ':' |
| Replicas.SplitIdentifierRejects | src/act/ldmx/aCTLDMXGetJobs.py:24-27 | the split fails exactly when the identifier has no such form (raising "not correctly formatted") |
| Replicas.ScanReplicas | src/act/ldmx/aCTLDMXGetJobs.py:57-65 | the scan over a file's storage elements gives the classified configuration, or the failure of indexing an empty URL list |
| Replicas.ClassifyFails | src/act/ldmx/aCTLDMXGetJobs.py:57-65 | the scan fails exactly when some storage element lists no URL |
| Replicas.ClassifyLocalLatest | src/act/ldmx/aCTLDMXGetJobs.py:58-61 | the local location is the first URL, without `file://`, of the last local storage element |
| Replicas.ClassifyNoLocal | src/act/ldmx/aCTLDMXGetJobs.py:58-61 | without local storage elements the local keys keep the request's values |
| Replicas.ClassifyRemoteLatest | src/act/ldmx/aCTLDMXGetJobs.py:62-65 | the remote location is the first URL of the last storage element whose first URL is not `file://` |
| Replicas.ClassifyNoRemote | src/act/ldmx/aCTLDMXGetJobs.py:62-65 | when every first URL is `file://` the remote keys keep the request's values |
| Replicas.ClassifyOtherKeys | src/act/ldmx/aCTLDMXGetJobs.py:57-65 | the scan touches no key other than the four location keys |
| Replicas.ResolveInput | src/act/ldmx/aCTLDMXGetJobs.py:53-73 | a resolved input file has a local location and a local or remote storage element |
| Replicas.ResolveInputKeys | src/act/ldmx/aCTLDMXGetJobs.py:53-65 | the variant names its input file `scope:name` and keeps every other non-location key of the request |
| Replicas.ResolveInputDefaultLocal | src/act/ldmx/aCTLDMXGetJobs.py:71-73 | without a local replica the local location is `./` followed by the file name |
| Replicas.ResolveInputUnusable | src/act/ldmx/aCTLDMXGetJobs.py:67-69 | a file with neither a local nor a remote replica raises "no usable locations" |
| Replicas.ScanPileup | src/act/ldmx/aCTLDMXGetJobs.py:79-81 | the pileup scan gives the pileup location, or the failure of indexing an empty URL list |
| Replicas.PileupLatest | src/act/ldmx/aCTLDMXGetJobs.py:79-81 | the pileup location is the first URL of the last storage element whose first URL is not `file://` |
| Replicas.PileupNone | src/act/ldmx/aCTLDMXGetJobs.py:79-81 | when every first URL is `file://`, the pileup location is left as it was |
| Replicas.PileupFails | src/act/ldmx/aCTLDMXGetJobs.py:79-81 | the pileup scan fails exactly when some storage element lists no URL |
| Replicas.AttachPileup | src/act/ldmx/aCTLDMXGetJobs.py:76-84 | an attached pileup file has a location and the local name `./` followed by its name |
| Replicas.AttachPileupUnusable | src/act/ldmx/aCTLDMXGetJobs.py:82-83 | a pileup file with only `file://` replicas raises "no suitable locations" |
| Pileup.Extend | src/act/ldmx/aCTLDMXGetJobs.py:42-45 | extending fails exactly for an empty pileup with files to cover; otherwise it covers every file |
| Pileup.ExtendContents | src/act/ldmx/aCTLDMXGetJobs.py:42-45 | a pileup at least as long as the inputs is kept; a shorter one is repeated `n // len + 1` times, so each file count is multiplied by that number |
| Pileup.Shuffle | src/act/ldmx/aCTLDMXGetJobs.py:46 | the in-place Fisher-Yates shuffle of the array leaves it equal to the shuffle function of the old contents and the draws |
| Pileup.ShufflePermutes | src/act/ldmx/aCTLDMXGetJobs.py:46 | every shuffle is a permutation of its input |
| Expansion.IntField | src/act/ldmx/aCTLDMXGetJobs.py:97-99 | a missing seed start or job count raises as a missing key |
| Expansion.IntFieldText | src/act/ldmx/aCTLDMXGetJobs.py:97-99 | the text of an integer is read back as that integer |
| Expansion.ListDataset | src/act/ldmx/aCTLDMXGetJobs.py:24-30 | a dataset is listed only when the request names it |
| Expansion.FileVariant | src/act/ldmx/aCTLDMXGetJobs.py:50-94 | variant i carries run number i + 1 and the catalogue's metadata of its file |
| Expansion.FileVariantKeys | src/act/ldmx/aCTLDMXGetJobs.py:53-94 | a variant names its input file and keeps every request key other than the ones the loop sets |
| Expansion.PerFileJobs | src/act/ldmx/aCTLDMXGetJobs.py:50-94 | the per-file loop gives all file variants, or the first failure |
| Expansion.FileVariantsEach | src/act/ldmx/aCTLDMXGetJobs.py:50-94 | the loop succeeds exactly when each file's variant does, and variant i is built from file i and pileup file i |
| Expansion.PileupOrder | src/act/ldmx/aCTLDMXGetJobs.py:41-46 | the shuffled pileup fails exactly when it is empty and there are input files, and otherwise covers every input file |
| Expansion.PileupOrderPermutes | src/act/ldmx/aCTLDMXGetJobs.py:42-46 | the shuffled pileup is a permutation of the extended pileup |
| Expansion.SeedVariantKeys | src/act/ldmx/aCTLDMXGetJobs.py:101-105 | seeded variant n has seeds start1 + n and start2 + n, run number start1 + n, and every other key of the request |
| Expansion.SeedSnapshot | src/act/ldmx/aCTLDMXGetJobs.py:102-105 | updating the shared dictionary again overwrites the earlier numbers, so each yielded snapshot depends only on n |
| Expansion.SeededJobs | src/act/ldmx/aCTLDMXGetJobs.py:96-106 | a seeded request gives `NumberofJobs` variants (none when it is not positive) with consecutive seeds |
| Expansion.SharedConfig.SeedJobs | src/act/ldmx/aCTLDMXGetJobs.py:101-106 | the seeded loop yields the snapshots of the shared dictionary and leaves it holding the last variant |
| Expansion.ExpandPerFile | src/act/ldmx/aCTLDMXGetJobs.py:22-94 | an input dataset gives one variant per file in listing order, numbered from 1 |
| Expansion.ExpandWithPileup | src/act/ldmx/aCTLDMXGetJobs.py:33-84 | with a pileup dataset, variant i reads file i of the shuffled, extended pileup |
| Expansion.ExpandSeeded | src/act/ldmx/aCTLDMXGetJobs.py:95-106 | a request without input dataset expands to the seeded series of its starts and job count |
| Expansion.ExpandEmptyPileup | src/act/ldmx/aCTLDMXGetJobs.py:42-45 | an empty pileup dataset for a non-empty input dataset raises |
| Expansion.GenerateJobs | src/act/ldmx/aCTLDMXGetJobs.py:20-106 | the generator gives the expansion of the old shared dictionary. It changes that dictionary only in seeded mode. There, with readable starts and job count, the dictionary ends holding the last variant, or unchanged when the count is not positive |
| Ingestion.ProtocolUrl | src/act/ldmx/aCTLDMXGetJobs.py:119 | the output base URL is never empty |
| Ingestion.OutputBase | src/act/ldmx/aCTLDMXGetJobs.py:108-119 | no destination gives no base; a destination fails exactly when it has no protocols, and otherwise uses the first protocol |
| Ingestion.OutputBaseLine | src/act/ldmx/aCTLDMXGetJobs.py:176-177 | the description carries a `FinalOutputBasePath` line exactly when the request names a destination |
| Ingestion.PlanOfCases | src/act/ldmx/aCTLDMXGetJobs.py:147-171 | a request is skipped exactly when its template is not named or not found; a planned request carries its batch id, output base and expansion |
| Ingestion.PlanRequest | src/act/ldmx/aCTLDMXGetJobs.py:147-171 | the reading steps give the plan of the request |
| Ingestion.WrittenEach | src/act/ldmx/aCTLDMXGetJobs.py:171-198 | writing completes exactly when every variant's template renders, and pair i holds variant i's description and rendered template |
| Ingestion.Scratch.Write | src/act/ldmx/aCTLDMXGetJobs.py:172-186 | a temporary file is added under the next name, holding the text |
| Ingestion.WriteVariant | src/act/ldmx/aCTLDMXGetJobs.py:172-197 | one variant writes its description file, then its template file, which keeps the lines rendered before a raise |
| Ingestion.FailedStep | src/act/ldmx/aCTLDMXGetJobs.py:184-197 | a variant whose template raises leaves the files written before it, its description and its partial template, and ends the writing |
| Ingestion.WriteVariants | src/act/ldmx/aCTLDMXGetJobs.py:170-198 | the writing loop leaves the scratch directory holding, in order, both files of each variant written in full; when a template raises, that variant's description and the part of its template written before the raise follow |
| Ingestion.InsertVariants | src/act/ldmx/aCTLDMXGetJobs.py:200-201 | one `new` job per written pair in order, with consecutive ids, the proxy and the batch id |
| Ingestion.ApplyPlan | src/act/ldmx/aCTLDMXGetJobs.py:165-205 | carrying out a plan changes the tables as the plan's specification says |
| Ingestion.AppliedRows | src/act/ldmx/aCTLDMXGetJobs.py:165-205 | no job is added unless every variant rendered; then one job per variant, pointing at files with its description and rendered template |
| Ingestion.IngestOneRows | src/act/ldmx/aCTLDMXGetJobs.py:145-206 | the same for one request file |
| Ingestion.IngestRequest | src/act/ldmx/aCTLDMXGetJobs.py:145-206 | ingesting one request changes the tables as its specification says |
| Ingestion.IngestFromGrows | src/act/ldmx/aCTLDMXGetJobs.py:138-206 | the intake only appends: old files and jobs are kept, new jobs are `new` with consecutive ids and the proxy |
| Ingestion.KeptRequests | src/act/ldmx/aCTLDMXGetJobs.py:141-206 | after the intake, the buffer holds exactly the request files modified less than five seconds ago, times compared in fractional seconds |
| Ingestion.RequestBuffer.Remove | src/act/ldmx/aCTLDMXGetJobs.py:206 | removing a request file drops exactly that path |
| Ingestion.RemoveAt | src/act/ldmx/aCTLDMXGetJobs.py:150-206 | removing the current settled file moves the buffer one step towards the kept files |
| Ingestion.GetNewJobs | src/act/ldmx/aCTLDMXGetJobs.py:121-206 | without a proxy nothing changes; otherwise the buffer keeps its unsettled files and the tables are the intake of the listing |
| Archiving.GroupStatuses | src/act/ldmx/aCTLDMXGetJobs.py:212-216 | the grouping gives each batch of the job table, in first-seen order, with the set of its jobs' statuses |
| Archiving.BatchOrderMembers | src/act/ldmx/aCTLDMXGetJobs.py:213-218 | the batches visited are exactly the batch ids in the table, each once |
| Archiving.BatchSelector | src/act/ldmx/aCTLDMXGetJobs.py:223 | the corrected selector picks exactly the jobs of the batch |
| Archiving.ArchivedEligible | src/act/ldmx/aCTLDMXGetJobs.py:209-233 | the jobs left are those of batches that still have a job not terminal; the archive gains the rows of the others; no row is lost |
| Archiving.RetiredJobs | src/act/ldmx/aCTLDMXGetJobs.py:218-233 | the archived jobs are exactly the jobs of the eligible batches |
| Archiving.ArchiveFromBatches | src/act/ldmx/aCTLDMXGetJobs.py:218-233 | taking the batches one by one moves exactly the jobs of the eligible batches in batch order |
| Archiving.MoveJobs | src/act/ldmx/aCTLDMXGetJobs.py:230-233 | each selected job is copied to the archive and deleted from the job table |
| Archiving.ArchiveBatch | src/act/ldmx/aCTLDMXGetJobs.py:223-233 | archiving one batch with the query as written (an empty batch id selects `batchid is NULL`) moves exactly the jobs that query selects, and the job id counter is unchanged |
| Archiving.ArchiveBatches | src/act/ldmx/aCTLDMXGetJobs.py:209-233 | the archiving pass leaves the tables as `Archived` with the query as written says, and the job id counter is unchanged |
| Archiving.WrittenArchivesWrongBatch | src/act/ldmx/aCTLDMXGetJobs.py:223 | as written, a finished batch with the empty id archives the running job that has no batch, and keeps the finished one |
| Archiving.BatchArchivesFinished | src/act/ldmx/aCTLDMXGetJobs.py:223 | with the corrected selector the same tables archive the finished job and keep the running one |
| Archiving.ArchiveFromAgree | src/act/ldmx/aCTLDMXGetJobs.py:218-233 | two ways of building the query that agree on every batch visited archive alike |
| Archiving.WrittenAgrees | src/act/ldmx/aCTLDMXGetJobs.py:223 | when no job has the empty batch id, the pass as written equals the corrected one, so `ArchivedEligible` holds for it |
| Xrsl.NumberField | src/act/ldmx/aCTLDMX2Arc.py:65-67 | a resource value is its default when absent, the integer its text denotes, or an error |
| Xrsl.CreateXrsl | src/act/ldmx/aCTLDMX2Arc.py:60-99 | a description starts with '&' and exists exactly when its clauses can be built |
| Xrsl.XrslFails | src/act/ldmx/aCTLDMX2Arc.py:65-87 | building raises exactly for a bad memory or wall time, or a download input without ':' or without remote location |
| Xrsl.ResourceClauses | src/act/ldmx/aCTLDMX2Arc.py:65-67 | wall time and CPU time are the same number, 240 by default; memory is 2000.0 by default |
| Xrsl.RteOrder | src/act/ldmx/aCTLDMX2Arc.py:68-72 | the job's own runtime environment comes first, and the simulation production one always comes last |
| Xrsl.InputEntriesShape | src/act/ldmx/aCTLDMX2Arc.py:81-90 | four shipped files first; an uncached download exactly when there is no local copy of the input, a cached pileup entry exactly when there is a pileup location |
| Xrsl.DownloadEntry | src/act/ldmx/aCTLDMX2Arc.py:85-87 | the download entry is named after the file's name part and fetched from the remote location, uncached |
| Xrsl.PileupEntryName | src/act/ldmx/aCTLDMX2Arc.py:88-89 | the pileup entry is named after the last path segment of its URL, cached |
| Xrsl.XrslLines | src/act/ldmx/aCTLDMX2Arc.py:99 | after the '&', the description is exactly its clauses, one per line |
| Dispatch.PendingJobs | src/act/ldmx/aCTLDMX2Arc.py:16 | the cycle takes `new` jobs only, all of them when there are at most 100, otherwise exactly 100 |
| Dispatch.ClusterListChoice | src/act/ldmx/aCTLDMX2Arc.py:30 | a job goes to its local storage element's cluster when known, otherwise to all endpoints |
| Strings.Take | src/act/ldmx/aCTLDMX2Arc.py:37 | `s[:n]`: the whole text when it has at most n characters, otherwise exactly its first n |
| Dispatch.Prepare | src/act/ldmx/aCTLDMX2Arc.py:19-37 | with either read, a prepared job has an xRSL starting with '&' and a fair-share group that is the first 50 characters of its batch id (all of it when shorter) |
| Dispatch.PrepareFails | src/act/ldmx/aCTLDMX2Arc.py:19-37 | with either read, preparing raises for a missing file, a line without '=', a failing xRSL or a missing batch id |
| Dispatch.PreparerShaped | src/act/ldmx/aCTLDMX2Arc.py:22-37 | the preparer meets the shape the loop's properties assume |
| Dispatch.SubmittedFailure | src/act/ldmx/aCTLDMX2Arc.py:17-45 | the cycle completes exactly when every pending job prepares; otherwise it stops at the first failing job |
| Dispatch.SubmittedExtends | src/act/ldmx/aCTLDMX2Arc.py:17-45 | the cycle changes only statuses and ARC ids, and appends well-formed rows with consecutive ids |
| Dispatch.SubmittedStatus | src/act/ldmx/aCTLDMX2Arc.py:39-45 | a handled job ends `failed` when its row is refused and `waiting` otherwise; other jobs are unchanged |
| Dispatch.SubmittedLinked | src/act/ldmx/aCTLDMX2Arc.py:32-45 | every waiting job points at an ARC row whose application id is the job's id |
| Dispatch.DispatchedEffects | src/act/ldmx/aCTLDMX2Arc.py:13-57 | the whole cycle, with either read: the row extension, the completion condition and the final status of each job |
| Dispatch.PrepareAgrees | src/act/ldmx/aCTLDMX2Arc.py:19-20 | a job whose description holds no second '=' on any line is prepared alike by both reads |
| Dispatch.SubmittedAgree | src/act/ldmx/aCTLDMX2Arc.py:17-45 | two preparers that agree on the jobs taken give the same cycle |
| Dispatch.DispatchedAgrees | src/act/ldmx/aCTLDMX2Arc.py:13-57 | the cycle as written equals the cycle with the full read when no description line of a taken job holds a second '=' |
| Dispatch.SubmitJob | src/act/ldmx/aCTLDMX2Arc.py:19-45 | one turn of the loop as written, with the truncating read, changes the tables as the turn's specification says |
| Dispatch.ProcessNewJobs | src/act/ldmx/aCTLDMX2Arc.py:13-57 | the loop as written changes the tables and the ARC counter as `Dispatched` with the truncating read says; the archive and the job id counter are unchanged |
| Stores.LdmxStore.InsertJob | src/act/ldmx/aCTLDMXGetJobs.py:201 | a `new` row with the next id is appended |
| Stores.LdmxStore.UpdateJob | src/act/ldmx/aCTLDMX2Arc.py:41-45 | only the row of the id gets the new status and ARC id |
| Stores.LdmxStore.DeleteJob | src/act/ldmx/aCTLDMXGetJobs.py:233 | the table loses the row of the id and keeps ids ordered |
| Stores.LdmxStore.InsertArchive | src/act/ldmx/aCTLDMXGetJobs.py:232 | the archive gains the row |
| Stores.ArcStore.Insert | src/act/ldmx/aCTLDMX2Arc.py:32-39 | an accepted row is appended under the next id, which is returned; a refused one changes nothing |
| Stores.WithoutIdRows | src/act/ldmx/aCTLDMXGetJobs.py:233 | deleting keeps exactly the rows of other ids |
| Stores.WithoutIdOrdered | src/act/ldmx/aCTLDMXGetJobs.py:233 | deleting keeps the ids ordered |
| Panda.FirstInt | src/act/atlas/aCTPanda2Arc.py:22-33 | the first list item as an integer, or the default when the list is empty or the item is not an integer |
| Panda.SiteOf | src/act/atlas/aCTPanda2Arc.py:19-33 | a full site entry: endpoints, the first scheduler configuration, core count defaulting to 1, the site catalogue or the global one, true pilot defaulting to 0 |
| Panda.SetOne | src/act/atlas/aCTPanda2Arc.py:19-33 | one name's entry is replaced by its full entry, the other entries kept; it fails exactly when the scheduler configuration is missing |
| Panda.SetAllFailure | src/act/atlas/aCTPanda2Arc.py:18-21 | building the site table succeeds exactly when every name has a scheduler configuration |
| Panda.SetAllKeeps | src/act/atlas/aCTPanda2Arc.py:18-19 | entries for other names stay: the table is the old one plus the configured names |
| Panda.SetAllSites | src/act/atlas/aCTPanda2Arc.py:18-33 | every configured name ends with its full site entry |
| Panda.SetAllFails | src/act/atlas/aCTPanda2Arc.py:19-21 | the first name without a scheduler configuration raises, and is left with its endpoints only |
| Panda.Panda2Arc.constructor | src/act/atlas/aCTPanda2Arc.py:10-14 | the submitter starts with the site table `setSites` builds from an empty table |
| Panda.Panda2Arc.SetSites | src/act/atlas/aCTPanda2Arc.py:17-33 | the loop over the site names changes the table as the specification of `setSites` says, stopping at the raise |
| Panda.Panda2Arc.SetSite | src/act/atlas/aCTPanda2Arc.py:19-33 | one turn of that loop |
| Panda.Pending | src/act/atlas/aCTPanda2Arc.py:37 | at most 10000 jobs are taken: all jobs without an ARC job when there are at most 10000, exactly 10000 otherwise |
| Panda.PendingMembers | src/act/atlas/aCTPanda2Arc.py:37 | taken jobs have no ARC job; all such jobs are taken when there are at most 10000 |
| Panda.PandaStore.Assign | src/act/atlas/aCTPanda2Arc.py:77-82 | the job points at its ARC job and is `starting` and `sent` |
| Panda.Location | src/act/atlas/aCTPanda2Arc.py:53-54 | an endpoint gives its host followed by its path, and raises when it has no host |
| Panda.ClusterListParts | src/act/atlas/aCTPanda2Arc.py:51-55 | the cluster list exists exactly when every endpoint has a host, and splits at ',' into the endpoints' host and path |
| Panda.BuildClusterList | src/act/atlas/aCTPanda2Arc.py:51-55 | the loop over the endpoints gives the cluster list |
| Panda.MaxAttempts | src/act/atlas/aCTPanda2Arc.py:57-59 | 30 attempts exactly at site `BOINC`, 5 everywhere else |
| Panda.DownloadStartsWithErrors | src/act/atlas/aCTPanda2Arc.py:62 | the files to download always start with `gmlog/errors` |
| Panda.DownloadFilesSplit | src/act/atlas/aCTPanda2Arc.py:62-68 | the download list is the error directory, then `jobSmallFiles.tgz` unless the site has true pilots, then the log file without `.tgz` |
| Panda.LogEntryStem | src/act/atlas/aCTPanda2Arc.py:66 | a log file `stem.tgz` is listed as `stem` |
| Panda.SiteFor | src/act/atlas/aCTPanda2Arc.py:41-43 | looking up the job's site fails for an unknown site, and for one without a scheduler configuration |
| Panda.CreatedExtends | src/act/atlas/aCTPanda2Arc.py:35-82 | each job is left as it was or handed to ARC (ARC id set, `starting`, `sent`); the ARC table only grows, by rows with consecutive ids, 5 or 30 attempts, downloads starting with `gmlog/errors` and no fair-share group |
| Panda.CreatedLinked | src/act/atlas/aCTPanda2Arc.py:70-82 | every job the cycle marks `sent` points at an ARC row whose application id is its PanDA id |
| Panda.CreatedOwnRows | src/act/atlas/aCTPanda2Arc.py:44-72 | every inserted row carries the xRSL of its own job, never another job's |
| Panda.CreatedUntouched | src/act/atlas/aCTPanda2Arc.py:37-82 | jobs outside the taken ones are not changed |
| Panda.CreatedAllEffects | src/act/atlas/aCTPanda2Arc.py:35-82 | the whole cycle: the appended rows, the links, and only taken jobs changed |
| Panda.StaleDescription | src/act/atlas/aCTPanda2Arc.py:45-49 | as written, a job whose `getXrsl` raises is inserted with the previous job's xRSL |
| Panda.StaleDescriptionExample | src/act/atlas/aCTPanda2Arc.py:45-49 | a concrete cycle: the second job is inserted with the first job's `&(a)` |
| Panda.InsertEffects | src/act/atlas/aCTPanda2Arc.py:51-82 | an insertion hands the job to ARC only with the row inserted for it, a well-formed row under the next id |
| Panda.SubmitAsWrittenEffects | src/act/atlas/aCTPanda2Arc.py:39-82 | one turn as written also only hands its job to ARC with its own row and appends at most one well-formed row |
| Panda.CreatedAsWrittenEffects | src/act/atlas/aCTPanda2Arc.py:35-82 | even as written, jobs are only handed to ARC, each with a row inserted under its PanDA id, and the ARC table only grows by well-formed rows with consecutive ids |
| Panda.CreatedAsWrittenAgrees | src/act/atlas/aCTPanda2Arc.py:44-49 | when no `getXrsl` of a taken job raises, the loop as written is the loop that skips such jobs, whatever `xrsl` held before |
| Panda.CreatedAllAgrees | src/act/atlas/aCTPanda2Arc.py:35-82 | so `CreatedAllEffects` and `CreatedOwnRows` hold for the cycle as written whenever no `getXrsl` of a taken job raises |
| Panda.Panda2Arc.SubmitJob | src/act/atlas/aCTPanda2Arc.py:39-82 | one turn as written, with the variable `xrsl` carried in and out, changes both tables as `SubmitAsWritten` says |
| Panda.Panda2Arc.CreateArcJobs | src/act/atlas/aCTPanda2Arc.py:35-82 | the loop as written, with `xrsl` unassigned at the start, changes both tables as `CreatedAllAsWritten` says |
| Panda.Panda2Arc.Process | src/act/atlas/aCTPanda2Arc.py:85-87 | the site table is rebuilt; a raise leaves the job table, the ARC rows and the ARC id counter alone; otherwise the cycle as written runs on the new sites |

## Left out

- Logging, `print self.sites`, and the database commits are left out. Each table operation takes effect at once.
- The filesystem is given as values:
  - `os.listdir`/`isfile` give a listing of request files;
  - `open`/`readlines` give file texts;
  - `os.makedirs` and `os.path.join` are not modelled;
  - template files are a map from name to text.
- Temporary file names are a parameter. `NamedTemporaryFile`'s random part is the environment's suffix function.
- The clock (`time.time`, `time.strftime`) is a parameter: the current time and the timestamp text. The current time and the files' modification times are real numbers of seconds, so the five-second comparison keeps fractions as the float comparison does; float rounding is not modelled.
- Rucio is given as values:
  - `list_replicas` and `get_did_meta` are a catalogue map;
  - `get_protocols` is a map from storage element to its protocols;
  - an exception from the catalogue is an absent key.

  Listing the same dataset twice (lines 30 and 49) is modelled as a single listing.
- Expansion.PerFileJobs: the `if not f` check (`aCTLDMXGetJobs.py` 51) cannot fire in the model. Every replica has a scope, a name and its storage elements, so it is never an empty dictionary.
- Strings.ParseInt: only ASCII decimal digits are accepted. Python's `int()` also accepts underscores between digits (`1_000`) and other Unicode decimal digits; for those the model gives no value where the source gives a number.
- Strings.Lines: the file texts are taken after universal-newline translation. Python's text mode ends a line at `\r\n` or a lone `\r` and turns both into `\n`; the model splits at `\n` only, so a text still holding `\r` would keep it in its lines.
- `json.dumps` of the metadata is not modelled: the catalogue supplies the metadata text directly.
- `random.shuffle` draws from a random source. It is modelled as the Fisher-Yates swaps driven by an explicit sequence of draws.
- Xrsl.NumberField: `JobMemory` is accepted only as an integer. `float()` would also accept decimal and exponent forms, `inf` and `nan`, which are not modelled.
- Xrsl.MemoryText: the text matches Python's `float` formatting only while the memory times 1000 is below 10^16 in magnitude. From 10^16 on Python prints the exponent form (`1e+16`), and large products may be rounded; neither is modelled. A `JobMemory` of `-0` prints `-0.0` in Python and `0.0` here.
- Ingestion.PlanOf: an expansion failure is raised before any file is written. In the source the generator is lazy, so temporary files for the variants before the failing one are written and left behind. The job rows are the same either way.
- Ingestion.GetNewJobs: the first-proxy query (`getProxiesInfo`) is a parameter, absent when no proxy is found.
- Dispatch.Pending: the 100 jobs are the first `new` jobs in table order. The source orders by modification time, which the model does not record.
- Dispatch.ProcessNewJobs: an exception (missing file, bad description, missing batch id) ends the cycle with the earlier updates kept. In the source those were lazy updates, still uncommitted.
- Dispatch: the `if not xrsl` branch (`aCTLDMX2Arc.py` 23-27) is never taken. Xrsl.CreateXrsl proves that a description always starts with '&'.
- Dispatch: the xRSL dump to the job log directory (`aCTLDMX2Arc.py` 47-54) is file output and is left out.
- Which inserts the database refuses (`if not arcid`, `if not aid`) is a parameter: the set of job ids whose rows are refused.
- Archiving.ArchiveBatch: the batch id is pasted into the query unquoted (`batchid='{batchid}'`). An id holding a `'` changes the SQL; the model selects by exact id instead.
- Archiving: the `GROUP BY` result order is taken as first-seen order in the table. Each batch's jobs are selected from the table as it stands when that batch is reached.
- `process()` in `aCTLDMXGetJobs.py` (lines 236 onwards) is not modelled: neither the sequencing of intake and archiving nor the hourly archiving schedule.
- The PanDA job description parser (`aCTPanda2Xrsl`) is not part of this model. What `parse`, `getXrsl` and `jobdesc['logFile']` give for each job at each site is a parameter.
- `urlparse` is not modelled: endpoints are given already parsed into scheme, host, port and path. Lower-casing of host names is not modelled.
- The site configuration (`aCTConfig`) is given as the site names in order, the lists each name has, and the global catalogue.
- Panda.Panda2Arc.constructor requires the first `setSites` to succeed. In the source a raise there aborts construction.
- Panda.Pending: the 10000 jobs are the first ones without an ARC job in table order. The query gives no order.
- The `__main__` run loop of `aCTPanda2Arc.py` (lines 90-94) is not modelled.

## Findings

| source | as written | input that shows it | evidently intended | confidence | as-written member | corrected member |
|---|---|---|---|---|---|---|
| src/act/ldmx/aCTLDMXGetJobs.py:223 | the selector tests the batch id for truth, so the empty batch id selects `batchid is NULL` | a finished job of batch `""` beside a running job without batch: the running job is archived and the finished one stays | select the jobs of the batch itself, also for the empty id | not executed | Archiving.WrittenArchivesWrongBatch | Archiving.BatchArchivesFinished |
| src/act/ldmx/aCTLDMX2Arc.py:20 | the value is the text between the first and second '=', so the rest of a value containing '=' is lost | a description line `InputDataLocationRemote=https://se/f?a=b` reads back as `https://se/f?a` | the value is the whole text after the first '=' | not executed | RequestFormat.TruncatedValue | RequestFormat.DescriptionRoundTrip |
| src/act/atlas/aCTPanda2Arc.py:45-49 | when `getXrsl` raises, `xrsl` keeps the previous job's value (or is unbound for the first job, raising `NameError`) | job 1's parser gives `&(a)` and job 2's `getXrsl` raises: job 2 is inserted with `&(a)` | a job whose description cannot be made is skipped | not executed | Panda.StaleDescriptionExample | Panda.CreatedOwnRows |
