/** Where the input and pileup files of a variant are read from: the replica
    listing of a file is scanned RSE by RSE, a replica at a configured local
    RSE giving the local location and one not served by `file://` the remote
    location. */
module Replicas {
  import opened Basics
  import opened Strings
  import opened Dicts

  const InputFileKey := "InputFile"
  const LocalKey := "InputDataLocationLocal"
  const LocalRseKey := "InputDataLocationLocalRSE"
  const RemoteKey := "InputDataLocationRemote"
  const RemoteRseKey := "InputDataLocationRemoteRSE"
  const PileupKey := "PileupLocation"
  const PileupLocalKey := "PileupLocationLocal"
  const FileScheme := "file://"

  /** One file of a dataset listing: its scope and name, and for each RSE
      holding it the URLs of its replicas there, in listing order. */
  datatype Replica = Replica(scope: string, name: string, rses: seq<(string, seq<string>)>)

  /** The four keys the replica scan may set. */
  predicate LocationKey(k: string) {
    k == LocalKey || k == LocalRseKey || k == RemoteKey || k == RemoteRseKey
  }

  /** `scope, name = id.split(':')`, which raises unless there are exactly two parts. */
  function SplitIdentifier(id: string): Result<(string, string)> {
    var parts := Split(id, ':');
    if |parts| == 2 then Ok((parts[0], parts[1])) else Err(MalformedIdentifier(id))
  }

  /** An identifier splits into `scope` and `name` exactly when it is
      `scope:name` with no other ':'. */
  lemma {:induction false} SplitIdentifierShape(id: string, scope: string, name: string)
    ensures SplitIdentifier(id) == Ok((scope, name)) <==> (id == scope + ":" + name && ':' !in scope && ':' !in name)
  {
    TwoParts(id, ':', scope, name);
  }

  /** An identifier with no ':' or with more than one is rejected. */
  lemma {:induction false} SplitIdentifierRejects(id: string)
    ensures SplitIdentifier(id).Err? <==> forall a, b :: !(id == a + ":" + b && ':' !in a && ':' !in b)
  {
    if SplitIdentifier(id).Ok? {
      var p := SplitIdentifier(id).value;
      SplitIdentifierShape(id, p.0, p.1);
    }
    forall a, b | id == a + ":" + b && ':' !in a && ':' !in b ensures SplitIdentifier(id).Ok? {
      SplitIdentifierShape(id, a, b);
    }
  }

  /** One RSE of the scan: `rep[0]` raises on an empty list, a local RSE sets
      the local location without its `file://`, a URL not starting with
      `file://` sets the remote location. */
  function ReplicaStep(cfg: Dict, rses: map<string, string>, rse: string, urls: seq<string>): Result<Dict> {
    if urls == [] then Err(EmptyReplicaList(rse))
    else
      var u := urls[0];
      var local := if rse in rses then Set(Set(cfg, LocalKey, Str(Remove(u, FileScheme))), LocalRseKey, Str(rse)) else cfg;
      if !StartsWith(u, FileScheme) then Ok(Set(Set(local, RemoteKey, Str(u)), RemoteRseKey, Str(rse)))
      else Ok(local)
  }

  /** The scan over all RSEs of a file, in listing order. */
  function Classify(cfg: Dict, rses: map<string, string>, entries: seq<(string, seq<string>)>): Result<Dict> {
    if entries == [] then Ok(cfg)
    else
      match Classify(cfg, rses, entries[..|entries| - 1])
      case Err(f) => Err(f)
      case Ok(prev) => ReplicaStep(prev, rses, entries[|entries| - 1].0, entries[|entries| - 1].1)
  }

  /** The scan loop, setting the location keys of the variant one RSE after another. */
  method ScanReplicas(cfg: Dict, rses: map<string, string>, entries: seq<(string, seq<string>)>) returns (r: Result<Dict>)
    ensures r == Classify(cfg, rses, entries)
  {
    var c := cfg;
    var i := 0;
    while i < |entries|
      invariant 0 <= i <= |entries|
      invariant Classify(cfg, rses, entries[..i]) == Ok(c)
    {
      assert entries[..i + 1][..i] == entries[..i];
      var (rse, urls) := entries[i];
      if urls == [] {
        ClassifyFailsFrom(cfg, rses, entries, i + 1);
        return Err(EmptyReplicaList(rse));
      }
      var u := urls[0];
      if rse in rses {
        c := Set(c, LocalKey, Str(Remove(u, FileScheme)));
        c := Set(c, LocalRseKey, Str(rse));
      }
      if !StartsWith(u, FileScheme) {
        c := Set(c, RemoteKey, Str(u));
        c := Set(c, RemoteRseKey, Str(rse));
      }
      i := i + 1;
    }
    assert entries[..i] == entries;
    return Ok(c);
  }

  /** Once the scan of a prefix fails, the whole scan fails the same way. */
  lemma {:induction false} ClassifyFailsFrom(cfg: Dict, rses: map<string, string>, entries: seq<(string, seq<string>)>, j: nat)
    requires j <= |entries|
    requires Classify(cfg, rses, entries[..j]).Err?
    ensures Classify(cfg, rses, entries) == Classify(cfg, rses, entries[..j])
    decreases |entries| - j
  {
    if j < |entries| {
      var t := entries[..j + 1];
      assert t[..j] == entries[..j];
      assert Classify(cfg, rses, t) == Classify(cfg, rses, entries[..j]);
      ClassifyFailsFrom(cfg, rses, entries, j + 1);
    } else {
      assert entries[..j] == entries;
    }
  }

  /** The scan raises exactly when some RSE lists no URL. */
  lemma {:induction false} ClassifyFails(cfg: Dict, rses: map<string, string>, entries: seq<(string, seq<string>)>)
    ensures Classify(cfg, rses, entries).Ok? <==> forall j :: 0 <= j < |entries| ==> entries[j].1 != []
  {
    if entries != [] {
      var init := entries[..|entries| - 1];
      ClassifyFails(cfg, rses, init);
      forall j | 0 <= j < |init| ensures init[j] == entries[j] {
      }
    }
  }

  /** The scan sets no key but the four location keys. */
  lemma {:induction false} ClassifyOtherKeys(cfg: Dict, rses: map<string, string>, entries: seq<(string, seq<string>)>, k: string)
    requires Classify(cfg, rses, entries).Ok? && !LocationKey(k)
    ensures Get(Classify(cfg, rses, entries).value, k) == Get(cfg, k)
  {
    if entries != [] {
      ClassifyOtherKeys(cfg, rses, entries[..|entries| - 1], k);
    }
  }

  /** The local location comes from the last RSE of the listing that is local. */
  lemma {:induction false} ClassifyLocalLatest(cfg: Dict, rses: map<string, string>, entries: seq<(string, seq<string>)>, j: nat)
    requires Classify(cfg, rses, entries).Ok?
    requires j < |entries| && entries[j].0 in rses
    requires forall i :: j < i < |entries| ==> entries[i].0 !in rses
    ensures entries[j].1 != []
    ensures var r := Classify(cfg, rses, entries).value;
      Get(r, LocalKey) == Some(Str(Remove(entries[j].1[0], FileScheme))) && Get(r, LocalRseKey) == Some(Str(entries[j].0))
  {
    ClassifyFails(cfg, rses, entries);
    var init := entries[..|entries| - 1];
    if j < |entries| - 1 {
      assert init[j] == entries[j];
      forall i | j < i < |init| ensures init[i].0 !in rses {
        assert init[i] == entries[i];
      }
      ClassifyLocalLatest(cfg, rses, init, j);
    }
  }

  /** Without a local RSE in the listing, the local keys keep what the
      configuration had. */
  lemma {:induction false} ClassifyNoLocal(cfg: Dict, rses: map<string, string>, entries: seq<(string, seq<string>)>)
    requires Classify(cfg, rses, entries).Ok?
    requires forall i :: 0 <= i < |entries| ==> entries[i].0 !in rses
    ensures var r := Classify(cfg, rses, entries).value;
      Get(r, LocalKey) == Get(cfg, LocalKey) && Get(r, LocalRseKey) == Get(cfg, LocalRseKey)
  {
    if entries != [] {
      var init := entries[..|entries| - 1];
      forall i | 0 <= i < |init| ensures init[i].0 !in rses {
        assert init[i] == entries[i];
      }
      ClassifyNoLocal(cfg, rses, init);
    }
  }

  /** The remote location comes from the last RSE whose first URL is not a
      `file://` URL. */
  lemma {:induction false} ClassifyRemoteLatest(cfg: Dict, rses: map<string, string>, entries: seq<(string, seq<string>)>, j: nat)
    requires Classify(cfg, rses, entries).Ok?
    requires j < |entries| && entries[j].1 != [] && !StartsWith(entries[j].1[0], FileScheme)
    requires forall i :: j < i < |entries| && entries[i].1 != [] ==> StartsWith(entries[i].1[0], FileScheme)
    ensures var r := Classify(cfg, rses, entries).value;
      Get(r, RemoteKey) == Some(Str(entries[j].1[0])) && Get(r, RemoteRseKey) == Some(Str(entries[j].0))
  {
    var init := entries[..|entries| - 1];
    if j < |entries| - 1 {
      assert init[j] == entries[j];
      forall i | j < i < |init| && init[i].1 != [] ensures StartsWith(init[i].1[0], FileScheme) {
        assert init[i] == entries[i];
      }
      ClassifyRemoteLatest(cfg, rses, init, j);
    }
  }

  /** Without a replica outside `file://`, the remote keys keep what the
      configuration had. */
  lemma {:induction false} ClassifyNoRemote(cfg: Dict, rses: map<string, string>, entries: seq<(string, seq<string>)>)
    requires Classify(cfg, rses, entries).Ok?
    requires forall i :: 0 <= i < |entries| && entries[i].1 != [] ==> StartsWith(entries[i].1[0], FileScheme)
    ensures var r := Classify(cfg, rses, entries).value;
      Get(r, RemoteKey) == Get(cfg, RemoteKey) && Get(r, RemoteRseKey) == Get(cfg, RemoteRseKey)
  {
    if entries != [] {
      var init := entries[..|entries| - 1];
      forall i | 0 <= i < |init| && init[i].1 != [] ensures StartsWith(init[i].1[0], FileScheme) {
        assert init[i] == entries[i];
      }
      ClassifyNoRemote(cfg, rses, init);
    }
  }

  /** `f'{scope}:{name}'` */
  function FileId(f: Replica): string {
    f.scope + ":" + f.name
  }

  /** The input part of a variant: the file's identifier, its locations, and
      `./<name>` as the local location when there is no local copy; a file
      with neither a local nor a remote location raises. */
  function ResolveInput(cfg: Dict, rses: map<string, string>, f: Replica): (r: Result<Dict>)
    ensures r.Ok? ==> Has(r.value, LocalKey) && (Has(r.value, LocalRseKey) || Has(r.value, RemoteRseKey))
  {
    match Classify(Set(cfg, InputFileKey, Str(FileId(f))), rses, f.rses)
    case Err(e) => Err(e)
    case Ok(c) =>
      if !Has(c, LocalRseKey) && !Has(c, RemoteRseKey) then Err(NoUsableLocation(FileId(f)))
      else if !Has(c, LocalKey) then Ok(Set(c, LocalKey, Str("./" + f.name)))
      else Ok(c)
  }

  /** The variant names the file it reads, and keeps every key of the
      configuration the scan does not set. */
  lemma {:induction false} ResolveInputKeys(cfg: Dict, rses: map<string, string>, f: Replica, k: string)
    requires ResolveInput(cfg, rses, f).Ok?
    ensures Get(ResolveInput(cfg, rses, f).value, InputFileKey) == Some(Str(FileId(f)))
    ensures !LocationKey(k) && k != InputFileKey ==> Get(ResolveInput(cfg, rses, f).value, k) == Get(cfg, k)
  {
    var c0 := Set(cfg, InputFileKey, Str(FileId(f)));
    ClassifyOtherKeys(c0, rses, f.rses, InputFileKey);
    if !LocationKey(k) {
      ClassifyOtherKeys(c0, rses, f.rses, k);
    }
  }

  /** A file with no local replica, in a configuration without a local
      location, is read from `./<name>` after ARC has fetched it. */
  lemma {:induction false} ResolveInputDefaultLocal(cfg: Dict, rses: map<string, string>, f: Replica)
    requires ResolveInput(cfg, rses, f).Ok?
    requires !Has(cfg, LocalKey)
    requires forall i :: 0 <= i < |f.rses| ==> f.rses[i].0 !in rses
    ensures Get(ResolveInput(cfg, rses, f).value, LocalKey) == Some(Str("./" + f.name))
  {
    var c0 := Set(cfg, InputFileKey, Str(FileId(f)));
    ClassifyNoLocal(c0, rses, f.rses);
  }

  /** A file neither at a local RSE nor outside `file://`, in a configuration
      without location keys, has no usable location. */
  lemma {:induction false} ResolveInputUnusable(cfg: Dict, rses: map<string, string>, f: Replica)
    requires !Has(cfg, LocalRseKey) && !Has(cfg, RemoteRseKey)
    requires forall i :: 0 <= i < |f.rses| ==> f.rses[i].0 !in rses && f.rses[i].1 != [] && StartsWith(f.rses[i].1[0], FileScheme)
    ensures ResolveInput(cfg, rses, f) == Err(NoUsableLocation(FileId(f)))
  {
    var c0 := Set(cfg, InputFileKey, Str(FileId(f)));
    ClassifyFails(c0, rses, f.rses);
    ClassifyNoLocal(c0, rses, f.rses);
    ClassifyNoRemote(c0, rses, f.rses);
  }

  /** The pileup scan: the last replica not served by `file://` gives the
      pileup location. */
  function PileupScan(cfg: Dict, entries: seq<(string, seq<string>)>): Result<Dict> {
    if entries == [] then Ok(cfg)
    else
      match PileupScan(cfg, entries[..|entries| - 1])
      case Err(f) => Err(f)
      case Ok(prev) =>
        var (rse, urls) := entries[|entries| - 1];
        if urls == [] then Err(EmptyReplicaList(rse))
        else if !StartsWith(urls[0], FileScheme) then Ok(Set(prev, PileupKey, Str(urls[0])))
        else Ok(prev)
  }

  method ScanPileup(cfg: Dict, entries: seq<(string, seq<string>)>) returns (r: Result<Dict>)
    ensures r == PileupScan(cfg, entries)
  {
    var c := cfg;
    var i := 0;
    while i < |entries|
      invariant 0 <= i <= |entries|
      invariant PileupScan(cfg, entries[..i]) == Ok(c)
    {
      assert entries[..i + 1][..i] == entries[..i];
      var (rse, urls) := entries[i];
      if urls == [] {
        PileupFailsFrom(cfg, entries, i + 1);
        return Err(EmptyReplicaList(rse));
      }
      if !StartsWith(urls[0], FileScheme) {
        c := Set(c, PileupKey, Str(urls[0]));
      }
      i := i + 1;
    }
    assert entries[..i] == entries;
    return Ok(c);
  }

  lemma {:induction false} PileupFailsFrom(cfg: Dict, entries: seq<(string, seq<string>)>, j: nat)
    requires j <= |entries|
    requires PileupScan(cfg, entries[..j]).Err?
    ensures PileupScan(cfg, entries) == PileupScan(cfg, entries[..j])
    decreases |entries| - j
  {
    if j < |entries| {
      var t := entries[..j + 1];
      assert t[..j] == entries[..j];
      assert PileupScan(cfg, t) == PileupScan(cfg, entries[..j]);
      PileupFailsFrom(cfg, entries, j + 1);
    } else {
      assert entries[..j] == entries;
    }
  }

  /** The pileup location is the first URL of the last RSE not served by `file://`. */
  lemma {:induction false} PileupLatest(cfg: Dict, entries: seq<(string, seq<string>)>, j: nat)
    requires PileupScan(cfg, entries).Ok?
    requires j < |entries| && entries[j].1 != [] && !StartsWith(entries[j].1[0], FileScheme)
    requires forall i :: j < i < |entries| && entries[i].1 != [] ==> StartsWith(entries[i].1[0], FileScheme)
    ensures Get(PileupScan(cfg, entries).value, PileupKey) == Some(Str(entries[j].1[0]))
  {
    var init := entries[..|entries| - 1];
    if j < |entries| - 1 {
      assert init[j] == entries[j];
      forall i | j < i < |init| && init[i].1 != [] ensures StartsWith(init[i].1[0], FileScheme) {
        assert init[i] == entries[i];
      }
      PileupLatest(cfg, init, j);
    }
  }

  /** The pileup scan sets nothing but the pileup location. */
  lemma {:induction false} PileupOtherKeys(cfg: Dict, entries: seq<(string, seq<string>)>, k: string)
    requires PileupScan(cfg, entries).Ok? && k != PileupKey
    ensures Get(PileupScan(cfg, entries).value, k) == Get(cfg, k)
  {
    if entries != [] {
      PileupOtherKeys(cfg, entries[..|entries| - 1], k);
    }
  }

  /** Without a replica outside `file://` the pileup location is what the
      configuration had. */
  lemma {:induction false} PileupNone(cfg: Dict, entries: seq<(string, seq<string>)>)
    requires PileupScan(cfg, entries).Ok?
    requires forall i :: 0 <= i < |entries| && entries[i].1 != [] ==> StartsWith(entries[i].1[0], FileScheme)
    ensures Get(PileupScan(cfg, entries).value, PileupKey) == Get(cfg, PileupKey)
  {
    if entries != [] {
      var init := entries[..|entries| - 1];
      forall i | 0 <= i < |init| && init[i].1 != [] ensures StartsWith(init[i].1[0], FileScheme) {
        assert init[i] == entries[i];
      }
      PileupNone(cfg, init);
    }
  }

  /** The pileup part of a variant: the pileup location, and `./<name>` where
      the job finds it; a pileup file with no usable location raises. */
  function AttachPileup(cfg: Dict, p: Replica): (r: Result<Dict>)
    ensures r.Ok? ==> Has(r.value, PileupKey) && Get(r.value, PileupLocalKey) == Some(Str("./" + p.name))
  {
    match PileupScan(cfg, p.rses)
    case Err(e) => Err(e)
    case Ok(c) =>
      if !Has(c, PileupKey) then Err(NoPileupLocation(FileId(p)))
      else Ok(Set(c, PileupLocalKey, Str("./" + p.name)))
  }

  /** A pileup file with only `file://` replicas, in a configuration without
      a pileup location, raises. */
  lemma {:induction false} AttachPileupUnusable(cfg: Dict, p: Replica)
    requires !Has(cfg, PileupKey)
    requires forall i :: 0 <= i < |p.rses| ==> p.rses[i].1 != [] && StartsWith(p.rses[i].1[0], FileScheme)
    ensures AttachPileup(cfg, p) == Err(NoPileupLocation(FileId(p)))
  {
    PileupFails(cfg, p.rses);
    PileupNone(cfg, p.rses);
  }

  lemma {:induction false} PileupFails(cfg: Dict, entries: seq<(string, seq<string>)>)
    ensures PileupScan(cfg, entries).Ok? <==> forall j :: 0 <= j < |entries| ==> entries[j].1 != []
  {
    if entries != [] {
      var init := entries[..|entries| - 1];
      PileupFails(cfg, init);
      forall j | 0 <= j < |init| ensures init[j] == entries[j] {
      }
    }
  }
}
