/** The expansion of one request into job variants: one variant per file of
    the input dataset (with a pileup file each when a pileup dataset is
    named), or a given number of variants told apart by their random seeds. */
module Expansion {
  import opened Basics
  import opened Strings
  import opened Dicts
  import opened Replicas
  import opened Pileup

  const InputDatasetKey := "InputDataset"
  const PileupDatasetKey := "PileupDataset"
  const MetadataKey := "InputMetadata"
  const RunNumberKey := "runNumber"
  const Seed1Key := "RandomSeed1"
  const Seed2Key := "RandomSeed2"
  const Seed1StartKey := "RandomSeed1SequenceStart"
  const Seed2StartKey := "RandomSeed2SequenceStart"
  const JobCountKey := "NumberofJobs"

  /** What the data catalogue answers: the files of a dataset with their
      replicas, in listing order, and the metadata text of a file. */
  datatype Catalogue = Catalogue(listing: map<(string, string), seq<Replica>>, meta: map<(string, string), string>)

  /** `int(d[k])`: a missing key raises, a string must be an integer literal,
      an integer is taken as it is. */
  function IntField(d: Dict, k: string): (r: Result<int>)
    ensures !Has(d, k) ==> r == Err(MissingKey(k))
  {
    if k !in d.vals then Err(MissingKey(k))
    else match d.vals[k]
      case Int(i) => Ok(i)
      case Str(s) =>
        match ParseInt(s)
        case None => Err(BadInteger(s))
        case Some(i) => Ok(i)
  }

  /** A decimal text of an integer reads back as that integer. */
  lemma {:induction false} IntFieldText(d: Dict, k: string, i: int)
    requires Get(d, k) == Some(Str(IntToString(i)))
    ensures IntField(d, k) == Ok(i)
  {
    IntRoundTrip(i);
  }

  // ---------------------------------------------------------------------
  // Variants of a request with input files

  /** The catalogue key of a file. */
  function FileKey(f: Replica): (string, string) {
    (f.scope, f.name)
  }

  /** Variant i of a per-file request: the input file and its locations, the
      pileup file when one is given, the file's metadata and run number i+1. */
  function FileVariant(cfg: Dict, rses: map<string, string>, cat: Catalogue, f: Replica, pile: Option<Replica>, i: nat): (r: Result<Dict>)
    ensures r.Ok? ==> Get(r.value, RunNumberKey) == Some(Int(i + 1))
    ensures r.Ok? ==> FileKey(f) in cat.meta && Get(r.value, MetadataKey) == Some(Str(cat.meta[FileKey(f)]))
  {
    match ResolveInput(cfg, rses, f)
    case Err(e) => Err(e)
    case Ok(c) =>
      match (if pile.Some? then AttachPileup(c, pile.value) else Ok(c))
      case Err(e) => Err(e)
      case Ok(c2) =>
        if FileKey(f) !in cat.meta then Err(MetadataLookupFailed(FileId(f)))
        else Ok(Set(Set(c2, MetadataKey, Str(cat.meta[FileKey(f)])), RunNumberKey, Int(i + 1)))
  }

  /** The pileup file of variant i, when pileup is in use. */
  function PileOf(pileup: seq<Replica>, usePileup: bool, i: nat): Option<Replica>
    requires usePileup ==> i < |pileup|
  {
    if usePileup then Some(pileup[i]) else None
  }

  /** Variant i for each file i of the dataset. */
  function Attempts(cfg: Dict, rses: map<string, string>, cat: Catalogue, files: seq<Replica>, pileup: seq<Replica>, usePileup: bool): (rs: seq<Result<Dict>>)
    requires usePileup ==> |files| <= |pileup|
    ensures |rs| == |files|
  {
    seq(|files|, i requires 0 <= i < |files| => FileVariant(cfg, rses, cat, files[i], PileOf(pileup, usePileup, i), i))
  }

  /** The variants of a per-file request, in file order, or the failure of
      the first file that has none. */
  function FileVariants(cfg: Dict, rses: map<string, string>, cat: Catalogue, files: seq<Replica>, pileup: seq<Replica>, usePileup: bool): Result<seq<Dict>>
    requires usePileup ==> |files| <= |pileup|
  {
    Collect(Attempts(cfg, rses, cat, files, pileup, usePileup))
  }

  /** The variants exist exactly when every file gives one, and then there is
      one per file, variant i being the one of file i. */
  lemma {:induction false} FileVariantsEach(cfg: Dict, rses: map<string, string>, cat: Catalogue, files: seq<Replica>, pileup: seq<Replica>, usePileup: bool)
    requires usePileup ==> |files| <= |pileup|
    ensures FileVariants(cfg, rses, cat, files, pileup, usePileup).Ok? <==>
      forall i :: 0 <= i < |files| ==> FileVariant(cfg, rses, cat, files[i], PileOf(pileup, usePileup, i), i).Ok?
    ensures FileVariants(cfg, rses, cat, files, pileup, usePileup).Ok? ==>
      |FileVariants(cfg, rses, cat, files, pileup, usePileup).value| == |files| &&
      forall i :: 0 <= i < |files| ==>
        FileVariants(cfg, rses, cat, files, pileup, usePileup).value[i] == FileVariant(cfg, rses, cat, files[i], PileOf(pileup, usePileup, i), i).value
  {
    var rs := Attempts(cfg, rses, cat, files, pileup, usePileup);
    CollectEach(rs);
    forall i | 0 <= i < |files| ensures rs[i] == FileVariant(cfg, rses, cat, files[i], PileOf(pileup, usePileup, i), i) {
    }
  }

  /** The loop over the files of the dataset, one variant per file; the first
      file without a variant stops it. */
  method PerFileJobs(cfg: Dict, rses: map<string, string>, cat: Catalogue, files: seq<Replica>, pileup: seq<Replica>, usePileup: bool) returns (r: Result<seq<Dict>>)
    requires usePileup ==> |files| <= |pileup|
    ensures r == FileVariants(cfg, rses, cat, files, pileup, usePileup)
  {
    ghost var rs := Attempts(cfg, rses, cat, files, pileup, usePileup);
    var out: seq<Dict> := [];
    var i := 0;
    while i < |files|
      invariant 0 <= i <= |files|
      invariant Collect(rs[..i]) == Ok(out)
    {
      var v := FileVariant(cfg, rses, cat, files[i], PileOf(pileup, usePileup, i), i);
      assert rs[i] == v;
      CollectStep(rs, i, out);
      if v.Err? {
        return Err(v.error);
      }
      out := out + [v.value];
      i := i + 1;
    }
    assert rs[..i] == rs;
    return Ok(out);
  }

  /** The variant of a file names it as its input, and keeps every key of
      the request that neither the input, the pileup nor the metadata sets. */
  lemma {:induction false} FileVariantKeys(cfg: Dict, rses: map<string, string>, cat: Catalogue, f: Replica, pile: Option<Replica>, i: nat, k: string)
    requires FileVariant(cfg, rses, cat, f, pile, i).Ok?
    ensures Get(FileVariant(cfg, rses, cat, f, pile, i).value, InputFileKey) == Some(Str(FileId(f)))
    ensures !LocationKey(k) && k !in {InputFileKey, PileupKey, PileupLocalKey, MetadataKey, RunNumberKey} ==>
      Get(FileVariant(cfg, rses, cat, f, pile, i).value, k) == Get(cfg, k)
  {
    var c := ResolveInput(cfg, rses, f).value;
    ResolveInputKeys(cfg, rses, f, k);
    if pile.Some? {
      var s := PileupScan(c, pile.value.rses);
      PileupOtherKeys(c, pile.value.rses, InputFileKey);
      if k != PileupKey {
        PileupOtherKeys(c, pile.value.rses, k);
      }
    }
  }

  // ---------------------------------------------------------------------
  // The pileup list

  /** The pileup files in the order the variants use them: the dataset's
      listing, repeated when too short, then shuffled. */
  function PileupOrder(pfiles: seq<Replica>, n: nat, picks: seq<nat>): (r: Result<seq<Replica>>)
    ensures r.Err? <==> pfiles == [] && n > 0
    ensures r.Ok? ==> n <= |r.value|
  {
    match Extend(pfiles, n)
    case Err(e) => Err(e)
    case Ok(p) => Ok(Shuffled(p, picks))
  }

  /** Whatever the draws, the pileup order holds every pileup file as often
      as the extended list does. */
  lemma {:induction false} PileupOrderPermutes(pfiles: seq<Replica>, n: nat, picks: seq<nat>)
    requires PileupOrder(pfiles, n, picks).Ok?
    ensures multiset(PileupOrder(pfiles, n, picks).value) == multiset(Extend(pfiles, n).value)
  {
    ShufflePermutes(Extend(pfiles, n).value, picks);
  }

  /** The dataset a configuration key names, listed by the catalogue. */
  function ListDataset(cfg: Dict, k: string, cat: Catalogue): (r: Result<seq<Replica>>)
    ensures r.Ok? ==> Has(cfg, k)
  {
    match StrField(cfg, k)
    case Err(e) => Err(e)
    case Ok(id) =>
      match SplitIdentifier(id)
      case Err(e) => Err(e)
      case Ok(key) =>
        if key !in cat.listing then Err(DatasetNotFound(id)) else Ok(cat.listing[key])
  }

  // ---------------------------------------------------------------------
  // Variants of a request without input files

  /** Variant n of a seeded request: `RandomSeed1`, `RandomSeed2` and
      `runNumber` assigned in this order. */
  function SeedVariant(cfg: Dict, s1: int, s2: int, n: int): Dict {
    Set(Set(Set(cfg, Seed1Key, Int(s1 + n)), Seed2Key, Int(s2 + n)), RunNumberKey, Int(s1 + n))
  }

  /** The three keys a seeded variant sets are different keys. */
  lemma {:induction false} SeedKeysDistinct()
    ensures Seed1Key != Seed2Key && Seed1Key != RunNumberKey && Seed2Key != RunNumberKey
  {
    assert Seed1Key[10] != Seed2Key[10];
    assert |Seed1Key| != |RunNumberKey| && |Seed2Key| != |RunNumberKey|;
  }

  /** Variant n has both seeds advanced by n, the first seed as its run
      number, and every other key of the request. */
  lemma {:induction false} SeedVariantKeys(cfg: Dict, s1: int, s2: int, n: int, k: string)
    ensures Get(SeedVariant(cfg, s1, s2, n), Seed1Key) == Some(Int(s1 + n))
    ensures Get(SeedVariant(cfg, s1, s2, n), Seed2Key) == Some(Int(s2 + n))
    ensures Get(SeedVariant(cfg, s1, s2, n), RunNumberKey) == Some(Int(s1 + n))
    ensures k != Seed1Key && k != Seed2Key && k != RunNumberKey ==> Get(SeedVariant(cfg, s1, s2, n), k) == Get(cfg, k)
  {
    SeedKeysDistinct();
  }

  /** Each variant is written out before the shared configuration is
      updated again, and updating a variant gives the same dictionary as
      updating the request: keys keep the places the first update gave them. */
  lemma {:induction false} SeedSnapshot(cfg: Dict, s1: int, s2: int, m: int, n: int)
    ensures SeedVariant(SeedVariant(cfg, s1, s2, m), s1, s2, n) == SeedVariant(cfg, s1, s2, n)
  {
    var a := SeedVariant(SeedVariant(cfg, s1, s2, m), s1, s2, n);
    var b := SeedVariant(cfg, s1, s2, n);
    forall k ensures Get(a, k) == Get(b, k) {
      SeedVariantKeys(SeedVariant(cfg, s1, s2, m), s1, s2, n, k);
      SeedVariantKeys(cfg, s1, s2, m, k);
      SeedVariantKeys(cfg, s1, s2, n, k);
    }
    Extensional(a, b);
  }

  /** The `njobs` seeded variants, none when the count is not positive. */
  function SeedVariants(cfg: Dict, s1: int, s2: int, njobs: int): seq<Dict> {
    seq(if njobs < 0 then 0 else njobs, n => SeedVariant(cfg, s1, s2, n))
  }

  /** A seeded request gives `njobs` variants, none for a count below one;
      variant n has seeds `s1 + n` and `s2 + n`, run number `s1 + n`, and
      every other key of the request. */
  lemma {:induction false} SeededJobs(cfg: Dict, s1: int, s2: int, njobs: int, n: nat, k: string)
    ensures njobs <= 0 ==> SeedVariants(cfg, s1, s2, njobs) == []
    ensures njobs > 0 ==> |SeedVariants(cfg, s1, s2, njobs)| == njobs
    ensures n < njobs ==> var v := SeedVariants(cfg, s1, s2, njobs)[n];
      && Get(v, Seed1Key) == Some(Int(s1 + n))
      && Get(v, Seed2Key) == Some(Int(s2 + n))
      && Get(v, RunNumberKey) == Some(Int(s1 + n))
      && (k != Seed1Key && k != Seed2Key && k != RunNumberKey ==> Get(v, k) == Get(cfg, k))
  {
    SeedVariantKeys(cfg, s1, s2, n, k);
  }

  /** The configuration shared by all variants of a seeded request. */
  class SharedConfig {
    var dict: Dict

    constructor(d: Dict)
      ensures dict == d
    {
      dict := d;
    }

    /** The seeded loop: the shared configuration is updated in place, and
        each variant is the configuration as it stands when it is yielded. */
    method SeedJobs(s1: int, s2: int, njobs: int) returns (variants: seq<Dict>)
      modifies this
      ensures variants == SeedVariants(old(dict), s1, s2, njobs)
      ensures njobs > 0 ==> dict == SeedVariant(old(dict), s1, s2, njobs - 1)
      ensures njobs <= 0 ==> dict == old(dict)
    {
      ghost var d0 := dict;
      assert d0 == old(dict);
      variants := [];
      var n := 0;
      while n < njobs
        invariant 0 <= n <= (if njobs < 0 then 0 else njobs)
        invariant variants == SeedVariants(d0, s1, s2, n)
        invariant n > 0 ==> dict == SeedVariant(d0, s1, s2, n - 1)
        invariant n == 0 ==> dict == d0
      {
        SeedStep(d0, s1, s2, n, dict);
        dict := SeedVariant(dict, s1, s2, n);
        variants := variants + [dict];
        n := n + 1;
      }
      assert njobs > 0 ==> n == njobs;
    }
  }

  /** One round of the seeded loop: updating the shared configuration gives
      the next variant, and the list grows by it. */
  lemma {:induction false} SeedStep(d0: Dict, s1: int, s2: int, n: nat, cur: Dict)
    requires n == 0 ==> cur == d0
    requires n > 0 ==> cur == SeedVariant(d0, s1, s2, n - 1)
    ensures SeedVariant(cur, s1, s2, n) == SeedVariant(d0, s1, s2, n)
    ensures SeedVariants(d0, s1, s2, n + 1) == SeedVariants(d0, s1, s2, n) + [SeedVariant(d0, s1, s2, n)]
  {
    if n > 0 {
      SeedSnapshot(d0, s1, s2, n - 1, n);
    }
    SeedVariantsGrow(d0, s1, s2, n);
  }

  lemma {:induction false} SeedVariantsGrow(d0: Dict, s1: int, s2: int, n: nat)
    ensures SeedVariants(d0, s1, s2, n + 1) == SeedVariants(d0, s1, s2, n) + [SeedVariant(d0, s1, s2, n)]
  {
    var next := SeedVariants(d0, s1, s2, n + 1);
    var grown := SeedVariants(d0, s1, s2, n) + [SeedVariant(d0, s1, s2, n)];
    assert |next| == |grown|;
    forall j | 0 <= j < |next| ensures next[j] == grown[j] {
      if j < n {
        assert grown[j] == SeedVariants(d0, s1, s2, n)[j];
      }
    }
  }

  // ---------------------------------------------------------------------
  // The whole expansion

  /** All variants of a request, or the first failure, in the order the
      expansion meets them. */
  function Expand(cfg: Dict, rses: map<string, string>, cat: Catalogue, picks: seq<nat>): (r: Result<seq<Dict>>)
  {
    if Has(cfg, InputDatasetKey) then
      match ListDataset(cfg, InputDatasetKey, cat)
      case Err(e) => Err(e)
      case Ok(files) =>
        if Has(cfg, PileupDatasetKey) then
          match ListDataset(cfg, PileupDatasetKey, cat)
          case Err(e) => Err(e)
          case Ok(pfiles) =>
            match PileupOrder(pfiles, |files|, picks)
            case Err(e) => Err(e)
            case Ok(pileup) => FileVariants(cfg, rses, cat, files, pileup, true)
        else FileVariants(cfg, rses, cat, files, [], false)
    else
      match IntField(cfg, Seed1StartKey)
      case Err(e) => Err(e)
      case Ok(s1) =>
        match IntField(cfg, Seed2StartKey)
        case Err(e) => Err(e)
        case Ok(s2) =>
          match IntField(cfg, JobCountKey)
          case Err(e) => Err(e)
          case Ok(njobs) => Ok(SeedVariants(cfg, s1, s2, njobs))
  }

  /** A request with an input dataset gives one variant per file, numbered
      from 1 in listing order. */
  lemma {:induction false} ExpandPerFile(cfg: Dict, rses: map<string, string>, cat: Catalogue, picks: seq<nat>)
    requires Has(cfg, InputDatasetKey) && Expand(cfg, rses, cat, picks).Ok?
    ensures var files := ListDataset(cfg, InputDatasetKey, cat).value;
      var vs := Expand(cfg, rses, cat, picks).value;
      && |vs| == |files|
      && forall i :: 0 <= i < |vs| ==> Get(vs[i], InputFileKey) == Some(Str(FileId(files[i]))) && Get(vs[i], RunNumberKey) == Some(Int(i + 1))
  {
    var files := ListDataset(cfg, InputDatasetKey, cat).value;
    var usePileup := Has(cfg, PileupDatasetKey);
    var pileup := if usePileup then PileupOrder(ListDataset(cfg, PileupDatasetKey, cat).value, |files|, picks).value else [];
    FileVariantsEach(cfg, rses, cat, files, pileup, usePileup);
    var vs := Expand(cfg, rses, cat, picks).value;
    forall i | 0 <= i < |vs| ensures Get(vs[i], InputFileKey) == Some(Str(FileId(files[i]))) {
      FileVariantKeys(cfg, rses, cat, files[i], PileOf(pileup, usePileup, i), i, InputFileKey);
    }
  }

  /** With a pileup dataset, variant i reads pileup file i of the shuffled,
      repeated pileup listing. */
  lemma {:induction false} ExpandWithPileup(cfg: Dict, rses: map<string, string>, cat: Catalogue, picks: seq<nat>)
    requires Has(cfg, InputDatasetKey) && Has(cfg, PileupDatasetKey) && Expand(cfg, rses, cat, picks).Ok?
    ensures var files := ListDataset(cfg, InputDatasetKey, cat).value;
      var pileup := PileupOrder(ListDataset(cfg, PileupDatasetKey, cat).value, |files|, picks).value;
      var vs := Expand(cfg, rses, cat, picks).value;
      && |files| <= |pileup|
      && forall i :: 0 <= i < |vs| ==> Has(vs[i], PileupKey) && Get(vs[i], PileupLocalKey) == Some(Str("./" + pileup[i].name))
  {
    var files := ListDataset(cfg, InputDatasetKey, cat).value;
    var pileup := PileupOrder(ListDataset(cfg, PileupDatasetKey, cat).value, |files|, picks).value;
    FileVariantsEach(cfg, rses, cat, files, pileup, true);
    var vs := Expand(cfg, rses, cat, picks).value;
    forall i | 0 <= i < |vs| ensures Has(vs[i], PileupKey) && Get(vs[i], PileupLocalKey) == Some(Str("./" + pileup[i].name)) {
      assert vs[i] == FileVariant(cfg, rses, cat, files[i], Some(pileup[i]), i).value;
    }
  }

  /** A request without an input dataset gives `NumberofJobs` variants with
      consecutive seeds from the given starts. */
  lemma {:induction false} ExpandSeeded(cfg: Dict, rses: map<string, string>, cat: Catalogue, picks: seq<nat>, s1: int, s2: int, njobs: int)
    requires !Has(cfg, InputDatasetKey)
    requires Get(cfg, Seed1StartKey) == Some(Str(IntToString(s1)))
    requires Get(cfg, Seed2StartKey) == Some(Str(IntToString(s2)))
    requires Get(cfg, JobCountKey) == Some(Str(IntToString(njobs)))
    ensures Expand(cfg, rses, cat, picks) == Ok(SeedVariants(cfg, s1, s2, njobs))
  {
    IntFieldText(cfg, Seed1StartKey, s1);
    IntFieldText(cfg, Seed2StartKey, s2);
    IntFieldText(cfg, JobCountKey, njobs);
  }

  /** An empty pileup dataset for a non-empty input dataset raises. */
  lemma {:induction false} ExpandEmptyPileup(cfg: Dict, rses: map<string, string>, cat: Catalogue, picks: seq<nat>)
    requires ListDataset(cfg, InputDatasetKey, cat).Ok? && ListDataset(cfg, InputDatasetKey, cat).value != []
    requires ListDataset(cfg, PileupDatasetKey, cat) == Ok([])
    ensures Expand(cfg, rses, cat, picks) == Err(EmptyPileup)
  {
  }

  /** The expansion as the generator runs it: the pileup list is shuffled in
      place, and a seeded request updates the shared configuration. */
  method GenerateJobs(config: SharedConfig, rses: map<string, string>, cat: Catalogue, picks: seq<nat>) returns (r: Result<seq<Dict>>)
    modifies config
    ensures r == Expand(old(config.dict), rses, cat, picks)
    ensures Has(old(config.dict), InputDatasetKey) || r.Err? ==> config.dict == old(config.dict)
    ensures var d := old(config.dict);
      var s1 := IntField(d, Seed1StartKey);
      var s2 := IntField(d, Seed2StartKey);
      var n := IntField(d, JobCountKey);
      !Has(d, InputDatasetKey) && s1.Ok? && s2.Ok? && n.Ok? ==>
        config.dict == if n.value > 0 then SeedVariant(d, s1.value, s2.value, n.value - 1) else d
  {
    var cfg := config.dict;
    if Has(cfg, InputDatasetKey) {
      var files := ListDataset(cfg, InputDatasetKey, cat);
      if files.Err? {
        return Err(files.error);
      }
      var pileup: seq<Replica> := [];
      var usePileup := Has(cfg, PileupDatasetKey);
      if usePileup {
        var pfiles := ListDataset(cfg, PileupDatasetKey, cat);
        if pfiles.Err? {
          return Err(pfiles.error);
        }
        var ext := Extend(pfiles.value, |files.value|);
        if ext.Err? {
          return Err(ext.error);
        }
        var a := new Replica[|ext.value|](i requires 0 <= i < |ext.value| => ext.value[i]);
        assert a[..] == ext.value;
        Shuffle(a, picks);
        pileup := a[..];
      }
      r := PerFileJobs(cfg, rses, cat, files.value, pileup, usePileup);
    } else {
      var s1 := IntField(cfg, Seed1StartKey);
      if s1.Err? {
        return Err(s1.error);
      }
      var s2 := IntField(cfg, Seed2StartKey);
      if s2.Err? {
        return Err(s2.error);
      }
      var njobs := IntField(cfg, JobCountKey);
      if njobs.Err? {
        return Err(njobs.error);
      }
      var variants := config.SeedJobs(s1.value, s2.value, njobs.value);
      r := Ok(variants);
    }
  }
}
