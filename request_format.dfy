/** The `key=value` text of job requests and job descriptions: the request
    dictionary read from a request file, the batch id default, the job
    description written for each variant, and the description read back
    when the job is submitted. */
module RequestFormat {
  import opened Basics
  import opened Strings
  import opened Dicts

  const BatchKey := "BatchID"
  const OutputBaseKey := "FinalOutputBasePath"
  const NoUploadKey := "NoUploadSites"

  /** `l.split('=')[0]` */
  function KeyOf(l: string): string {
    Split(l, '=')[0]
  }

  /** A line holding '=' splits into a key and at least one more part. */
  lemma HasSecondPart(l: string)
    requires '=' in l
    ensures |Split(l, '=')| >= 2
    ensures l == KeyOf(l) + "=" + Join(Split(l, '=')[1..], "=")
  {
    JoinSplit(l, '=');
    OneSplit(l, '=');
  }

  /** `l.split('=')[1].strip()` */
  function ValueOf(l: string): string
    requires '=' in l
  {
    HasSecondPart(l);
    Strip(Split(l, '=')[1])
  }

  /** Everything after the first '=', stripped. */
  function ValueAfterKey(l: string): string
    requires '=' in l
  {
    HasSecondPart(l);
    Strip(l[|KeyOf(l)| + 1..])
  }

  /** A line made of a separator-free key, '=', a separator-free value and
      nothing or a further '=' reads as that key and value. */
  lemma {:induction false} LineFields(k: string, v: string, rest: string)
    requires '=' !in k && '=' !in v
    requires rest == [] || rest[0] == '='
    ensures var l := k + "=" + v + rest;
      '=' in l && KeyOf(l) == k && ValueOf(l) == Strip(v)
  {
    var l := k + "=" + v + rest;
    assert l == k + ['='] + (v + rest);
    assert l[|k|] == '=';
    SplitAt(k, v + rest, '=');
    if rest == [] {
      assert v + rest == v;
      SplitWithout(v, '=');
    } else {
      assert v + rest == v + ['='] + rest[1..];
      SplitAt(v, rest[1..], '=');
    }
  }

  /** The key and the value a line holding '=' contributes. */
  function RequestEntry(l: string): (string, string)
    requires '=' in l
  {
    (KeyOf(l), ValueOf(l))
  }

  /** The entries of the lines holding '=', in file order. */
  function RequestEntries(lines: seq<string>): seq<(string, string)> {
    if lines == [] then []
    else
      var l := lines[|lines| - 1];
      RequestEntries(lines[..|lines| - 1]) + if '=' in l then [RequestEntry(l)] else []
  }

  /** The dictionary that assigning the entries one after another builds. */
  function FromEntries(es: seq<(string, string)>): Dict {
    if es == [] then Empty
    else Set(FromEntries(es[..|es| - 1]), es[|es| - 1].0, Str(es[|es| - 1].1))
  }

  lemma {:induction false} FromEntriesValid(es: seq<(string, string)>)
    ensures Valid(FromEntries(es))
  {
    if es != [] {
      FromEntriesValid(es[..|es| - 1]);
      SetValid(FromEntries(es[..|es| - 1]), es[|es| - 1].0, Str(es[|es| - 1].1));
    }
  }

  lemma {:induction false} FromEntriesSnoc(es: seq<(string, string)>, e: (string, string))
    ensures FromEntries(es + [e]) == Set(FromEntries(es), e.0, Str(e.1))
  {
    assert (es + [e])[..|es|] == es;
  }

  /** The request dictionary: one entry per line holding '=', a later line
      overriding the value of an earlier one with the same key. */
  function ParseRequest(lines: seq<string>): Dict {
    FromEntries(RequestEntries(lines))
  }

  lemma {:induction false} ParseRequestValid(lines: seq<string>)
    ensures Valid(ParseRequest(lines))
  {
    FromEntriesValid(RequestEntries(lines));
  }

  lemma {:induction false} ParseRequestEmpty()
    ensures ParseRequest([]) == Empty
  {
  }

  /** How the request grows by one line. */
  lemma {:induction false} ParseRequestSnoc(lines: seq<string>)
    requires lines != []
    ensures var l := lines[|lines| - 1]; var prev := ParseRequest(lines[..|lines| - 1]);
      ParseRequest(lines) == if '=' in l then Set(prev, KeyOf(l), Str(ValueOf(l))) else prev
  {
    var l := lines[|lines| - 1];
    var es := RequestEntries(lines[..|lines| - 1]);
    if '=' in l {
      FromEntriesSnoc(es, RequestEntry(l));
    } else {
      assert es + [] == es;
    }
  }

  /** A line holding '=' puts its key into the request. */
  lemma {:induction false} ParseRequestHasLine(lines: seq<string>, j: nat)
    requires j < |lines| && '=' in lines[j]
    ensures Has(ParseRequest(lines), KeyOf(lines[j]))
  {
    var init := lines[..|lines| - 1];
    ParseRequestSnoc(lines);
    if j < |lines| - 1 {
      assert init[j] == lines[j];
      ParseRequestHasLine(init, j);
    }
  }

  /** Every key of the request comes from a line holding '='. */
  lemma {:induction false} ParseRequestKeyLine(lines: seq<string>, k: string) returns (j: nat)
    requires Has(ParseRequest(lines), k)
    ensures j < |lines| && '=' in lines[j] && KeyOf(lines[j]) == k
  {
    ParseRequestEmpty();
    assert lines != [];
    var init := lines[..|lines| - 1];
    var l := lines[|lines| - 1];
    if '=' in l && KeyOf(l) == k {
      j := |lines| - 1;
    } else {
      assert Has(ParseRequest(init), k) by {
        ParseRequestSnoc(lines);
      }
      j := ParseRequestKeyLine(init, k);
      assert init[j] == lines[j];
    }
  }

  /** A key is in the request exactly when some line holding '=' has it. */
  lemma {:induction false} ParseRequestHas(lines: seq<string>, k: string)
    ensures Has(ParseRequest(lines), k) <==>
      exists j :: 0 <= j < |lines| && '=' in lines[j] && KeyOf(lines[j]) == k
  {
    if Has(ParseRequest(lines), k) {
      var j := ParseRequestKeyLine(lines, k);
    }
    forall j | 0 <= j < |lines| && '=' in lines[j] && KeyOf(lines[j]) == k
      ensures Has(ParseRequest(lines), k)
    {
      ParseRequestHasLine(lines, j);
    }
  }

  /** The value of a key is taken from the last line that has it. */
  lemma {:induction false} ParseRequestLatest(lines: seq<string>, j: nat)
    requires j < |lines| && '=' in lines[j]
    requires forall i :: j < i < |lines| && '=' in lines[i] ==> KeyOf(lines[i]) != KeyOf(lines[j])
    ensures Get(ParseRequest(lines), KeyOf(lines[j])) == Some(Str(ValueOf(lines[j])))
  {
    var init := lines[..|lines| - 1];
    var l := lines[|lines| - 1];
    ParseRequestSnoc(lines);
    if j < |lines| - 1 {
      assert init[j] == lines[j];
      forall i | j < i < |init| && '=' in init[i]
        ensures KeyOf(init[i]) != KeyOf(init[j])
      {
        assert init[i] == lines[i];
      }
      ParseRequestLatest(init, j);
      if '=' in l {
        assert KeyOf(l) != KeyOf(lines[j]);
      }
    }
  }

  /** A line without '=' has no effect, wherever it stands. */
  lemma {:induction false} ParseRequestSkips(a: seq<string>, l: string, b: seq<string>)
    requires '=' !in l
    ensures ParseRequest(a + [l] + b) == ParseRequest(a + b)
  {
    RequestEntriesSkip(a, l, b);
  }

  lemma {:induction false} RequestEntriesSkip(a: seq<string>, l: string, b: seq<string>)
    requires '=' !in l
    ensures RequestEntries(a + [l] + b) == RequestEntries(a + b)
    decreases |b|
  {
    if b == [] {
      assert (a + [l] + b)[..|a|] == a;
      assert a + b == a;
      assert RequestEntries(a) + [] == RequestEntries(a);
    } else {
      var b' := b[..|b| - 1];
      RequestEntriesSkip(a, l, b');
      assert (a + [l] + b)[..|a + [l] + b| - 1] == a + [l] + b';
      assert (a + b)[..|a + b| - 1] == a + b';
    }
  }

  /** Every key and value of the request is free of '=', every value is a
      stripped string. */
  lemma {:induction false} ParseRequestPlain(lines: seq<string>)
    ensures var d := ParseRequest(lines);
      forall k :: k in d.vals ==> '=' !in k && d.vals[k].Str? && '=' !in d.vals[k].s && Stripped(d.vals[k].s)
  {
    if lines != [] {
      var l := lines[|lines| - 1];
      var prev := ParseRequest(lines[..|lines| - 1]);
      ParseRequestPlain(lines[..|lines| - 1]);
      ParseRequestSnoc(lines);
      if '=' in l {
        HasSecondPart(l);
        SplitParts(l, '=');
        var v := Split(l, '=')[1];
        StripIsStripped(v);
        StripInside(v, '=');
        var d := ParseRequest(lines);
        forall k | k in d.vals
          ensures '=' !in k && d.vals[k].Str? && '=' !in d.vals[k].s && Stripped(d.vals[k].s)
        {
          assert Get(d, k) == Some(d.vals[k]);
          if k != KeyOf(l) {
            assert Get(prev, k) == Some(d.vals[k]);
          }
        }
      }
    }
  }

  /** `config.get('BatchID', f'Batch-{timestamp}')` */
  function BatchId(config: Dict, timestamp: string): (b: string)
    ensures Has(config, BatchKey) ==> b == Text(config.vals[BatchKey])
    ensures !Has(config, BatchKey) ==> b == "Batch-" + timestamp
  {
    Text(GetOr(config, BatchKey, Str("Batch-" + timestamp)))
  }

  /** The batch id of a request is the value of its last `BatchID` line, or
      `Batch-<timestamp>` when it has none. */
  lemma {:induction false} RequestBatchId(lines: seq<string>, timestamp: string)
    ensures (forall j :: 0 <= j < |lines| && '=' in lines[j] ==> KeyOf(lines[j]) != BatchKey) ==>
      BatchId(ParseRequest(lines), timestamp) == "Batch-" + timestamp
    ensures forall j :: (0 <= j < |lines| && '=' in lines[j] && KeyOf(lines[j]) == BatchKey &&
      (forall i :: j < i < |lines| && '=' in lines[i] ==> KeyOf(lines[i]) != BatchKey)) ==>
      BatchId(ParseRequest(lines), timestamp) == ValueOf(lines[j])
  {
    ParseRequestHas(lines, BatchKey);
    forall j | 0 <= j < |lines| && '=' in lines[j] && KeyOf(lines[j]) == BatchKey &&
      (forall i :: j < i < |lines| && '=' in lines[i] ==> KeyOf(lines[i]) != BatchKey)
      ensures BatchId(ParseRequest(lines), timestamp) == ValueOf(lines[j])
    {
      ParseRequestLatest(lines, j);
    }
  }


  /** The given keys paired with their values as text; every key of a valid
      dictionary has a value, so the empty default is never written. */
  function EntriesOf(ks: seq<string>, d: Dict): (es: seq<(string, string)>)
    ensures |es| == |ks|
  {
    if ks == [] then []
    else EntriesOf(ks[..|ks| - 1], d) + [(ks[|ks| - 1], Text(GetOr(d, ks[|ks| - 1], Str(""))))]
  }

  /** `jobconfig.items()` written out as text, in dictionary order. */
  function TextEntries(d: Dict): (es: seq<(string, string)>)
    ensures |es| == |d.keys|
  {
    EntriesOf(d.keys, d)
  }

  /** `f'{k}={v}'` */
  function EntryLine(e: (string, string)): string {
    e.0 + "=" + e.1
  }

  function EntryLines(es: seq<(string, string)>): (ls: seq<string>)
    ensures |ls| == |es|
  {
    if es == [] then [] else [EntryLine(es[0])] + EntryLines(es[1..])
  }

  lemma {:induction false} EntryLinesAppend(a: seq<(string, string)>, b: seq<(string, string)>)
    ensures EntryLines(a + b) == EntryLines(a) + EntryLines(b)
  {
    if a == [] {
      assert a + b == b;
    } else {
      var ab := a + b;
      assert ab != [] && ab[0] == a[0] && ab[1..] == a[1..] + b;
      EntryLinesAppend(a[1..], b);
      calc {
        EntryLines(ab);
        [EntryLine(a[0])] + EntryLines(a[1..] + b);
        [EntryLine(a[0])] + (EntryLines(a[1..]) + EntryLines(b));
        ([EntryLine(a[0])] + EntryLines(a[1..])) + EntryLines(b);
      }
    }
  }

  /** The base path entry when there is an output base, the no-upload entry
      when there are no-upload sites. */
  function ExtraEntries(outputBase: Option<string>, noUpload: seq<string>): seq<(string, string)> {
    (if outputBase.Some? && outputBase.value != "" then [(OutputBaseKey, outputBase.value)] else [])
    + (if noUpload != [] then [(NoUploadKey, Join(noUpload, ","))] else [])
  }

  /** The job description text of one variant. */
  function Serialize(d: Dict, outputBase: Option<string>, noUpload: seq<string>): string {
    Join(EntryLines(TextEntries(d)), "\n") + "\n" + Concat(Terminated(EntryLines(ExtraEntries(outputBase, noUpload))))
  }

  /** A description of a non-empty variant is written one line per entry. */
  lemma {:induction false} SerializeLines(d: Dict, outputBase: Option<string>, noUpload: seq<string>)
    requires |d.keys| >= 1
    ensures Serialize(d, outputBase, noUpload) ==
      Concat(Terminated(EntryLines(TextEntries(d) + ExtraEntries(outputBase, noUpload))))
  {
    var a := EntryLines(TextEntries(d));
    var b := EntryLines(ExtraEntries(outputBase, noUpload));
    JoinTerminated(a);
    ConcatAppend(Terminated(a), Terminated(b));
    TerminatedAppend(a, b);
    EntryLinesAppend(TextEntries(d), ExtraEntries(outputBase, noUpload));
  }

  /** One line of a description read back with `l.split('=')`: a line without
      '=' raises. With `truncate` the value stops at a second '=', as the
      submitter reads it; without, the value is the whole rest of the line. */
  function ReadEntry(l: string, truncate: bool): (r: Result<(string, string)>)
    ensures r.Ok? <==> '=' in l
  {
    if '=' !in l then Err(MissingField(l))
    else if truncate then Ok((KeyOf(l), ValueOf(l)))
    else Ok((KeyOf(l), ValueAfterKey(l)))
  }

  /** The lines read in file order: the first line without '=' raises. */
  function ReadEntries(lines: seq<string>, truncate: bool): (r: Result<seq<(string, string)>>)
    ensures r.Ok? ==> |r.value| == |lines|
  {
    if lines == [] then Ok([])
    else
      match ReadEntry(lines[0], truncate)
      case Err(f) => Err(f)
      case Ok(e) =>
        match ReadEntries(lines[1..], truncate)
        case Err(f) => Err(f)
        case Ok(rest) => Ok([e] + rest)
  }

  /** A description read back as a dictionary of strings. */
  function ReadDescription(lines: seq<string>, truncate: bool): Result<Dict> {
    var es :- ReadEntries(lines, truncate);
    Ok(FromEntries(es))
  }

  lemma {:induction false} ReadDescriptionValid(lines: seq<string>, truncate: bool)
    ensures ReadDescription(lines, truncate).Ok? ==> Valid(ReadDescription(lines, truncate).value)
  {
    var r := ReadEntries(lines, truncate);
    if r.Ok? {
      FromEntriesValid(r.value);
    }
  }

  lemma {:induction false} ReadEntriesFail(lines: seq<string>, truncate: bool)
    ensures ReadEntries(lines, truncate).Ok? <==> forall j :: 0 <= j < |lines| ==> '=' in lines[j]
  {
    if lines != [] {
      var rest := lines[1..];
      ReadEntriesFail(rest, truncate);
      if '=' in lines[0] && ReadEntries(rest, truncate).Ok? {
        forall j | 0 <= j < |lines| ensures '=' in lines[j] {
          if j > 0 {
            assert lines[j] == rest[j - 1];
          }
        }
      } else if '=' in lines[0] {
        var j :| 0 <= j < |rest| && '=' !in rest[j];
        assert lines[j + 1] == rest[j];
      }
    }
  }

  /** Reading succeeds exactly when every line holds '='. */
  lemma {:induction false} ReadDescriptionFails(lines: seq<string>, truncate: bool)
    ensures ReadDescription(lines, truncate).Ok? <==> forall j :: 0 <= j < |lines| ==> '=' in lines[j]
  {
    ReadEntriesFail(lines, truncate);
  }

  predicate PlainKey(k: string) {
    '=' !in k && '\n' !in k
  }

  predicate PlainValue(t: string) {
    '\n' !in t && Stripped(t)
  }

  predicate PlainEntry(e: (string, string)) {
    PlainKey(e.0) && PlainValue(e.1)
  }

  predicate AllPlain(es: seq<(string, string)>) {
    forall i :: 0 <= i < |es| ==> PlainEntry(es[i])
  }

  /** A dictionary whose description can be read back. */
  ghost predicate Writable(d: Dict) {
    Valid(d) && forall k :: k in d.vals ==> PlainKey(k) && PlainValue(Text(d.vals[k]))
  }

  /** The dictionary with every value written out as text. */
  function AsText(d: Dict): Dict {
    Dict(d.keys, map k | k in d.vals :: Str(Text(d.vals[k])))
  }

  /** What reading a description back can at best give: the variant as text,
      with the base path and the no-upload sites added. */
  function Described(d: Dict, outputBase: Option<string>, noUpload: seq<string>): Dict {
    WithExtras(AsText(d), outputBase, noUpload)
  }

  /** A dictionary with the base path and the no-upload sites set, when
      they are given. */
  function WithExtras(d1: Dict, outputBase: Option<string>, noUpload: seq<string>): Dict {
    var d2 := if outputBase.Some? && outputBase.value != "" then Set(d1, OutputBaseKey, Str(outputBase.value)) else d1;
    if noUpload != [] then Set(d2, NoUploadKey, Str(Join(noUpload, ","))) else d2
  }

  lemma {:induction false} EntryOfLine(k: string, t: string)
    requires '=' !in k && PlainValue(t)
    ensures ReadEntry(k + "=" + t + "\n", false) == Ok((k, t))
  {
    var l := k + "=" + t + "\n";
    assert l == k + ['='] + (t + "\n");
    SplitAt(k, t + "\n", '=');
    assert KeyOf(l) == k;
    assert l[|k| + 1..] == t + "\n";
    StripLine(t);
  }

  /** Plain entries written one per line come back as those lines. */
  lemma {:induction false} LinesOfEntries(es: seq<(string, string)>)
    requires AllPlain(es)
    ensures Lines(Concat(Terminated(EntryLines(es)))) == Terminated(EntryLines(es))
  {
    if es != [] {
      var x := EntryLine(es[0]);
      var ts := Terminated(EntryLines(es[1..]));
      assert Terminated(EntryLines(es)) == [x + "\n"] + ts;
      assert Concat([x + "\n"] + ts) == x + "\n" + Concat(ts) by {
        assert ([x + "\n"] + ts)[1..] == ts;
      }
      assert PlainEntry(es[0]);
      assert '\n' !in x;
      LinesOfLine(x, Concat(ts));
      assert AllPlain(es[1..]) by {
        forall i | 0 <= i < |es[1..]| ensures PlainEntry(es[1..][i]) {
          assert es[1..][i] == es[i + 1];
        }
      }
      LinesOfEntries(es[1..]);
    }
  }

  /** Plain entries written one per line read back as themselves. */
  lemma {:induction false} ReadEntryLines(es: seq<(string, string)>)
    requires AllPlain(es)
    ensures ReadEntries(Terminated(EntryLines(es)), false) == Ok(es)
  {
    if es != [] {
      var ls := Terminated(EntryLines(es));
      assert ls == [EntryLine(es[0]) + "\n"] + Terminated(EntryLines(es[1..]));
      assert ls[1..] == Terminated(EntryLines(es[1..]));
      assert PlainEntry(es[0]);
      EntryOfLine(es[0].0, es[0].1);
      assert AllPlain(es[1..]) by {
        forall i | 0 <= i < |es[1..]| ensures PlainEntry(es[1..][i]) {
          assert es[1..][i] == es[i + 1];
        }
      }
      ReadEntryLines(es[1..]);
      assert [es[0]] + es[1..] == es;
    }
  }

  lemma {:induction false} DistinctInit(ks: seq<string>)
    requires Distinct(ks) && ks != []
    ensures Distinct(ks[..|ks| - 1]) && ks[|ks| - 1] !in ks[..|ks| - 1]
  {
    var init := ks[..|ks| - 1];
    forall i | 0 <= i < |init| ensures init[i] != ks[|ks| - 1] {
      assert init[i] == ks[i];
    }
  }

  /** Assigning distinct keys in order keeps them in that order. */
  lemma {:induction false} FromEntriesKeys(ks: seq<string>, d: Dict)
    requires Distinct(ks)
    ensures FromEntries(EntriesOf(ks, d)).keys == ks
  {
    if ks != [] {
      var init := ks[..|ks| - 1];
      var k := ks[|ks| - 1];
      DistinctInit(ks);
      FromEntriesKeys(init, d);
      FromEntriesGet(init, d, k);
      FromEntriesSnoc(EntriesOf(init, d), (k, Text(GetOr(d, k, Str("")))));
      assert init + [k] == ks;
    }
  }

  /** Each assigned key holds its value as text. */
  lemma {:induction false} FromEntriesGet(ks: seq<string>, d: Dict, k: string)
    ensures Get(FromEntries(EntriesOf(ks, d)), k) ==
      if k in ks then Some(Str(Text(GetOr(d, k, Str(""))))) else None
  {
    if ks != [] {
      var init := ks[..|ks| - 1];
      FromEntriesGet(init, d, k);
      FromEntriesSnoc(EntriesOf(init, d), (ks[|ks| - 1], Text(GetOr(d, ks[|ks| - 1], Str("")))));
      assert init + [ks[|ks| - 1]] == ks;
    }
  }

  /** Assigning the items of a dictionary in order rebuilds it, as text. */
  lemma {:induction false} FromTextEntries(d: Dict)
    requires Valid(d)
    ensures FromEntries(TextEntries(d)) == AsText(d)
  {
    var r := FromEntries(TextEntries(d));
    FromEntriesKeys(d.keys, d);
    forall k ensures Get(r, k) == Get(AsText(d), k) {
      FromEntriesGet(d.keys, d, k);
    }
    Extensional(r, AsText(d));
  }

  /** The keys given are plain and hold plain values. */
  lemma {:induction false} EntriesOfPlain(ks: seq<string>, d: Dict)
    requires forall k :: k in ks ==> k in d.vals && PlainKey(k) && PlainValue(Text(d.vals[k]))
    ensures AllPlain(EntriesOf(ks, d))
  {
    if ks != [] {
      var init := ks[..|ks| - 1];
      assert forall k :: k in init ==> k in ks;
      EntriesOfPlain(init, d);
      assert ks[|ks| - 1] in ks;
    }
  }

  /** Every entry of the description of a writable variant is plain. */
  lemma {:induction false} DescribedEntriesPlain(d: Dict, outputBase: Option<string>, noUpload: seq<string>)
    requires Writable(d)
    requires outputBase.Some? ==> PlainValue(outputBase.value)
    requires PlainValue(Join(noUpload, ","))
    ensures AllPlain(TextEntries(d) + ExtraEntries(outputBase, noUpload))
  {
    var a := TextEntries(d);
    var b := ExtraEntries(outputBase, noUpload);
    EntriesOfPlain(d.keys, d);
    assert PlainKey(OutputBaseKey) && PlainKey(NoUploadKey);
    assert AllPlain(b);
    forall i | 0 <= i < |a + b| ensures PlainEntry((a + b)[i]) {
      if i < |a| {
        assert (a + b)[i] == a[i];
      } else {
        assert (a + b)[i] == b[i - |a|];
      }
    }
  }

  /** Assigning a variant's items and then the extra entries gives what the
      description promises. */
  lemma {:induction false} FromDescribedEntries(d: Dict, outputBase: Option<string>, noUpload: seq<string>)
    requires Valid(d)
    ensures FromEntries(TextEntries(d) + ExtraEntries(outputBase, noUpload)) == Described(d, outputBase, noUpload)
  {
    FromTextEntries(d);
    FromExtraEntries(TextEntries(d), outputBase, noUpload);
  }

  /** Assigning the extra entries after any others sets them on the result. */
  lemma {:induction false} FromExtraEntries(es: seq<(string, string)>, outputBase: Option<string>, noUpload: seq<string>)
    ensures FromEntries(es + ExtraEntries(outputBase, noUpload)) == WithExtras(FromEntries(es), outputBase, noUpload)
  {
    var e2 := (NoUploadKey, Join(noUpload, ","));
    var first := if outputBase.Some? && outputBase.value != "" then [(OutputBaseKey, outputBase.value)] else [];
    assert es + ExtraEntries(outputBase, noUpload) == (es + first) + (if noUpload != [] then [e2] else []);
    if first != [] {
      FromEntriesSnoc(es, first[0]);
    } else {
      assert es + first == es;
    }
    if noUpload != [] {
      FromEntriesSnoc(es + first, e2);
    } else {
      assert (es + first) + [] == es + first;
    }
  }

  /** The lines of the description of a writable variant. */
  lemma {:induction false} DescriptionLines(d: Dict, outputBase: Option<string>, noUpload: seq<string>)
    requires |d.keys| >= 1
    requires AllPlain(TextEntries(d) + ExtraEntries(outputBase, noUpload))
    ensures Lines(Serialize(d, outputBase, noUpload)) ==
      Terminated(EntryLines(TextEntries(d) + ExtraEntries(outputBase, noUpload)))
  {
    SerializeLines(d, outputBase, noUpload);
    LinesOfEntries(TextEntries(d) + ExtraEntries(outputBase, noUpload));
  }

  /** Reading back the description of a variant whose keys and values are
      plain gives the variant as text with the two extra entries. */
  lemma {:induction false} DescriptionRoundTrip(d: Dict, outputBase: Option<string>, noUpload: seq<string>)
    requires Writable(d) && |d.keys| >= 1
    requires outputBase.Some? ==> PlainValue(outputBase.value)
    requires PlainValue(Join(noUpload, ","))
    ensures ReadDescription(Lines(Serialize(d, outputBase, noUpload)), false) ==
      Ok(Described(d, outputBase, noUpload))
  {
    var es := TextEntries(d) + ExtraEntries(outputBase, noUpload);
    DescribedEntriesPlain(d, outputBase, noUpload);
    DescriptionLines(d, outputBase, noUpload);
    ReadEntryLines(es);
    FromDescribedEntries(d, outputBase, noUpload);
  }

  /** A dictionary of one string entry. */
  lemma {:induction false} SingleEntry(k: string, v: string)
    ensures var d := Set(Empty, k, Str(v));
      d.keys == [k] && TextEntries(d) == [(k, v)] && AsText(d) == d && Valid(d)
      && FromEntries([(k, v)]) == d
  {
    var d := Set(Empty, k, Str(v));
    assert AsText(d).vals == d.vals;
    FromEntriesSnoc([], (k, v));
    assert [] + [(k, v)] == [(k, v)];
  }

  /** The submitter's reading cuts a value at its first '=': the line
      `k=a=b` reads back as `a` where the writer meant `a=b`, which the
      reading up to the end of the line keeps. */
  lemma {:induction false} TruncatedRead(k: string, a: string, b: string)
    requires PlainKey(k) && '=' !in a && PlainValue(a) && PlainValue(a + "=" + b)
    ensures var d := Set(Empty, k, Str(a + "=" + b));
      && ReadDescription(Lines(Serialize(d, None, [])), true) == Ok(Set(Empty, k, Str(a)))
      && ReadDescription(Lines(Serialize(d, None, [])), false) == Ok(d)
  {
    var v := a + "=" + b;
    var d := Set(Empty, k, Str(v));
    SingleEntry(k, v);
    SingleEntry(k, a);
    var l := k + "=" + v + "\n";
    assert Lines(Serialize(d, None, [])) == [l] by {
      assert TextEntries(d) + ExtraEntries(None, []) == [(k, v)];
      assert AllPlain([(k, v)]);
      DescriptionLines(d, None, []);
      assert Terminated(EntryLines([(k, v)])) == [l];
    }
    TruncatingReadLine(k, a, b);
    assert Writable(d);
    DescriptionRoundTrip(d, None, []);
  }

  lemma {:induction false} TruncatingReadLine(k: string, a: string, b: string)
    requires '=' !in k && '=' !in a && Stripped(a)
    ensures ReadEntries([k + "=" + (a + "=" + b) + "\n"], true) == Ok([(k, a)])
  {
    var l := k + "=" + (a + "=" + b) + "\n";
    assert l == k + "=" + a + ("=" + b + "\n");
    LineFields(k, a, "=" + b + "\n");
    StripKeepsStripped(a);
    assert ReadEntry(l, true) == Ok((k, a));
    ReadOneLine(l, true);
  }

  lemma {:induction false} ReadOneLine(l: string, truncate: bool)
    ensures ReadEntry(l, truncate).Ok? ==> ReadEntries([l], truncate) == Ok([ReadEntry(l, truncate).value])
  {
    assert [l][1..] == [];
    assert [l][0] == l;
    assert ReadEntries([], truncate) == Ok([]);
    if ReadEntry(l, truncate).Ok? {
      var e := ReadEntry(l, truncate).value;
      assert [e] + [] == [e];
    }
  }

  /** A line with at most one '=' reads the same whether or not its value
      is cut at a second '='. */
  predicate SingleSeparator(l: string) {
    '=' in l ==> |Split(l, '=')| == 2
  }

  lemma {:induction false} ReadEntryAgrees(l: string)
    requires SingleSeparator(l)
    ensures ReadEntry(l, true) == ReadEntry(l, false)
  {
    if '=' in l {
      HasSecondPart(l);
      var p := Split(l, '=');
      assert Join(p[1..], "=") == p[1];
      assert l[|KeyOf(l)| + 1..] == p[1];
    }
  }

  /** The submitter's truncating reading of a description agrees with the
      full one when no line holds a second '='. */
  lemma {:induction false} ReadDescriptionAgrees(lines: seq<string>)
    requires forall j :: 0 <= j < |lines| ==> SingleSeparator(lines[j])
    ensures ReadDescription(lines, true) == ReadDescription(lines, false)
  {
    ReadEntriesAgree(lines);
  }

  lemma {:induction false} ReadEntriesAgree(lines: seq<string>)
    requires forall j :: 0 <= j < |lines| ==> SingleSeparator(lines[j])
    ensures ReadEntries(lines, true) == ReadEntries(lines, false)
  {
    if lines != [] {
      ReadEntryAgrees(lines[0]);
      assert forall j :: 0 <= j < |lines[1..]| ==> lines[1..][j] == lines[j + 1];
      ReadEntriesAgree(lines[1..]);
    }
  }

  /** A remote location with a query string loses everything from the '='
      of the query on. */
  lemma {:induction false} TruncatedValue()
    ensures var d := Set(Empty, "InputDataLocationRemote", Str("https://se/f?a=b"));
      && ReadDescription(Lines(Serialize(d, None, [])), true) ==
         Ok(Set(Empty, "InputDataLocationRemote", Str("https://se/f?a")))
      && ReadDescription(Lines(Serialize(d, None, [])), false) == Ok(d)
  {
    RemoteKeyPlain();
    QueryLocationPlain();
    TruncatedRead("InputDataLocationRemote", "https://se/f?a", "b");
  }

  lemma {:induction false} RemoteKeyPlain()
    ensures PlainKey("InputDataLocationRemote")
  {
  }

  lemma {:induction false} QueryLocationPlain()
    ensures '=' !in "https://se/f?a" && PlainValue("https://se/f?a")
    ensures "https://se/f?a" + "=" + "b" == "https://se/f?a=b"
    ensures PlainValue("https://se/f?a=b")
  {
  }
}
