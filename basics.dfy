/** Option and Result types shared by every module, and the exceptions of the
    modelled Python code, one constructor per cause. */
module Basics {

  datatype Option<+T> = None | Some(value: T)

  /** Why an operation raised. The Python code raises bare `Exception`s with a
      message, or lets a KeyError / IndexError / ValueError escape; the model
      keeps only the cause. */
  datatype Failure =
    | MalformedIdentifier(id: string)    // 'scope:name' does not split into two parts
    | DatasetNotFound(id: string)        // the replica catalogue has no such identifier
    | EmptyReplicaList(rse: string)      // rep[0] on an RSE that lists no URL
    | NoUsableLocation(file: string)     // neither a local nor a remote replica
    | NoPileupLocation(file: string)     // no remote replica of a pileup file
    | EmptyPileup                        // len(files) // len(pileup) with an empty pileup
    | MetadataLookupFailed(file: string) // get_did_meta raised
    | MissingKey(key: string)            // KeyError on a dict lookup
    | NotAString(key: string)            // a str method applied to an integer value
    | BadInteger(text: string)           // int() rejects the text
    | MissingField(text: string)         // split(...)[1] on text without the separator
    | UnknownTemplate(name: string)      // the template file cannot be opened
    | NoOutputProtocol(rse: string)      // get_protocols gave nothing for the RSE
    | MissingFile                        // a description file cannot be opened
    | UnknownSite(name: string)          // self.sites[...] KeyError
    | NoHostname(scheme: string)         // None + str on an endpoint without host
    | NoBatch                            // None[:50] on a job without batch id
    | NoSchedconfig(site: string)        // schedconfig list[0] IndexError
    | ParserRaised                       // the ATLAS job description parser raised
    | UnboundXrsl                        // `xrsl` read before any assignment (NameError)

  datatype Result<+T> = Ok(value: T) | Err(error: Failure) {
    predicate IsFailure() { Err? }

    function PropagateFailure<U>(): Result<U>
      requires Err?
    {
      Err(error)
    }

    function Extract(): T
      requires Ok?
    {
      value
    }
  }

  /** The values of a sequence of attempts in order, or the failure of the
      first attempt that failed: what a loop that stops at its first
      exception produces. */
  function Collect<T>(rs: seq<Result<T>>): (r: Result<seq<T>>)
    ensures r.Ok? ==> |r.value| == |rs|
  {
    if rs == [] then Ok([])
    else
      match Collect(rs[..|rs| - 1])
      case Err(e) => Err(e)
      case Ok(prev) =>
        match rs[|rs| - 1]
        case Err(e) => Err(e)
        case Ok(v) => Ok(prev + [v])
  }

  /** Once a prefix of the attempts fails, all of them fail the same way. */
  lemma {:induction false} CollectFailsFrom<T>(rs: seq<Result<T>>, j: nat)
    requires j <= |rs|
    requires Collect(rs[..j]).Err?
    ensures Collect(rs) == Collect(rs[..j])
    decreases |rs| - j
  {
    if j < |rs| {
      assert rs[..j + 1][..j] == rs[..j];
      CollectFailsFrom(rs, j + 1);
    } else {
      assert rs[..j] == rs;
    }
  }

  /** One more attempt: a failure ends the collection with its failure, a
      value extends it. */
  lemma {:induction false} CollectStep<T>(rs: seq<Result<T>>, i: nat, out: seq<T>)
    requires i < |rs| && Collect(rs[..i]) == Ok(out)
    ensures rs[i].Err? ==> Collect(rs) == Err(rs[i].error)
    ensures rs[i].Ok? ==> Collect(rs[..i + 1]) == Ok(out + [rs[i].value])
  {
    assert rs[..i + 1][..i] == rs[..i];
    assert rs[..i + 1][i] == rs[i];
    if rs[i].Err? {
      CollectFailsFrom(rs, i + 1);
    }
  }

  /** The attempts succeed together exactly when each one does, and then
      value i is the value of attempt i. */
  lemma {:induction false} CollectEach<T>(rs: seq<Result<T>>)
    ensures Collect(rs).Ok? <==> forall i :: 0 <= i < |rs| ==> rs[i].Ok?
    ensures Collect(rs).Ok? ==> forall i :: 0 <= i < |rs| ==> Collect(rs).value[i] == rs[i].value
  {
    if rs != [] {
      var init := rs[..|rs| - 1];
      CollectEach(init);
      forall i | 0 <= i < |init| ensures init[i] == rs[i] {
      }
    }
  }

  /** The first failing attempt, when attempts before it succeed, decides the
      outcome. */
  lemma {:induction false} CollectFirstFailure<T>(rs: seq<Result<T>>, j: nat)
    requires j < |rs| && rs[j].Err?
    requires forall i :: 0 <= i < j ==> rs[i].Ok?
    ensures Collect(rs) == Err(rs[j].error)
  {
    var pre := rs[..j];
    CollectEach(pre);
    assert rs[..j + 1][..j] == pre;
    CollectFailsFrom(rs, j + 1);
  }

  /** No element occurs twice. */
  ghost predicate Distinct<T>(s: seq<T>) {
    forall i, j :: 0 <= i < j < |s| ==> s[i] != s[j]
  }
}
