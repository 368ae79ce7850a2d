/** The job template of a variant: a copy of the template file in which the
    lines setting the run number, the input file and the random seeds are
    replaced by values from the variant's configuration. */
module Templates {
  import opened Basics
  import opened Strings
  import opened Dicts

  const RunNumberKey := "runNumber"
  const InputFileKey := "InputFile"
  const Seed1Key := "RandomSeed1"
  const Seed2Key := "RandomSeed2"

  /** The line prefixes the substitution tests, in the order it tests them. */
  const SimRunNumber := "sim.runNumber"
  const PRun := "p.run"
  const PInputFiles := "p.inputFiles"
  const SimRandomSeeds := "sim.randomSeeds"

  /** A template line is substituted when it starts with one of the prefixes. */
  predicate IsDirective(l: string) {
    StartsWith(l, SimRunNumber) || StartsWith(l, PRun) || StartsWith(l, PInputFiles) || StartsWith(l, SimRandomSeeds)
  }

  /** The line that replaces a template line, or the line itself; a missing
      run number, a non-string input file or one without ':' raises. */
  function RenderLine(l: string, cfg: Dict): Result<string> {
    if StartsWith(l, SimRunNumber) then
      var r :- Lookup(cfg, RunNumberKey);
      Ok("sim.runNumber = " + Text(r) + "\n")
    else if StartsWith(l, PRun) then
      var r :- Lookup(cfg, RunNumberKey);
      Ok("p.run = " + Text(r) + "\n")
    else if StartsWith(l, PInputFiles) then
      var f :- StrField(cfg, InputFileKey);
      var parts := Split(f, ':');
      if |parts| < 2 then Err(MissingField(f))
      else Ok("p.inputFiles = [ \"" + parts[1] + "\" ]\n")
    else if StartsWith(l, SimRandomSeeds) then
      Ok("sim.randomSeeds = [ " + Text(GetOr(cfg, Seed1Key, Int(0))) + ", " + Text(GetOr(cfg, Seed2Key, Int(0))) + " ]\n")
    else Ok(l)
  }

  /** The rendered template: one line per template line, in template order;
      the first line that cannot be rendered raises. */
  function Render(template: seq<string>, cfg: Dict): (r: Result<seq<string>>)
    ensures r.Ok? ==> |r.value| == |template|
  {
    if template == [] then Ok([])
    else
      match Render(template[..|template| - 1], cfg)
      case Err(f) => Err(f)
      case Ok(prev) =>
        match RenderLine(template[|template| - 1], cfg)
        case Err(f) => Err(f)
        case Ok(x) => Ok(prev + [x])
  }

  /** What the substitution loop leaves in the template file: the lines
      written, and the failure when a line raised. The file is opened before
      the loop, so the lines before the one that raised stay written. */
  datatype Rendering = Rendering(lines: seq<string>, failure: Option<Failure>)

  /** The template file as the loop writes it. */
  function Rendered(template: seq<string>, cfg: Dict): (r: Rendering)
    ensures |r.lines| <= |template|
  {
    if template == [] then Rendering([], None)
    else
      var prev := Rendered(template[..|template| - 1], cfg);
      if prev.failure.Some? then prev
      else
        match RenderLine(template[|template| - 1], cfg)
        case Err(f) => Rendering(prev.lines, Some(f))
        case Ok(x) => Rendering(prev.lines + [x], None)
  }

  /** The file holds the rendering of each template line up to the first
      that raises, and that line's failure; it holds the whole rendered
      template exactly when rendering succeeds. */
  lemma {:induction false} RenderedLines(template: seq<string>, cfg: Dict)
    ensures var r := Rendered(template, cfg);
      && (forall i :: 0 <= i < |r.lines| ==> RenderLine(template[i], cfg) == Ok(r.lines[i]))
      && (r.failure.Some? ==> |r.lines| < |template| && RenderLine(template[|r.lines|], cfg) == Err(r.failure.value))
      && (r.failure.None? <==> Render(template, cfg).Ok?)
      && (Render(template, cfg).Ok? ==> r.lines == Render(template, cfg).value)
      && (Render(template, cfg).Err? ==> r.failure == Some(Render(template, cfg).error))
  {
    if template != [] {
      var init := template[..|template| - 1];
      RenderedLines(init, cfg);
      forall i | 0 <= i < |init| ensures init[i] == template[i] {
      }
    }
  }

  /** The substitution loop: each template line is written, substituted or
      verbatim, to the job's template file, until a line raises. */
  method RenderTemplate(template: seq<string>, cfg: Dict) returns (r: Rendering)
    ensures r == Rendered(template, cfg)
  {
    var out: seq<string> := [];
    var i := 0;
    while i < |template|
      invariant 0 <= i <= |template|
      invariant Rendered(template[..i], cfg) == Rendering(out, None)
    {
      assert template[..i + 1][..i] == template[..i];
      var line := RenderLine(template[i], cfg);
      if line.Err? {
        RenderedFailsFrom(template, cfg, i + 1);
        return Rendering(out, Some(line.error));
      }
      out := out + [line.value];
      i := i + 1;
    }
    assert template[..i] == template;
    return Rendering(out, None);
  }

  /** Once a line raises, the loop writes nothing more. */
  lemma {:induction false} RenderedFailsFrom(template: seq<string>, cfg: Dict, j: nat)
    requires j <= |template|
    requires Rendered(template[..j], cfg).failure.Some?
    ensures Rendered(template, cfg) == Rendered(template[..j], cfg)
    decreases |template| - j
  {
    if j < |template| {
      var t := template[..j + 1];
      assert t[..j] == template[..j];
      RenderedFailsFrom(template, cfg, j + 1);
    } else {
      assert template[..j] == template;
    }
  }

  /** Once a prefix of the template fails, the whole template fails the same way. */
  lemma {:induction false} RenderFailsFrom(template: seq<string>, cfg: Dict, j: nat)
    requires j <= |template|
    requires Render(template[..j], cfg).Err?
    ensures Render(template, cfg) == Render(template[..j], cfg)
    decreases |template| - j
  {
    if j < |template| {
      var t := template[..j + 1];
      assert t[..j] == template[..j];
      assert Render(t, cfg) == Render(template[..j], cfg);
      RenderFailsFrom(template, cfg, j + 1);
    } else {
      assert template[..j] == template;
    }
  }

  /** Rendering succeeds exactly when every line renders, and then line i of
      the output is the rendering of template line i. */
  lemma {:induction false} RenderEach(template: seq<string>, cfg: Dict)
    ensures Render(template, cfg).Ok? <==> forall i :: 0 <= i < |template| ==> RenderLine(template[i], cfg).Ok?
    ensures Render(template, cfg).Ok? ==>
      forall i :: 0 <= i < |template| ==> Render(template, cfg).value[i] == RenderLine(template[i], cfg).value
  {
    if template != [] {
      var init := template[..|template| - 1];
      RenderEach(init, cfg);
      forall i | 0 <= i < |init| ensures init[i] == template[i] {
      }
    }
  }

  /** No line starts with two of the prefixes, so the order of the tests
      decides nothing. */
  lemma {:induction false} DirectivesExclusive(l: string)
    ensures !(StartsWith(l, SimRunNumber) && StartsWith(l, PRun))
    ensures !(StartsWith(l, SimRunNumber) && StartsWith(l, PInputFiles))
    ensures !(StartsWith(l, SimRunNumber) && StartsWith(l, SimRandomSeeds))
    ensures !(StartsWith(l, PRun) && StartsWith(l, PInputFiles))
    ensures !(StartsWith(l, PRun) && StartsWith(l, SimRandomSeeds))
    ensures !(StartsWith(l, PInputFiles) && StartsWith(l, SimRandomSeeds))
  {
    if StartsWith(l, SimRunNumber) {
      assert l[0] == 's' && l[5] == 'u';
    }
    if StartsWith(l, PRun) {
      assert l[0] == 'p' && l[2] == 'r';
    }
    if StartsWith(l, PInputFiles) {
      assert l[0] == 'p' && l[2] == 'i';
    }
    if StartsWith(l, SimRandomSeeds) {
      assert l[0] == 's' && l[5] == 'a';
    }
  }

  /** Lines without a prefix are copied verbatim. */
  lemma {:induction false} VerbatimLine(l: string, cfg: Dict)
    requires !IsDirective(l)
    ensures RenderLine(l, cfg) == Ok(l)
  {
  }

  /** The run number lines show the variant's run number. */
  lemma {:induction false} RunNumberLine(l: string, cfg: Dict, n: int)
    requires Get(cfg, RunNumberKey) == Some(Int(n))
    ensures StartsWith(l, SimRunNumber) ==> RenderLine(l, cfg) == Ok("sim.runNumber = " + IntToString(n) + "\n")
    ensures StartsWith(l, PRun) ==> RenderLine(l, cfg) == Ok("p.run = " + IntToString(n) + "\n")
  {
    DirectivesExclusive(l);
  }

  /** The seeds line shows both seeds, 0 for a seed the variant lacks. */
  lemma {:induction false} SeedsLine(l: string, cfg: Dict)
    requires StartsWith(l, SimRandomSeeds)
    ensures RenderLine(l, cfg) == Ok("sim.randomSeeds = [ " +
      (if Has(cfg, Seed1Key) then Text(cfg.vals[Seed1Key]) else "0") + ", " +
      (if Has(cfg, Seed2Key) then Text(cfg.vals[Seed2Key]) else "0") + " ]\n")
  {
    DirectivesExclusive(l);
    assert IntToString(0) == "0";
  }

  /** The input files line names the input file without its scope. */
  lemma {:induction false} InputFileLine(l: string, cfg: Dict, scope: string, name: string)
    requires StartsWith(l, PInputFiles)
    requires Get(cfg, InputFileKey) == Some(Str(scope + ":" + name))
    requires ':' !in scope && ':' !in name
    ensures RenderLine(l, cfg) == Ok("p.inputFiles = [ \"" + name + "\" ]\n")
  {
    DirectivesExclusive(l);
    TwoParts(scope + ":" + name, ':', scope, name);
  }

  /** Each substituted line starts with the prefix it was chosen for. */
  lemma {:induction false} RenderedKeepsPrefix(l: string, cfg: Dict)
    requires RenderLine(l, cfg).Ok?
    ensures var x := RenderLine(l, cfg).value;
      && (StartsWith(l, SimRunNumber) ==> StartsWith(x, SimRunNumber))
      && (StartsWith(l, PRun) ==> StartsWith(x, PRun))
      && (StartsWith(l, PInputFiles) ==> StartsWith(x, PInputFiles))
      && (StartsWith(l, SimRandomSeeds) ==> StartsWith(x, SimRandomSeeds))
      && (!IsDirective(l) ==> x == l)
  {
    DirectivesExclusive(l);
    var x := RenderLine(l, cfg).value;
    if StartsWith(l, SimRunNumber) {
      PrefixOfConcat(SimRunNumber, " = " + Text(cfg.vals[RunNumberKey]) + "\n");
    } else if StartsWith(l, PRun) {
      PrefixOfConcat(PRun, " = " + Text(cfg.vals[RunNumberKey]) + "\n");
    } else if StartsWith(l, PInputFiles) {
      var parts := Split(cfg.vals[InputFileKey].s, ':');
      PrefixOfConcat(PInputFiles, " = [ \"" + parts[1] + "\" ]\n");
    } else if StartsWith(l, SimRandomSeeds) {
      PrefixOfConcat(SimRandomSeeds, " = [ " + Text(GetOr(cfg, Seed1Key, Int(0))) + ", " + Text(GetOr(cfg, Seed2Key, Int(0))) + " ]\n");
    }
  }

  lemma {:induction false} PrefixOfConcat(p: string, rest: string)
    ensures StartsWith(p + rest, p)
  {
    assert (p + rest)[..|p|] == p;
  }

  /** Rendering a line a second time with the same configuration changes nothing. */
  lemma {:induction false} RenderLineIdempotent(l: string, cfg: Dict)
    requires RenderLine(l, cfg).Ok?
    ensures RenderLine(RenderLine(l, cfg).value, cfg) == RenderLine(l, cfg)
  {
    RenderedKeepsPrefix(l, cfg);
    var x := RenderLine(l, cfg).value;
    DirectivesExclusive(x);
  }

  /** Rendering a rendered template again gives it back. */
  lemma {:induction false} RenderIdempotent(template: seq<string>, cfg: Dict)
    requires Render(template, cfg).Ok?
    ensures Render(Render(template, cfg).value, cfg) == Render(template, cfg)
  {
    var out := Render(template, cfg).value;
    RenderEach(template, cfg);
    forall i | 0 <= i < |out| ensures RenderLine(out[i], cfg) == Ok(out[i]) {
      RenderLineIdempotent(template[i], cfg);
    }
    RenderEach(out, cfg);
    assert Render(out, cfg).value == out;
  }
}
