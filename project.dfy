/** The analysis project, `FCProject`, in its two versions: the newer
    package's (`Current`) and the older standalone script's (`Legacy`). Both
    keep a registry of seeds, drive the external tools over every
    (session, seed) unit and record the files those tools write; they differ
    in their directory layout, in whether seed names are normalised, and in
    the snapshot images and report only the newer one makes. */
module Project {
  import opened Wrappers
  import opened Strings
  import opened Paths
  import opened Errors
  import opened SeedList
  import opened Artifacts
  import Seed
  import opened Graphics

  datatype Version = Current | Legacy

  /** The directories `__init__` derives from the output root and the project label. */
  datatype Layout = Layout(output: string, seeds: string, sessions: string, results: string,
                           vols: string, imgs: string, ts: string,
                           group: string, grpCsv: string, grpVols: string, grpImgs: string)

  /** The newer version puts first-level results under `results-indiv` and
      group results, split into `csv`, `vols` and `imgs`, under
      `results-group`. The older one puts everything under `results`, with
      group files directly in `results/group-stats` and group images in
      `results/imgs`. `outputRoot` is already absolute (`abspath` is not
      modelled). */
  function MakeLayout(version: Version, outputRoot: string, projectLabel: string): Layout
  {
    var out := Join(outputRoot, projectLabel);
    match version
    case Current =>
      var results := Join(out, "results-indiv");
      var group := Join(out, "results-group");
      Layout(out, Join(out, "seeds"), Join(out, "sessions"), results,
             Join(results, "vols"), Join(results, "imgs"), Join(results, "timecourse"),
             group, Join(group, "csv"), Join(group, "vols"), Join(group, "imgs"))
    case Legacy =>
      var results := Join(out, "results");
      var group := Join(results, "group-stats");
      Layout(out, Join(out, "seeds"), Join(out, "sessions"), results,
             Join(results, "volumes"), Join(results, "imgs"), Join(results, "timecourse"),
             group, group, group, Join(results, "imgs"))
  }

  /** `d` is a path strictly inside `parent`. */
  predicate Under(d: string, parent: string)
  {
    |parent| < |d| && d[..|parent|] == parent
  }

  lemma JoinUnder(a: string, b: string)
    requires Relative(b) && b != []
    ensures Under(Join(a, b), a)
  {
  }

  lemma UnderTransitive(c: string, b: string, a: string)
    requires Under(c, b) && Under(b, a)
    ensures Under(c, a)
  {
    assert c[..|a|] == c[..|b|][..|a|];
  }

  /** Every directory of the project lies inside the output directory
      `<output>/<label>`; the first-level directories lie inside the results
      directory and, in the newer version, the group directories inside the
      group directory. */
  lemma LayoutNesting(version: Version, outputRoot: string, projectLabel: string)
    ensures var l := MakeLayout(version, outputRoot, projectLabel);
            l.output == Join(outputRoot, projectLabel)
            && Under(l.seeds, l.output) && Under(l.sessions, l.output) && Under(l.results, l.output)
            && Under(l.vols, l.results) && Under(l.imgs, l.results) && Under(l.ts, l.results)
            && Under(l.group, l.output) && Under(l.grpCsv, l.output) && Under(l.grpVols, l.output)
            && Under(l.grpImgs, l.output)
    ensures var l := MakeLayout(version, outputRoot, projectLabel);
            version.Current? ==> Under(l.grpCsv, l.group) && Under(l.grpVols, l.group) && Under(l.grpImgs, l.group)
    ensures var l := MakeLayout(version, outputRoot, projectLabel);
            version.Legacy? ==> l.results == Join(l.output, "results") && Under(l.group, l.results)
  {
    var l := MakeLayout(version, outputRoot, projectLabel);
    var out := l.output;
    JoinUnder(out, "seeds");
    JoinUnder(out, "sessions");
    match version
    case Current =>
      JoinUnder(out, "results-indiv");
      JoinUnder(out, "results-group");
      JoinUnder(l.results, "vols");
      JoinUnder(l.results, "imgs");
      JoinUnder(l.results, "timecourse");
      JoinUnder(l.group, "csv");
      JoinUnder(l.group, "vols");
      JoinUnder(l.group, "imgs");
      UnderTransitive(l.grpCsv, l.group, out);
      UnderTransitive(l.grpVols, l.group, out);
      UnderTransitive(l.grpImgs, l.group, out);
    case Legacy =>
      JoinUnder(out, "results");
      JoinUnder(l.results, "volumes");
      JoinUnder(l.results, "imgs");
      JoinUnder(l.results, "timecourse");
      JoinUnder(l.results, "group-stats");
      UnderTransitive(l.group, l.results, out);
      UnderTransitive(l.grpImgs, l.results, out);
  }

  /** The directories a stage writes into are pairwise different: the
      subdirectories of one directory by `JoinInjective`, and the results and
      group directories of the newer version likewise. */
  lemma LayoutDistinct(version: Version, outputRoot: string, projectLabel: string)
    ensures var l := MakeLayout(version, outputRoot, projectLabel);
            l.seeds != l.sessions && l.seeds != l.results && l.sessions != l.results
            && l.vols != l.imgs && l.vols != l.ts && l.imgs != l.ts
    ensures var l := MakeLayout(version, outputRoot, projectLabel);
            version.Current? ==> l.results != l.group && l.grpCsv != l.grpVols
                                 && l.grpCsv != l.grpImgs && l.grpVols != l.grpImgs
    ensures var l := MakeLayout(version, outputRoot, projectLabel);
            version.Legacy? ==> l.group != l.vols && l.group != l.imgs && l.group != l.ts
  {
    var l := MakeLayout(version, outputRoot, projectLabel);
    var out := l.output;
    var r := if version.Current? then "results-indiv" else "results";
    Distinct3(out, "seeds", "sessions", r);
    match version
    case Current =>
      Distinct3(l.results, "vols", "imgs", "timecourse");
      Distinct3(l.group, "csv", "vols", "imgs");
      if l.results == l.group {
        JoinInjective(out, "results-indiv", "results-group");
      }
    case Legacy =>
      Distinct3(l.results, "volumes", "imgs", "timecourse");
      Distinct3(l.results, "group-stats", "imgs", "timecourse");
      if l.group == l.vols {
        JoinInjective(l.results, "group-stats", "volumes");
      }
  }

  lemma Distinct3(d: string, a: string, b: string, c: string)
    requires Relative(a) && Relative(b) && Relative(c) && a != b && a != c && b != c
    ensures Join(d, a) != Join(d, b) && Join(d, a) != Join(d, c) && Join(d, b) != Join(d, c)
  {
    if Join(d, a) == Join(d, b) { JoinInjective(d, a, b); }
    if Join(d, a) == Join(d, c) { JoinInjective(d, a, c); }
    if Join(d, b) == Join(d, c) { JoinInjective(d, b, c); }
  }

  // ---------------------------------------------------------------- seeds

  /** Where `add_seed` keeps a seed file: `<dir_seeds>/basename(filename)`. */
  function SeedFileIn(dirSeeds: string, filename: string): string
  {
    Join(dirSeeds, Basename(filename))
  }

  /** A registered seed file is inside the seed directory, and registering it
      again neither moves nor copies it. */
  lemma SeedFileInPlace(dirSeeds: string, filename: string)
    ensures Basename(filename) != [] ==> Under(SeedFileIn(dirSeeds, filename), dirSeeds)
    ensures SeedFileIn(dirSeeds, SeedFileIn(dirSeeds, filename)) == SeedFileIn(dirSeeds, filename)
  {
    var b := Basename(filename);
    if b != [] {
      JoinUnder(dirSeeds, b);
    }
    JoinBasenameFixpoint(dirSeeds, b);
  }

  /** The name a seed-list line gives its seed: normalised by the newer
      version, taken verbatim by the older one. */
  function SeedName(version: Version, field: string): string
  {
    match version
    case Current => Normalize(field)
    case Legacy => field
  }

  /** `create_seed(name, x, y, z, radius)`: `3dUndump` writes
      `<dir_seeds>/<name>_<radius as %d>mm.nii.gz`, then `add_seed` registers
      it. The result is the registered file or the fatal error. */
  function SeedCreation(dirSeeds: string, name: string, radius: real, ok: Command -> bool,
                        isFile: string -> bool): Result<string, Error>
  {
    var file := Seed.SeedFilePath(dirSeeds, name, radius);
    if !ok(Seed.UndumpCommand(file)) then Failure(ToolFailed(Seed.UndumpCommand(file)))
    else if !isFile(file) then Failure(MissingSeedFile(file))
    else Success(SeedFileIn(dirSeeds, file))
  }

  /** A created seed is registered under the very file `3dUndump` wrote (no
      copy is made), unless the name holds a slash. */
  lemma CreatedSeedNotCopied(dirSeeds: string, name: string, radius: real, ok: Command -> bool,
                             isFile: string -> bool)
    requires '/' !in name
    ensures SeedCreation(dirSeeds, name, radius, ok, isFile).Success? ==>
              SeedCreation(dirSeeds, name, radius, ok, isFile).value == Seed.SeedFilePath(dirSeeds, name, radius)
  {
    var file := Seed.SeedFilePath(dirSeeds, name, radius);
    if ok(Seed.UndumpCommand(file)) && isFile(file) {
      assert SeedCreation(dirSeeds, name, radius, ok, isFile) == Success(SeedFileIn(dirSeeds, file));
      Seed.CreatedFileNeedsNoCopy(dirSeeds, name, radius);
    }
  }

  /** One seed registration: the registry maps `name` to `file`. */
  datatype Registration = Registration(name: string, file: string)

  /** What one line of `create_seed_from_file` does. Short lines are skipped.
      Without a radius argument every other line is fatal: a five-field line
      reads the missing sixth field `fields[5]`, any other exits with an
      error. Otherwise the seed is created and registered. */
  function LineVerdict(version: Version, dirSeeds: string, line: string, radius: Option<real>,
                       ok: Command -> bool, isFile: string -> bool): (v: Verdict<Registration>)
    ensures v.Skip? <==> Seed.Short(line)
    ensures radius.None? && !Seed.Short(line) ==>
              v == Stop(if |Seed.Fields(line)| == 5 then RadiusIndex else MissingRadius)
    ensures v.Accept? ==>
              radius.Some? && !Seed.Short(line)
              && v.item.name == SeedName(version, Seed.Fields(line)[0])
              && SeedCreation(dirSeeds, v.item.name, radius.value, ok, isFile) == Success(v.item.file)
  {
    var fields := Seed.Fields(line);
    if |fields| < 4 then Skip
    else if radius.None? then Stop(if |fields| == 5 then RadiusIndex else MissingRadius)
    else
      var name := SeedName(version, fields[0]);
      match SeedCreation(dirSeeds, name, radius.value, ok, isFile)
      case Failure(e) => Stop(e)
      case Success(f) => Accept(Registration(name, f))
  }

  function LineVerdicts(version: Version, dirSeeds: string, lines: seq<string>, radius: Option<real>,
                        ok: Command -> bool, isFile: string -> bool): (vs: seq<Verdict<Registration>>)
    ensures |vs| == |lines|
  {
    seq(|lines|, i requires 0 <= i < |lines| => LineVerdict(version, dirSeeds, lines[i], radius, ok, isFile))
  }

  /** The registry after a series of registrations, in order. */
  function Registered(m: map<string, string>, items: seq<Registration>): map<string, string>
  {
    if items == [] then m
    else Registered(m, items[..|items| - 1])[items[|items| - 1].name := items[|items| - 1].file]
  }

  /** The last registration of a name decides its file. */
  lemma {:induction false} RegisteredLastWins(m: map<string, string>, items: seq<Registration>, k: nat)
    requires k < |items|
    requires forall j :: k < j < |items| ==> items[j].name != items[k].name
    ensures items[k].name in Registered(m, items)
    ensures Registered(m, items)[items[k].name] == items[k].file
  {
    if k < |items| - 1 {
      RegisteredLastWins(m, items[..|items| - 1], k);
    }
  }

  /** A name no registration mentions keeps its entry, or its absence. */
  lemma {:induction false} RegisteredUntouched(m: map<string, string>, items: seq<Registration>, name: string)
    requires forall j :: 0 <= j < |items| ==> items[j].name != name
    ensures name in Registered(m, items) <==> name in m
    ensures name in m ==> Registered(m, items)[name] == m[name]
  {
    if items != [] {
      RegisteredUntouched(m, items[..|items| - 1], name);
    }
  }

  /** Without a radius argument nothing is registered: the first line with
      four fields or more stops the run, and it stops it whatever its fields
      say. */
  lemma NoRadiusNoSeeds(version: Version, dirSeeds: string, lines: seq<string>,
                        ok: Command -> bool, isFile: string -> bool)
    ensures ScanLines(LineVerdicts(version, dirSeeds, lines, None, ok, isFile)).items == []
    ensures ScanLines(LineVerdicts(version, dirSeeds, lines, None, ok, isFile)).fatal.Some?
            <==> exists k :: 0 <= k < |lines| && !Seed.Short(lines[k])
  {
    var vs := LineVerdicts(version, dirSeeds, lines, None, ok, isFile);
    var n := FirstStop(vs);
    ScanLinesSpec(vs);
    assert ScanLines(vs).items == [] by {
      forall i | 0 <= i < n
        ensures !vs[..n][i].Accept?
      {
        NoRadiusVerdict(version, dirSeeds, lines, ok, isFile, i);
      }
      NoneAccepted(vs[..n]);
    }
    if n < |vs| {
      NoRadiusVerdict(version, dirSeeds, lines, ok, isFile, n);
    }
    if exists k :: 0 <= k < |lines| && !Seed.Short(lines[k]) {
      var k :| 0 <= k < |lines| && !Seed.Short(lines[k]);
      NoRadiusVerdict(version, dirSeeds, lines, ok, isFile, k);
      assert n <= k;
    }
  }

  lemma NoRadiusVerdict(version: Version, dirSeeds: string, lines: seq<string>,
                        ok: Command -> bool, isFile: string -> bool, i: nat)
    requires i < |lines|
    ensures var v := LineVerdicts(version, dirSeeds, lines, None, ok, isFile)[i];
            !v.Accept? && (v.Stop? <==> !Seed.Short(lines[i]))
  {
    assert LineVerdicts(version, dirSeeds, lines, None, ok, isFile)[i]
           == LineVerdict(version, dirSeeds, lines[i], None, ok, isFile);
  }

  lemma {:induction false} NoneAccepted<S>(vs: seq<Verdict<S>>)
    requires forall i :: 0 <= i < |vs| ==> !vs[i].Accept?
    ensures Accepted(vs) == []
  {
    if vs != [] {
      NoneAccepted(vs[1..]);
    }
  }

  /** With a radius argument, every registered seed was created with that
      radius, under the name its line gives it. */
  lemma RegisteredFromLine(version: Version, dirSeeds: string, lines: seq<string>, r: real,
                           ok: Command -> bool, isFile: string -> bool, k: nat)
    requires k < |lines|
    requires LineVerdicts(version, dirSeeds, lines, Some(r), ok, isFile)[k].Accept?
    ensures var item := LineVerdicts(version, dirSeeds, lines, Some(r), ok, isFile)[k].item;
            item.name == SeedName(version, Seed.Fields(lines[k])[0])
            && item.file == SeedFileIn(dirSeeds, Seed.SeedFilePath(dirSeeds, item.name, r))
  {
    assert LineVerdicts(version, dirSeeds, lines, Some(r), ok, isFile)[k]
           == LineVerdict(version, dirSeeds, lines[k], Some(r), ok, isFile);
  }

  /** The five-field line `s,1,2,3,4`, read without a radius argument, is
      fatal: its radius is looked up as a sixth field, which it does not
      have. */
  lemma FiveFieldLineFatal(version: Version, dirSeeds: string, ok: Command -> bool, isFile: string -> bool)
    ensures |Seed.Fields("s,1,2,3,4")| == 5
    ensures LineVerdict(version, dirSeeds, "s,1,2,3,4", None, ok, isFile) == Stop(RadiusIndex)
  {
    Seed.FiveFields();
  }

  /** The line numbers `create_seed_from_file` warns about. */
  function Warnings(version: Version, dirSeeds: string, lines: seq<string>, radius: Option<real>,
                    ok: Command -> bool, isFile: string -> bool): seq<nat>
  {
    ScanLines(LineVerdicts(version, dirSeeds, lines, radius, ok, isFile)).warnings
  }

  /** Every warning of `create_seed_from_file` is the 1-based number of a line
      with fewer than four fields, in line order. */
  lemma WarnedLineIsShort(version: Version, dirSeeds: string, lines: seq<string>, radius: Option<real>,
                          ok: Command -> bool, isFile: string -> bool, j: nat)
    requires j < |Warnings(version, dirSeeds, lines, radius, ok, isFile)|
    ensures 1 <= Warnings(version, dirSeeds, lines, radius, ok, isFile)[j] <= |lines|
    ensures Seed.Short(lines[Warnings(version, dirSeeds, lines, radius, ok, isFile)[j] - 1])
    ensures j > 0 ==> Warnings(version, dirSeeds, lines, radius, ok, isFile)[j - 1]
                      < Warnings(version, dirSeeds, lines, radius, ok, isFile)[j]
  {
    var vs := LineVerdicts(version, dirSeeds, lines, radius, ok, isFile);
    WarningsSkipped(vs);
    var w := ScanLines(vs).warnings;
    SkippedLineShort(version, dirSeeds, lines, radius, ok, isFile, w[j] - 1);
  }

  lemma SkippedLineShort(version: Version, dirSeeds: string, lines: seq<string>, radius: Option<real>,
                         ok: Command -> bool, isFile: string -> bool, k: nat)
    requires k < |lines|
    ensures LineVerdicts(version, dirSeeds, lines, radius, ok, isFile)[k].Skip? <==> Seed.Short(lines[k])
  {
    assert LineVerdicts(version, dirSeeds, lines, radius, ok, isFile)[k]
           == LineVerdict(version, dirSeeds, lines[k], radius, ok, isFile);
  }

  /** `order` lists the keys of `m` once each: the order in which a Python 2
      dict yields its keys, which the model leaves open. */
  predicate SeedOrder(order: seq<string>, m: map<string, string>)
  {
    (forall k :: 0 <= k < |order| ==> order[k] in m)
    && (forall s :: s in m ==> s in order)
    && (forall i, j :: 0 <= i < j < |order| ==> order[i] != order[j])
  }

  // ------------------------------------------------------- timecourses

  /** `fslmeants` over the session's bold volume, masked by the seed file. */
  function TsCommand(bold: string, seedFile: string, ts: string): Command
  {
    Run("fslmeants", [bold, seedFile], ts)
  }

  /** The timecourse files of one session after `extract_ts` has handled the
      seeds of `order`, in that order: each seed's file is recorded once its
      command has succeeded, and the first failure ends the run. */
  function ExtractFrom(tsFiles: map<string, string>, order: seq<string>, seeds: map<string, string>,
                       id: string, bold: string, dirTs: string, ok: Command -> bool)
    : (map<string, string>, Outcome)
    requires forall k :: 0 <= k < |order| ==> order[k] in seeds
    decreases |order|
  {
    if order == [] then (tsFiles, Done)
    else
      var ts := TimecoursePath(dirTs, id, order[0]);
      if !TsRuns(ok, seeds, id, bold, dirTs, order[0]) then (tsFiles, Fatal(ToolFailed(TsCommand(bold, seeds[order[0]], ts))))
      else ExtractFrom(tsFiles[order[0] := ts], order[1..], seeds, id, bold, dirTs, ok)
  }

  /** `extract_ts` finishes exactly when every seed's `fslmeants` command
      succeeds. */
  lemma ExtractDone(tsFiles: map<string, string>, order: seq<string>, seeds: map<string, string>,
                    id: string, bold: string, dirTs: string, ok: Command -> bool)
    requires forall k :: 0 <= k < |order| ==> order[k] in seeds
    ensures ExtractFrom(tsFiles, order, seeds, id, bold, dirTs, ok).1.Done? <==>
              forall k :: 0 <= k < |order| ==> TsRuns(ok, seeds, id, bold, dirTs, order[k])
  {
    if ExtractFrom(tsFiles, order, seeds, id, bold, dirTs, ok).1.Done? {
      ExtractDoneAllRun(tsFiles, order, seeds, id, bold, dirTs, ok);
    }
    if forall k :: 0 <= k < |order| ==> TsRuns(ok, seeds, id, bold, dirTs, order[k]) {
      ExtractAllRunDone(tsFiles, order, seeds, id, bold, dirTs, ok);
    }
  }

  lemma {:induction false} ExtractDoneAllRun(tsFiles: map<string, string>, order: seq<string>, seeds: map<string, string>,
                                             id: string, bold: string, dirTs: string, ok: Command -> bool)
    requires forall k :: 0 <= k < |order| ==> order[k] in seeds
    requires ExtractFrom(tsFiles, order, seeds, id, bold, dirTs, ok).1.Done?
    ensures forall k :: 0 <= k < |order| ==> TsRuns(ok, seeds, id, bold, dirTs, order[k])
    decreases |order|
  {
    if order != [] {
      var ts := TimecoursePath(dirTs, id, order[0]);
      var rest := order[1..];
      ExtractHead(tsFiles, order, seeds, id, bold, dirTs, ok);
      ExtractDoneAllRun(tsFiles[order[0] := ts], rest, seeds, id, bold, dirTs, ok);
      forall k | 1 <= k < |order|
        ensures TsRuns(ok, seeds, id, bold, dirTs, order[k])
      {
        assert order[k] == rest[k - 1];
      }
    }
  }

  lemma {:induction false} ExtractAllRunDone(tsFiles: map<string, string>, order: seq<string>, seeds: map<string, string>,
                                             id: string, bold: string, dirTs: string, ok: Command -> bool)
    requires forall k :: 0 <= k < |order| ==> order[k] in seeds
    requires forall k :: 0 <= k < |order| ==> TsRuns(ok, seeds, id, bold, dirTs, order[k])
    ensures ExtractFrom(tsFiles, order, seeds, id, bold, dirTs, ok).1.Done?
    decreases |order|
  {
    if order != [] {
      var ts := TimecoursePath(dirTs, id, order[0]);
      var rest := order[1..];
      assert TsRuns(ok, seeds, id, bold, dirTs, order[0]);
      forall k | 0 <= k < |rest|
        ensures TsRuns(ok, seeds, id, bold, dirTs, rest[k])
      {
        assert rest[k] == order[k + 1];
      }
      ExtractAllRunDone(tsFiles[order[0] := ts], rest, seeds, id, bold, dirTs, ok);
    }
  }

  /** One step of the fold: the first seed's command either fails the run
      or records its timecourse. */
  lemma ExtractHead(tsFiles: map<string, string>, order: seq<string>, seeds: map<string, string>,
                    id: string, bold: string, dirTs: string, ok: Command -> bool)
    requires order != [] && forall k :: 0 <= k < |order| ==> order[k] in seeds
    ensures ExtractFrom(tsFiles, order, seeds, id, bold, dirTs, ok).1.Done? ==> TsRuns(ok, seeds, id, bold, dirTs, order[0])
    ensures TsRuns(ok, seeds, id, bold, dirTs, order[0]) ==>
              ExtractFrom(tsFiles, order, seeds, id, bold, dirTs, ok)
              == ExtractFrom(tsFiles[order[0] := TimecoursePath(dirTs, id, order[0])], order[1..], seeds, id, bold, dirTs, ok)
  {
  }

  /** The `fslmeants` command of one seed succeeds. */
  predicate TsRuns(ok: Command -> bool, seeds: map<string, string>, id: string, bold: string, dirTs: string, s: string)
    requires s in seeds
  {
    ok(TsCommand(bold, seeds[s], TimecoursePath(dirTs, id, s)))
  }

  /** Once `extract_ts` has finished, every seed of the run has its
      timecourse `<dir_ts>/<id>_<seed>.1d` recorded. */
  lemma {:induction false} ExtractRecorded(tsFiles: map<string, string>, order: seq<string>, seeds: map<string, string>,
                                           id: string, bold: string, dirTs: string, ok: Command -> bool, s: string)
    requires forall k :: 0 <= k < |order| ==> order[k] in seeds
    requires ExtractFrom(tsFiles, order, seeds, id, bold, dirTs, ok).1.Done?
    requires s in order || s in tsFiles
    ensures s in ExtractFrom(tsFiles, order, seeds, id, bold, dirTs, ok).0
    ensures s in order ==> ExtractFrom(tsFiles, order, seeds, id, bold, dirTs, ok).0[s] == TimecoursePath(dirTs, id, s)
    decreases |order|
  {
    if order != [] {
      var ts := TimecoursePath(dirTs, id, order[0]);
      var rest := ExtractFrom(tsFiles[order[0] := ts], order[1..], seeds, id, bold, dirTs, ok);
      assert ExtractFrom(tsFiles, order, seeds, id, bold, dirTs, ok) == rest;
      if s in order[1..] {
        ExtractRecorded(tsFiles[order[0] := ts], order[1..], seeds, id, bold, dirTs, ok, s);
      } else {
        ExtractFrame(tsFiles[order[0] := ts], order[1..], seeds, id, bold, dirTs, ok, s);
      }
    }
  }

  /** A seed outside the run keeps whatever timecourse it had, and a run,
      even one cut short, records nothing but timecourses of its seeds. */
  lemma ExtractFrame(tsFiles: map<string, string>, order: seq<string>, seeds: map<string, string>,
                     id: string, bold: string, dirTs: string, ok: Command -> bool, s: string)
    requires forall k :: 0 <= k < |order| ==> order[k] in seeds
    ensures s !in order ==>
              (s in ExtractFrom(tsFiles, order, seeds, id, bold, dirTs, ok).0 <==> s in tsFiles)
              && (s in tsFiles ==> ExtractFrom(tsFiles, order, seeds, id, bold, dirTs, ok).0[s] == tsFiles[s])
    ensures s in order && s in ExtractFrom(tsFiles, order, seeds, id, bold, dirTs, ok).0 ==>
              ExtractFrom(tsFiles, order, seeds, id, bold, dirTs, ok).0[s] == TimecoursePath(dirTs, id, s)
              || (s in tsFiles && ExtractFrom(tsFiles, order, seeds, id, bold, dirTs, ok).0[s] == tsFiles[s])
  {
    if s !in order {
      ExtractKeepsOthers(tsFiles, order, seeds, id, bold, dirTs, ok, s);
    } else if s in ExtractFrom(tsFiles, order, seeds, id, bold, dirTs, ok).0 {
      ExtractWritesTimecourses(tsFiles, order, seeds, id, bold, dirTs, ok, s);
    }
  }

  lemma {:induction false} ExtractKeepsOthers(tsFiles: map<string, string>, order: seq<string>, seeds: map<string, string>,
                                              id: string, bold: string, dirTs: string, ok: Command -> bool, s: string)
    requires forall k :: 0 <= k < |order| ==> order[k] in seeds
    requires s !in order
    ensures s in ExtractFrom(tsFiles, order, seeds, id, bold, dirTs, ok).0 <==> s in tsFiles
    ensures s in tsFiles ==> ExtractFrom(tsFiles, order, seeds, id, bold, dirTs, ok).0[s] == tsFiles[s]
    decreases |order|
  {
    if order != [] && TsRuns(ok, seeds, id, bold, dirTs, order[0]) {
      var ts := TimecoursePath(dirTs, id, order[0]);
      var next := tsFiles[order[0] := ts];
      assert ExtractFrom(tsFiles, order, seeds, id, bold, dirTs, ok)
             == ExtractFrom(next, order[1..], seeds, id, bold, dirTs, ok);
      assert s !in order[1..];
      ExtractKeepsOthers(next, order[1..], seeds, id, bold, dirTs, ok, s);
      assert s != order[0];
      assert (s in next <==> s in tsFiles) && (s in tsFiles ==> next[s] == tsFiles[s]);
    }
  }

  lemma {:induction false} ExtractWritesTimecourses(tsFiles: map<string, string>, order: seq<string>,
                                                    seeds: map<string, string>, id: string, bold: string,
                                                    dirTs: string, ok: Command -> bool, s: string)
    requires forall k :: 0 <= k < |order| ==> order[k] in seeds
    requires s in ExtractFrom(tsFiles, order, seeds, id, bold, dirTs, ok).0
    ensures ExtractFrom(tsFiles, order, seeds, id, bold, dirTs, ok).0[s] == TimecoursePath(dirTs, id, s)
            || (s in tsFiles && ExtractFrom(tsFiles, order, seeds, id, bold, dirTs, ok).0[s] == tsFiles[s])
    decreases |order|
  {
    if order != [] && TsRuns(ok, seeds, id, bold, dirTs, order[0]) {
      var ts := TimecoursePath(dirTs, id, order[0]);
      var next := tsFiles[order[0] := ts];
      assert ExtractFrom(tsFiles, order, seeds, id, bold, dirTs, ok)
             == ExtractFrom(next, order[1..], seeds, id, bold, dirTs, ok);
      ExtractWritesTimecourses(next, order[1..], seeds, id, bold, dirTs, ok, s);
    }
  }


  // ---------------------------------------------------------- voxelwise

  /** `3dTcorr1D -pearson` of the bold volume against a timecourse. */
  function CorrCommand(bold: string, ts: string, rmap: string): Command
  {
    Run("3dTcorr1D", [bold, ts], rmap)
  }

  /** `3dcalc`'s Fisher transform of a correlation map, written where
      `volume_r2z` renames it to. */
  function R2ZCommand(rmap: string): Command
  {
    Run("3dcalc", [rmap], NiiGzToZ(rmap))
  }

  /** `snapshot_overlay` of a volume over the standard brain. */
  function OverlayCommand(overlay: string, img: string): Command
  {
    Run("snapshot_overlay", [overlay], img)
  }

  /** The correlation and z-map files of one session. */
  datatype Maps = Maps(rmap: map<string, string>, zmap: map<string, string>)

  /** One seed of `fc_voxelwise`: its timecourse must be known; the
      correlation map is recorded once computed, the z-map once converted,
      and the newer version then draws the snapshot of the correlation map. */
  function VoxelStep(version: Version, layout: Layout, maps: Maps, tsFiles: map<string, string>,
                     id: string, bold: string, seed: string, ok: Command -> bool): (Maps, Outcome)
  {
    if seed !in tsFiles then (maps, Fatal(MissingTimecourse(id, seed)))
    else
      var r := RMapPath(layout.vols, id, seed);
      var c := CorrCommand(bold, tsFiles[seed], r);
      if !ok(c) then (maps, Fatal(ToolFailed(c)))
      else
        var withR := maps.(rmap := maps.rmap[seed := r]);
        if !ok(R2ZCommand(r)) then (withR, Fatal(ToolFailed(R2ZCommand(r))))
        else
          var withZ := withR.(zmap := withR.zmap[seed := NiiGzToZ(r)]);
          if version.Legacy? then (withZ, Done)
          else (withZ, RunCommand(ok, OverlayCommand(r, SnapshotPath(layout.imgs, id, seed))))
  }

  /** `fc_voxelwise(session)` over the seeds of `order`, in that order,
      stopping at the first fatal step. */
  function VoxelwiseFrom(version: Version, layout: Layout, maps: Maps, tsFiles: map<string, string>,
                         id: string, bold: string, order: seq<string>, ok: Command -> bool): (Maps, Outcome)
    decreases |order|
  {
    if order == [] then (maps, Done)
    else
      var step := VoxelStep(version, layout, maps, tsFiles, id, bold, order[0], ok);
      if step.1.Fatal? then step
      else VoxelwiseFrom(version, layout, step.0, tsFiles, id, bold, order[1..], ok)
  }

  /** A finished `fc_voxelwise` had a timecourse for every seed, and has
      recorded for each seed its correlation map `<id>_<seed>_pearson.nii.gz`
      and its z-map `<id>_<seed>_pearson_z.nii.gz` in `dir_vols`. */
  lemma {:induction false} VoxelwiseRecorded(version: Version, layout: Layout, maps: Maps, tsFiles: map<string, string>,
                                             id: string, bold: string, order: seq<string>, ok: Command -> bool, s: string)
    requires VoxelwiseFrom(version, layout, maps, tsFiles, id, bold, order, ok).1.Done?
    requires s in order
    ensures s in tsFiles
    ensures s in VoxelwiseFrom(version, layout, maps, tsFiles, id, bold, order, ok).0.rmap
    ensures VoxelwiseFrom(version, layout, maps, tsFiles, id, bold, order, ok).0.rmap[s] == RMapPath(layout.vols, id, s)
    ensures s in VoxelwiseFrom(version, layout, maps, tsFiles, id, bold, order, ok).0.zmap
    ensures VoxelwiseFrom(version, layout, maps, tsFiles, id, bold, order, ok).0.zmap[s]
            == Join(layout.vols, UnitStem(id, s) + "_pearson_z.nii.gz")
    decreases |order|
  {
    var step := VoxelStep(version, layout, maps, tsFiles, id, bold, order[0], ok);
    assert VoxelwiseFrom(version, layout, maps, tsFiles, id, bold, order, ok)
           == VoxelwiseFrom(version, layout, step.0, tsFiles, id, bold, order[1..], ok);
    if s in order[1..] {
      VoxelwiseRecorded(version, layout, step.0, tsFiles, id, bold, order[1..], ok, s);
    } else {
      assert s == order[0];
      VoxelwiseFrame(version, layout, step.0, tsFiles, id, bold, order[1..], ok, s);
      ZMapPathForm(layout.vols, id, s);
    }
  }

  /** `fc_voxelwise` touches only the entries of the seeds it runs over. */
  lemma {:induction false} VoxelwiseFrame(version: Version, layout: Layout, maps: Maps, tsFiles: map<string, string>,
                                          id: string, bold: string, order: seq<string>, ok: Command -> bool, s: string)
    requires s !in order
    ensures (s in VoxelwiseFrom(version, layout, maps, tsFiles, id, bold, order, ok).0.rmap <==> s in maps.rmap)
    ensures s in maps.rmap ==> VoxelwiseFrom(version, layout, maps, tsFiles, id, bold, order, ok).0.rmap[s] == maps.rmap[s]
    ensures (s in VoxelwiseFrom(version, layout, maps, tsFiles, id, bold, order, ok).0.zmap <==> s in maps.zmap)
    ensures s in maps.zmap ==> VoxelwiseFrom(version, layout, maps, tsFiles, id, bold, order, ok).0.zmap[s] == maps.zmap[s]
    decreases |order|
  {
    if order != [] {
      var step := VoxelStep(version, layout, maps, tsFiles, id, bold, order[0], ok);
      VoxelwiseHead(version, layout, maps, tsFiles, id, bold, order, ok);
      VoxelStepFrame(version, layout, maps, tsFiles, id, bold, order[0], ok, s);
      if step.1.Done? {
        assert s !in order[1..];
        VoxelwiseFrame(version, layout, step.0, tsFiles, id, bold, order[1..], ok, s);
      }
    }
  }

  /** The first step of the fold decides, or hands over to the rest. */
  lemma VoxelwiseHead(version: Version, layout: Layout, maps: Maps, tsFiles: map<string, string>,
                      id: string, bold: string, order: seq<string>, ok: Command -> bool)
    requires order != []
    ensures var step := VoxelStep(version, layout, maps, tsFiles, id, bold, order[0], ok);
            VoxelwiseFrom(version, layout, maps, tsFiles, id, bold, order, ok)
            == if step.1.Fatal? then step else VoxelwiseFrom(version, layout, step.0, tsFiles, id, bold, order[1..], ok)
  {
  }

  /** With the seed's timecourse at hand, only a tool can stop a step. */
  lemma VoxelStepTool(version: Version, layout: Layout, maps: Maps, tsFiles: map<string, string>,
                      id: string, bold: string, seed: string, ok: Command -> bool)
    requires seed in tsFiles
    ensures var o := VoxelStep(version, layout, maps, tsFiles, id, bold, seed, ok).1;
            o.Fatal? ==> o.error.ToolFailed?
  {
  }

  /** One seed's step touches only that seed's entries. */
  lemma VoxelStepFrame(version: Version, layout: Layout, maps: Maps, tsFiles: map<string, string>,
                       id: string, bold: string, seed: string, ok: Command -> bool, s: string)
    requires s != seed
    ensures var m := VoxelStep(version, layout, maps, tsFiles, id, bold, seed, ok).0;
            (s in m.rmap <==> s in maps.rmap) && (s in maps.rmap ==> m.rmap[s] == maps.rmap[s])
            && (s in m.zmap <==> s in maps.zmap) && (s in maps.zmap ==> m.zmap[s] == maps.zmap[s])
  {
  }

  /** With a timecourse for every seed, `fc_voxelwise` can only stop on a
      failing tool. */
  lemma {:induction false} VoxelwiseHasTimecourses(version: Version, layout: Layout, maps: Maps,
                                                   tsFiles: map<string, string>, id: string, bold: string,
                                                   order: seq<string>, ok: Command -> bool)
    requires forall k :: 0 <= k < |order| ==> order[k] in tsFiles
    ensures VoxelwiseFrom(version, layout, maps, tsFiles, id, bold, order, ok).1.Fatal? ==>
              VoxelwiseFrom(version, layout, maps, tsFiles, id, bold, order, ok).1.error.ToolFailed?
    decreases |order|
  {
    if order != [] {
      var step := VoxelStep(version, layout, maps, tsFiles, id, bold, order[0], ok);
      VoxelwiseHead(version, layout, maps, tsFiles, id, bold, order, ok);
      VoxelStepTool(version, layout, maps, tsFiles, id, bold, order[0], ok);
      if step.1.Done? {
        var rest := order[1..];
        forall k | 0 <= k < |rest|
          ensures rest[k] in tsFiles
        {
          assert rest[k] == order[k + 1];
        }
        VoxelwiseHasTimecourses(version, layout, step.0, tsFiles, id, bold, rest, ok);
      }
    }
  }

  /** Stages in sequence: after a finished `extract_ts` over the same seeds,
      `fc_voxelwise` can only stop on a failing tool. */
  lemma VoxelwiseAfterExtract(version: Version, layout: Layout, maps: Maps, tsFiles: map<string, string>,
                              seeds: map<string, string>, id: string, bold: string,
                              order: seq<string>, ok: Command -> bool)
    requires SeedOrder(order, seeds)
    requires ExtractFrom(tsFiles, order, seeds, id, bold, layout.ts, ok).1.Done?
    ensures var ts := ExtractFrom(tsFiles, order, seeds, id, bold, layout.ts, ok).0;
            VoxelwiseFrom(version, layout, maps, ts, id, bold, order, ok).1.Fatal? ==>
              VoxelwiseFrom(version, layout, maps, ts, id, bold, order, ok).1.error.ToolFailed?
  {
    var ts := ExtractFrom(tsFiles, order, seeds, id, bold, layout.ts, ok).0;
    forall k | 0 <= k < |order|
      ensures order[k] in ts
    {
      ExtractRecorded(tsFiles, order, seeds, id, bold, layout.ts, ok, order[k]);
    }
    VoxelwiseHasTimecourses(version, layout, maps, ts, id, bold, order, ok);
  }

  // --------------------------------------------------------- group stats

  /** Commands run in order until one fails. */
  function RunAll(ok: Command -> bool, cs: seq<Command>): (o: Outcome)
    ensures o.Done? <==> forall k :: 0 <= k < |cs| ==> ok(cs[k])
    ensures o.Fatal? ==> o.error.ToolFailed? && o.error.command in cs && !ok(o.error.command)
    decreases |cs|
  {
    if cs == [] then Done
    else if !ok(cs[0]) then Fatal(ToolFailed(cs[0]))
    else RunAll(ok, cs[1..])
  }

  /** The z-maps of one seed, one per session in session order
      (`[s.get_zmap_file(seed) for s in sessions]`); a session without one
      ends the run. Each session is given by its id and its z-map files. */
  function ZMapList(table: seq<(string, map<string, string>)>, seed: string): (r: Result<seq<string>, Error>)
    ensures r.Success? <==> forall k :: 0 <= k < |table| ==> seed in table[k].1
    ensures r.Success? ==> |r.value| == |table|
    ensures r.Success? ==> forall k :: 0 <= k < |table| ==> r.value[k] == table[k].1[seed]
    ensures r.Failure? ==> r.error.MissingZMap? && r.error.seed == seed
    decreases |table|
  {
    if table == [] then Success([])
    else if seed !in table[0].1 then Failure(MissingZMap(table[0].0, seed))
    else
      match ZMapList(table[1..], seed)
      case Failure(e) => Failure(e)
      case Success(zs) => Success([table[0].1[seed]] + zs)
  }

  /** A seed's missing z-map is reported for the first session lacking it. */
  lemma {:induction false} ZMapListFirstMissing(table: seq<(string, map<string, string>)>, seed: string, k: nat)
    requires k < |table| && seed !in table[k].1
    requires forall j :: 0 <= j < k ==> seed in table[j].1
    ensures ZMapList(table, seed) == Failure(MissingZMap(table[k].0, seed))
    decreases k
  {
    if k > 0 {
      ZMapListFirstMissing(table[1..], seed, k - 1);
    }
  }

  /** The tools of the group step for one seed: the z-maps are merged into
      a temporary 4D volume, which `randomise` tests and `fslmaths` averages;
      the newer version then draws the mean over the standard brain. */
  function GroupCommands(version: Version, layout: Layout, zmaps: seq<string>, seed: string, tmp: string)
    : seq<Command>
  {
    var mean := GroupMeanPath(layout.grpVols, seed);
    var merge := Run("fslmerge", zmaps, tmp);
    var test := Run("randomise", [tmp], RandomiseBase(layout.grpVols, seed));
    var average := Run("fslmaths", [tmp], mean);
    if version.Current? then [merge, test, average, OverlayCommand(mean, GroupSnapshotPath(layout.grpImgs, seed))]
    else [merge, test, average]
  }

  /** The tools of the group step, as the source calls them one after the
      other, each failure ending the run. */
  function GroupTools(version: Version, layout: Layout, zmaps: seq<string>, seed: string, t: string,
                      ok: Command -> bool): Outcome
  {
    var mean := GroupMeanPath(layout.grpVols, seed);
    if !ok(Run("fslmerge", zmaps, t)) then Fatal(ToolFailed(Run("fslmerge", zmaps, t)))
    else if !ok(Run("randomise", [t], RandomiseBase(layout.grpVols, seed))) then
      Fatal(ToolFailed(Run("randomise", [t], RandomiseBase(layout.grpVols, seed))))
    else if !ok(Run("fslmaths", [t], mean)) then Fatal(ToolFailed(Run("fslmaths", [t], mean)))
    else if version.Legacy? then Done
    else RunCommand(ok, OverlayCommand(mean, GroupSnapshotPath(layout.grpImgs, seed)))
  }

  /** The group tools of a seed run in order and stop at the first that
      fails. */
  lemma GroupToolsInOrder(version: Version, layout: Layout, zmaps: seq<string>, seed: string, t: string,
                          ok: Command -> bool)
    ensures GroupTools(version, layout, zmaps, seed, t, ok) == RunAll(ok, GroupCommands(version, layout, zmaps, seed, t))
  {
    var mean := GroupMeanPath(layout.grpVols, seed);
    var merge := Run("fslmerge", zmaps, t);
    var test := Run("randomise", [t], RandomiseBase(layout.grpVols, seed));
    var average := Run("fslmaths", [t], mean);
    var overlay := OverlayCommand(mean, GroupSnapshotPath(layout.grpImgs, seed));
    if version.Current? {
      RunFour(ok, merge, test, average, overlay);
    } else {
      RunThree(ok, merge, test, average);
    }
  }

  /** Three commands run one after the other. */
  lemma RunThree(ok: Command -> bool, a: Command, b: Command, c: Command)
    ensures RunAll(ok, [a, b, c]) == if !ok(a) then Fatal(ToolFailed(a))
                                     else if !ok(b) then Fatal(ToolFailed(b))
                                     else if !ok(c) then Fatal(ToolFailed(c))
                                     else Done
  {
    assert [a, b, c][1..] == [b, c];
    assert [b, c][1..] == [c];
    assert RunAll(ok, [c]) == if !ok(c) then Fatal(ToolFailed(c)) else RunAll(ok, []);
    assert RunAll(ok, [b, c]) == if !ok(b) then Fatal(ToolFailed(b)) else RunAll(ok, [c]);
  }

  /** Four commands run one after the other. */
  lemma RunFour(ok: Command -> bool, a: Command, b: Command, c: Command, d: Command)
    ensures RunAll(ok, [a, b, c, d]) == if !ok(a) then Fatal(ToolFailed(a))
                                        else if !ok(b) then Fatal(ToolFailed(b))
                                        else if !ok(c) then Fatal(ToolFailed(c))
                                        else RunCommand(ok, d)
  {
    assert [a, b, c, d][1..] == [b, c, d];
    assert [b, c, d][1..] == [c, d];
    assert [c, d][1..] == [d];
    assert RunAll(ok, [d]) == if !ok(d) then Fatal(ToolFailed(d)) else RunAll(ok, []);
    assert RunAll(ok, [c, d]) == if !ok(c) then Fatal(ToolFailed(c)) else RunAll(ok, [d]);
    assert RunAll(ok, [b, c, d]) == if !ok(b) then Fatal(ToolFailed(b)) else RunAll(ok, [c, d]);
  }

  /** One seed of `fc_voxelwise_groupstats`: the seed's z-maps of every
      session are merged into a temporary volume named by `tmp`, which
      `randomise` tests and `fslmaths` averages; the newer version then draws
      the mean and records that snapshot in the report. */
  function GroupStep(version: Version, layout: Layout, report: map<string, string>,
                     table: seq<(string, map<string, string>)>, seed: string,
                     ok: Command -> bool, tmp: string -> string): (map<string, string>, Outcome)
  {
    match ZMapList(table, seed)
    case Failure(e) => (report, Fatal(e))
    case Success(zmaps) =>
      var o := GroupTools(version, layout, zmaps, seed, tmp(seed), ok);
      if o.Done? && version.Current? then (report[seed := GroupSnapshotPath(layout.grpImgs, seed)], o)
      else (report, o)
  }

  /** `fc_voxelwise_groupstats()` over the seeds of `order`. */
  function GroupFrom(version: Version, layout: Layout, report: map<string, string>,
                     table: seq<(string, map<string, string>)>, order: seq<string>,
                     ok: Command -> bool, tmp: string -> string): (map<string, string>, Outcome)
    decreases |order|
  {
    if order == [] then (report, Done)
    else
      var step := GroupStep(version, layout, report, table, order[0], ok, tmp);
      if step.1.Fatal? then step
      else GroupFrom(version, layout, step.0, table, order[1..], ok, tmp)
  }

  /** A finished group step had every session's z-map of every seed, and in
      the newer version has put each seed's group snapshot in the report. */
  lemma {:induction false} GroupRecorded(version: Version, layout: Layout, report: map<string, string>,
                                         table: seq<(string, map<string, string>)>, order: seq<string>,
                                         ok: Command -> bool, tmp: string -> string, s: string)
    requires GroupFrom(version, layout, report, table, order, ok, tmp).1.Done?
    requires s in order
    ensures forall k :: 0 <= k < |table| ==> s in table[k].1
    ensures version.Current? ==>
              s in GroupFrom(version, layout, report, table, order, ok, tmp).0
              && GroupFrom(version, layout, report, table, order, ok, tmp).0[s] == GroupSnapshotPath(layout.grpImgs, s)
    decreases |order|
  {
    var step := GroupStep(version, layout, report, table, order[0], ok, tmp);
    assert GroupFrom(version, layout, report, table, order, ok, tmp)
           == GroupFrom(version, layout, step.0, table, order[1..], ok, tmp);
    if s in order[1..] {
      GroupRecorded(version, layout, step.0, table, order[1..], ok, tmp, s);
    } else {
      assert s == order[0];
      GroupFrame(version, layout, step.0, table, order[1..], ok, tmp, s);
    }
  }

  /** The group step touches only the report entries of its seeds. */
  lemma {:induction false} GroupFrame(version: Version, layout: Layout, report: map<string, string>,
                                      table: seq<(string, map<string, string>)>, order: seq<string>,
                                      ok: Command -> bool, tmp: string -> string, s: string)
    requires s !in order
    ensures (s in GroupFrom(version, layout, report, table, order, ok, tmp).0 <==> s in report)
    ensures s in report ==> GroupFrom(version, layout, report, table, order, ok, tmp).0[s] == report[s]
    decreases |order|
  {
    if order != [] {
      var step := GroupStep(version, layout, report, table, order[0], ok, tmp);
      if step.1.Done? {
        assert GroupFrom(version, layout, report, table, order, ok, tmp)
               == GroupFrom(version, layout, step.0, table, order[1..], ok, tmp);
        assert s !in order[1..];
        GroupFrame(version, layout, step.0, table, order[1..], ok, tmp, s);
      }
    }
  }

  /** Stages in sequence: when every session has a z-map for every seed (as
      a finished `fc_voxelwise` leaves it), the group step can only stop on a
      failing tool. */
  lemma {:induction false} GroupHasZMaps(version: Version, layout: Layout, report: map<string, string>,
                                         table: seq<(string, map<string, string>)>, order: seq<string>,
                                         ok: Command -> bool, tmp: string -> string)
    requires forall k, j :: 0 <= k < |table| && 0 <= j < |order| ==> order[j] in table[k].1
    ensures GroupFrom(version, layout, report, table, order, ok, tmp).1.Fatal? ==>
              GroupFrom(version, layout, report, table, order, ok, tmp).1.error.ToolFailed?
    decreases |order|
  {
    if order != [] {
      var step := GroupStep(version, layout, report, table, order[0], ok, tmp);
      GroupHead(version, layout, report, table, order, ok, tmp);
      GroupStepTool(version, layout, report, table, order[0], ok, tmp);
      if step.1.Done? {
        var rest := order[1..];
        forall k, j | 0 <= k < |table| && 0 <= j < |rest|
          ensures rest[j] in table[k].1
        {
          assert rest[j] == order[j + 1];
        }
        GroupHasZMaps(version, layout, step.0, table, rest, ok, tmp);
      }
    }
  }

  /** The first seed's step decides, or hands over to the rest. */
  lemma GroupHead(version: Version, layout: Layout, report: map<string, string>,
                  table: seq<(string, map<string, string>)>, order: seq<string>,
                  ok: Command -> bool, tmp: string -> string)
    requires order != []
    ensures var step := GroupStep(version, layout, report, table, order[0], ok, tmp);
            GroupFrom(version, layout, report, table, order, ok, tmp)
            == if step.1.Fatal? then step else GroupFrom(version, layout, step.0, table, order[1..], ok, tmp)
  {
  }

  /** With every session's z-map of the seed at hand, only a tool can stop
      the seed's group step. */
  lemma GroupStepTool(version: Version, layout: Layout, report: map<string, string>,
                      table: seq<(string, map<string, string>)>, seed: string,
                      ok: Command -> bool, tmp: string -> string)
    requires forall k :: 0 <= k < |table| ==> seed in table[k].1
    ensures var o := GroupStep(version, layout, report, table, seed, ok, tmp).1;
            o.Fatal? ==> o.error.ToolFailed?
  {
    var zmaps := ZMapList(table, seed).value;
    GroupToolsInOrder(version, layout, zmaps, seed, tmp(seed), ok);
  }

  // ------------------------------------------------------------- report

  function Header(projectLabel: string): string
  {
    "<html><head><title>FC-RSFMRI: " + projectLabel + "</title></head>"
    + "<body><h3>Functional Connectivity Results: " + projectLabel + "</h3>"
  }

  function SeedBlock(seed: string, src: string): string
  {
    "<h5>Seed: " + seed + "</h5>" + "<img src='" + src + "' border=0 /><br />"
  }

  /** The seed sections of the report, in the seeds' order: each seed needs
      its group snapshot, linked relative to the output directory. */
  function ReportBody(report: map<string, string>, output: string, order: seq<string>): Result<string, Error>
    decreases |order|
  {
    if order == [] then Success("")
    else if order[0] !in report then Failure(MissingReport(order[0]))
    else
      match RelPath(report[order[0]], output)
      case None => Failure(EmptyPath)
      case Some(src) =>
        match ReportBody(report, output, order[1..])
        case Failure(e) => Failure(e)
        case Success(rest) => Success(SeedBlock(order[0], src) + rest)
  }

  /** A page around a body, unless the body failed. */
  function Wrap(head: string, body: Result<string, Error>, tail: string): (r: Result<string, Error>)
    ensures r.Success? <==> body.Success?
    ensures body.Failure? ==> r == body
  {
    if body.Success? then Success(head + body.value + tail) else body
  }

  /** One seed section more in the report, as the loop appends it. */
  lemma ReportBodyStep(report: map<string, string>, output: string, order: seq<string>, i: nat)
    requires i < |order|
    ensures order[i] !in report ==> ReportBody(report, output, order[i..]) == Failure(MissingReport(order[i]))
    ensures order[i] in report && RelPath(report[order[i]], output).None? ==>
              ReportBody(report, output, order[i..]) == Failure(EmptyPath)
    ensures order[i] in report && RelPath(report[order[i]], output).Some? ==>
              ReportBody(report, output, order[i..])
              == Wrap(SeedBlock(order[i], RelPath(report[order[i]], output).value), ReportBody(report, output, order[i + 1..]), "")
  {
    assert order[i..][0] == order[i];
    assert order[i..][1..] == order[i + 1..];
    var rest := ReportBody(report, output, order[i + 1..]);
    if order[i] in report && RelPath(report[order[i]], output).Some? && rest.Success? {
      var blk := SeedBlock(order[i], RelPath(report[order[i]], output).value);
      assert blk + rest.value + "" == blk + rest.value;
    }
  }

  lemma WrapAssoc(a: string, b: string, r: Result<string, Error>)
    ensures Wrap(a, Wrap(b, r, ""), "") == Wrap(a + b, r, "")
  {
    if r.Success? {
      assert a + (b + r.value + "") + "" == a + b + r.value + "";
    }
  }

  /** The loop of `generate_report`: a section per seed appended to the
      page begun with `head`. */
  method AppendSections(head: string, report: map<string, string>, output: string, order: seq<string>)
    returns (html: Result<string, Error>)
    ensures html == Wrap(head, ReportBody(report, output, order), "")
  {
    var page := head;
    var i := 0;
    assert order[i..] == order;
    while i < |order|
      invariant 0 <= i <= |order|
      invariant Wrap(head, ReportBody(report, output, order), "") == Wrap(page, ReportBody(report, output, order[i..]), "")
    {
      var seed := order[i];
      ReportBodyStep(report, output, order, i);
      if seed !in report {
        return Failure(MissingReport(seed));
      }
      var src := RelPath(report[seed], output);
      if src.None? {
        return Failure(EmptyPath);
      }
      WrapAssoc(page, SeedBlock(seed, src.value), ReportBody(report, output, order[i + 1..]));
      page := page + SeedBlock(seed, src.value);
      i := i + 1;
    }
    assert order[i..] == [];
    assert page + "" + "" == page;
    html := Success(page);
  }

  /** With a non-empty snapshot path for every seed, the report is complete. */
  lemma {:induction false} ReportBodyComplete(report: map<string, string>, output: string, order: seq<string>)
    requires forall k :: 0 <= k < |order| ==> order[k] in report && report[order[k]] != []
    ensures ReportBody(report, output, order).Success?
    decreases |order|
  {
    if order != [] {
      assert forall k :: 0 <= k < |order[1..]| ==> order[1..][k] == order[k + 1];
      ReportBodyComplete(report, output, order[1..]);
    }
  }

  /** Stages in sequence: after a finished group step of the newer version,
      `generate_report` finds a snapshot for every seed. */
  lemma ReportAfterGroupstats(layout: Layout, report: map<string, string>,
                              table: seq<(string, map<string, string>)>, order: seq<string>,
                              ok: Command -> bool, tmp: string -> string)
    requires GroupFrom(Current, layout, report, table, order, ok, tmp).1.Done?
    ensures ReportBody(GroupFrom(Current, layout, report, table, order, ok, tmp).0, layout.output, order).Success?
  {
    var r := GroupFrom(Current, layout, report, table, order, ok, tmp).0;
    forall k | 0 <= k < |order|
      ensures order[k] in r && r[order[k]] != []
    {
      GroupRecorded(Current, layout, report, table, order, ok, tmp, order[k]);
    }
    ReportBodyComplete(r, layout.output, order);
  }

  /** Joining a relative name to a directory that does not end in a slash
      puts one slash between them. */
  lemma JoinSlash(a: string, b: string)
    requires a != [] && a[|a| - 1] != '/' && Relative(b)
    ensures Join(a, b) == a + "/" + b
  {
  }

  lemma ConcatAssoc<T>(p: seq<T>, x: seq<T>, y: seq<T>, z: seq<T>)
    ensures p + x + y + z == p + (x + y + z)
  {
  }

  /** Regrouping the concatenation of a path's pieces. */
  lemma Regroup(p: string, a: string, sep: string, b: string, c: string)
    ensures p + a + sep + b + sep + c == p + (a + sep + b + sep + c)
    ensures a + sep + b + sep + c == a + sep + (b + sep + c)
  {
  }

  /** Three joins of names that carry no slash are one join of the names
      separated by slashes. */
  lemma JoinThree(out: string, d1: string, d2: string, f: string)
    requires d1 != [] && d2 != [] && '/' !in d1 && '/' !in d2 && Relative(f)
    ensures Join(Join(Join(out, d1), d2), f) == Join(out, d1 + "/" + d2 + "/" + f)
  {
    JoinTwo(Join(out, d1), d2, f);
    assert (d2 + "/" + f)[0] == d2[0];
    JoinTwo(out, d1, d2 + "/" + f);
    Regroup([], d1, "/", d2, f);
  }

  /** Joining a name that carries no slash and then a relative path is
      joining the two separated by a slash. */
  lemma JoinTwo(a: string, d: string, g: string)
    requires d != [] && '/' !in d && Relative(g)
    ensures Join(Join(a, d), g) == Join(a, d + "/" + g)
  {
    var dg := d + "/" + g;
    assert d[0] in d && d[|d| - 1] in d;
    assert dg[0] == d[0];
    JoinOnto(a, d);
    JoinOnto(a, dg);
    var a1 := Join(a, d);
    assert a1[|a1| - 1] == d[|d| - 1];
    JoinSlash(a1, g);
    ConcatAssoc(JoinPrefix(a), d, "/", g);
  }

  /** What `os.path.join` puts before a relative name. */
  function JoinPrefix(a: string): string
  {
    if a == [] || a[|a| - 1] == '/' then a else a + "/"
  }

  lemma JoinOnto(a: string, x: string)
    requires x != [] && x[0] != '/'
    ensures Join(a, x) == JoinPrefix(a) + x
  {
  }

  /** Three names without slashes, joined by slashes, split back apart. */
  lemma SplitThree(d1: string, d2: string, f: string)
    requires '/' !in d1 && '/' !in d2 && '/' !in f
    ensures Split(d1 + "/" + d2 + "/" + f, '/') == [d1, d2, f]
  {
    Regroup([], d1, "/", d2, f);
    SplitPrefix(d1, d2 + ['/'] + f, '/');
    SplitPrefix(d2, f, '/');
    SplitNoSep(f, '/');
    assert [d1] + ([d2] + [f]) == [d1, d2, f];
  }

  /** Three non-empty names without slashes, joined by slashes, make a
      clean relative path. */
  lemma CleanThree(d1: string, d2: string, f: string)
    requires d1 != [] && d2 != [] && f != [] && '/' !in d1 && '/' !in d2 && '/' !in f
    ensures Clean(d1 + "/" + d2 + "/" + f) && Relative(d1 + "/" + d2 + "/" + f)
  {
    var rel := d1 + "/" + d2 + "/" + f;
    SplitThree(d1, d2, f);
    var parts := Split(rel, '/');
    assert parts[0] == d1 && parts[1] == d2 && parts[2] == f;
    assert rel[0] == d1[0];
  }

  /** A file two directories below `out`, named relative to `out`. */
  lemma RelPathThree(out: string, d1: string, d2: string, f: string)
    requires d1 != [] && d2 != [] && f != [] && '/' !in d1 && '/' !in d2 && '/' !in f
    ensures RelPath(Join(Join(Join(out, d1), d2), f), out) == Some(d1 + "/" + d2 + "/" + f)
  {
    JoinThree(out, d1, d2, f);
    CleanThree(d1, d2, f);
    RelPathOfJoin(out, d1 + "/" + d2 + "/" + f);
  }

  /** The report links each seed's group snapshot by its path relative to
      the output directory: `results-group/imgs/<seed>_pearson_z_snapshot.png`. */
  lemma ReportSrc(outputRoot: string, projectLabel: string, seed: string)
    requires '/' !in seed
    ensures RelPath(GroupSnapshotPath(MakeLayout(Current, outputRoot, projectLabel).grpImgs, seed),
                    MakeLayout(Current, outputRoot, projectLabel).output)
            == Some("results-group/imgs/" + (seed + "_pearson_z_snapshot.png"))
  {
    var out := Join(outputRoot, projectLabel);
    var f := seed + "_pearson_z_snapshot.png";
    ReportNames();
    NoSlashConcat(seed, "_pearson_z_snapshot.png");
    RelPathThree(out, "results-group", "imgs", f);
    ReportSrcForm(f);
  }

  /** The fixed names on the way to a group snapshot hold no slash. */
  lemma ReportNames()
    ensures '/' !in "results-group" && '/' !in "imgs" && '/' !in "_pearson_z_snapshot.png"
  {
  }

  lemma NoSlashConcat(a: string, b: string)
    requires '/' !in a && '/' !in b
    ensures '/' !in a + b
  {
  }

  lemma ReportSrcForm(f: string)
    ensures "results-group" + "/" + "imgs" + "/" + f == "results-group/imgs/" + f
  {
  }

  // ------------------------------------------------------------- matrix

  /** The index of a largest element. */
  function ArgMax(s: seq<real>): (k: nat)
    requires s != []
    ensures k < |s| && forall j :: 0 <= j < |s| ==> s[j] <= s[k]
  {
    if |s| == 1 then 0
    else
      var k := ArgMax(s[..|s| - 1]);
      if s[|s| - 1] > s[k] then |s| - 1 else k
  }

  /** A cell holding the largest entry of the first `rows` rows of an
      `n`-column matrix. */
  function MaxCell(m: Matrix, n: nat, rows: nat): (c: (nat, nat))
    requires 0 < rows <= |m| && 0 < n && forall i :: 0 <= i < rows ==> |m[i]| >= n
    ensures c.0 < rows && c.1 < n
    ensures forall i, j :: 0 <= i < rows && 0 <= j < n ==> m[i][j] <= m[c.0][c.1]
  {
    var j := ArgMax(m[rows - 1][..n]);
    if rows == 1 then (0, j)
    else
      var c := MaxCell(m, n, rows - 1);
      if m[rows - 1][j] > m[c.0][c.1] then (rows - 1, j) else c
  }

  /** `np.nanmax` of a square matrix, the upper end of the heatmap's colour
      scale: an entry of the matrix that no entry exceeds; an empty matrix
      has none. */
  function ColourLimit(m: Matrix, n: nat): (r: Result<real, Error>)
    requires Covers(m, n)
    ensures r.Failure? <==> n == 0
    ensures r.Failure? ==> r.error == EmptyMatrix
    ensures r.Success? ==> forall i, j :: 0 <= i < n && 0 <= j < n ==> m[i][j] <= r.value
    ensures r.Success? ==> exists i, j :: 0 <= i < n && 0 <= j < n && m[i][j] == r.value
  {
    if n == 0 then Failure(EmptyMatrix)
    else
      var c := MaxCell(m, n, n);
      Success(m[c.0][c.1])
  }

  /** `p_fix[np.where(np.identity(n))] = 0`: the self-correlations are
      removed to fix the colour scale. */
  method ZeroDiagonal(p: array2<real>)
    requires p.Length0 == p.Length1
    modifies p
    ensures forall i, j :: 0 <= i < p.Length0 && 0 <= j < p.Length1 ==>
              p[i, j] == if i == j then 0.0 else old(p[i, j])
  {
    var i := 0;
    while i < p.Length0
      invariant 0 <= i <= p.Length0
      invariant forall a, b :: 0 <= a < p.Length0 && 0 <= b < p.Length1 ==>
                  p[a, b] == if a == b && a < i then 0.0 else old(p[a, b])
    {
      p[i, i] := 0.0;
      i := i + 1;
    }
  }

  /** The graphics of `fc_matrix_groupstats` in the newer version, given the
      group mean matrix and the seed labels: the diagonal is zeroed, the
      heatmap's colour scale runs from 0 to the largest entry (at least 0,
      since the diagonal now holds zeros), and the network has an edge
      wherever the mean correlation exceeds 0.1. Zeroing the diagonal
      does not change the network, which never reads it. */
  method FcMatrixGroupstats(mean: array2<real>, labels: seq<string>)
    returns (limit: Result<real, Error>, nodes: set<string>, edges: map<(int, int), map<string, real>>)
    requires mean.Length0 == mean.Length1 && mean.Length0 <= |labels|
    requires forall i, j :: 0 <= i < j < |labels| ==> labels[i] != labels[j]
    modifies mean
    ensures forall i, j :: 0 <= i < mean.Length0 && 0 <= j < mean.Length1 ==>
              mean[i, j] == if i == j then 0.0 else old(mean[i, j])
    ensures limit == ColourLimit(Rows(mean), mean.Length0)
    ensures limit.Success? ==> limit.value >= 0.0
    ensures limit.Success? ==> nodes == (set k | 0 <= k < |labels| :: labels[k])
    ensures limit.Success? ==> edges == Edges(old(Rows(mean)), 0.1, map[], mean.Length0)
  {
    ghost var before := Rows(mean);
    ZeroDiagonal(mean);
    var n := mean.Length0;
    var m := Rows(mean);
    limit := ColourLimit(m, n);
    if limit.Failure? {
      return limit, {}, map[];
    }
    assert m[0][0] == 0.0;
    nodes, edges := GenerateNetworkGraph(mean, 0.1, labels, map[]);
    EdgesReadUpperTriangle(m, before, 0.1, map[], n);
  }

  // ------------------------------------------------------------ project

  /** `FCProject`: its layout and sessions are fixed at construction; the seed
      registry `seeds` and the group snapshots `report` grow as the stages
      run. */
  class FCProject {
    const version: Version
    const projectLabel: string
    const layout: Layout
    const sessions: seq<SessionFiles>
    var seeds: map<string, string>
    var report: map<string, string>

    /** `FCProject(label, output_dir, input_dir, sessions)`, with the output
        directory already made absolute. */
    constructor (version: Version, projectLabel: string, outputRoot: string, sessions: seq<SessionFiles>)
      ensures this.version == version && this.projectLabel == projectLabel && this.sessions == sessions
      ensures layout == MakeLayout(version, outputRoot, projectLabel)
      ensures seeds == map[] && report == map[]
    {
      this.version := version;
      this.projectLabel := projectLabel;
      layout := MakeLayout(version, outputRoot, projectLabel);
      this.sessions := sessions;
      seeds := map[];
      report := map[];
    }

    /** `add_seed(name, filename)`: a missing file is fatal; otherwise the
        file is copied into the seed directory unless it is already there,
        and `name` is (re)registered to the copy. */
    method AddSeed(name: string, filename: string, isFile: string -> bool) returns (o: Outcome, copied: bool)
      modifies this`seeds
      ensures o.Done? <==> isFile(filename)
      ensures o.Fatal? ==> o.error == MissingSeedFile(filename) && seeds == old(seeds) && !copied
      ensures o.Done? ==> seeds == old(seeds)[name := SeedFileIn(layout.seeds, filename)]
      ensures o.Done? ==> (copied <==> SeedFileIn(layout.seeds, filename) != filename)
    {
      if !isFile(filename) {
        return Fatal(MissingSeedFile(filename)), false;
      }
      var seedFile := SeedFileIn(layout.seeds, filename);
      copied := seedFile != filename;
      seeds := seeds[name := seedFile];
      o := Done;
    }

    /** `create_seed(name, x, y, z, radius)`; the coordinates only reach the
        tool's command line, which is not modelled. */
    method CreateSeed(name: string, radius: real, ok: Command -> bool, isFile: string -> bool)
      returns (o: Outcome)
      modifies this`seeds
      ensures o.Done? <==> SeedCreation(layout.seeds, name, radius, ok, isFile).Success?
      ensures o.Fatal? ==> o.error == SeedCreation(layout.seeds, name, radius, ok, isFile).error
                           && seeds == old(seeds)
      ensures o.Done? ==> seeds == old(seeds)[name := SeedCreation(layout.seeds, name, radius, ok, isFile).value]
    {
      var file := Seed.SeedFilePath(layout.seeds, name, radius);
      o := RunCommand(ok, Seed.UndumpCommand(file));
      if o.Done? {
        var copied;
        o, copied := AddSeed(name, file, isFile);
      }
    }

    /** One line of `create_seed_from_file`. */
    method RegisterLine(line: string, radius: Option<real>, ok: Command -> bool, isFile: string -> bool)
      returns (v: Verdict<Registration>)
      modifies this`seeds
      ensures v == LineVerdict(version, layout.seeds, line, radius, ok, isFile)
      ensures seeds == if v.Accept? then old(seeds)[v.item.name := v.item.file] else old(seeds)
    {
      var fields := Seed.Fields(line);
      if |fields| < 4 {
        return Skip;
      }
      if radius.None? {
        return Stop(if |fields| == 5 then RadiusIndex else MissingRadius);
      }
      var name := SeedName(version, fields[0]);
      var o := CreateSeed(name, radius.value, ok, isFile);
      if o.Fatal? {
        v := Stop(o.error);
      } else {
        v := Accept(Registration(name, seeds[name]));
      }
    }

    /** `create_seed_from_file(list_file, radius)`: the lines in file order;
        short lines are reported by their 1-based number, the first fatal line
        ends the run, and the seeds registered before it stay registered. */
    method CreateSeedFromFile(lines: seq<string>, radius: Option<real>, ok: Command -> bool,
                              isFile: string -> bool)
      returns (warnings: seq<nat>, fatal: Option<Error>)
      modifies this`seeds
      ensures warnings == ScanLines(LineVerdicts(version, layout.seeds, lines, radius, ok, isFile)).warnings
      ensures fatal == ScanLines(LineVerdicts(version, layout.seeds, lines, radius, ok, isFile)).fatal
      ensures seeds == Registered(old(seeds), ScanLines(LineVerdicts(version, layout.seeds, lines, radius, ok, isFile)).items)
    {
      ghost var vs := LineVerdicts(version, layout.seeds, lines, radius, ok, isFile);
      warnings, fatal := [], None;
      ghost var items: seq<Registration> := [];
      var i := 0;
      assert vs[..0] == [];
      while i < |lines| && fatal.None?
        invariant 0 <= i <= |lines|
        invariant ScanLines(vs[..i]) == Scan(items, warnings, fatal)
        invariant seeds == Registered(old(seeds), items)
      {
        ScanLinesNext(vs, i);
        ghost var next := Step(Scan(items, warnings, fatal), vs[i], i + 1);
        var v := RegisterLine(lines[i], radius, ok, isFile);
        assert vs[i] == v;
        if v.Skip? {
          warnings := warnings + [i + 1];
        } else if v.Stop? {
          fatal := Some(v.error);
        } else {
          ghost var prev := items;
          items := items + [v.item];
          assert items[..|items| - 1] == prev;
        }
        assert Scan(items, warnings, fatal) == next;
        i := i + 1;
        assert ScanLines(vs[..i]) == next;
      }
      if fatal.Some? {
        ScanStopped(vs, i);
      } else {
        assert vs[..i] == vs;
      }
    }

    /** `extract_ts(session)`: with no seed registered the run ends before
        any command; otherwise each seed's timecourse is extracted and
        recorded, in the registry's order. */
    method ExtractTs(session: SessionFiles, order: seq<string>, ok: Command -> bool) returns (o: Outcome)
      requires SeedOrder(order, seeds)
      modifies session`tsFiles
      ensures seeds == map[] ==> o == Fatal(NoSeeds) && session.tsFiles == old(session.tsFiles)
      ensures seeds != map[] ==>
                (session.tsFiles, o) == ExtractFrom(old(session.tsFiles), order, seeds, session.id, session.bold, layout.ts, ok)
    {
      if seeds == map[] {
        return Fatal(NoSeeds);
      }
      o := Done;
      var i := 0;
      while i < |order| && o.Done?
        invariant 0 <= i <= |order|
        invariant o.Done? ==> ExtractFrom(old(session.tsFiles), order, seeds, session.id, session.bold, layout.ts, ok)
                              == ExtractFrom(session.tsFiles, order[i..], seeds, session.id, session.bold, layout.ts, ok)
        invariant o.Fatal? ==> ExtractFrom(old(session.tsFiles), order, seeds, session.id, session.bold, layout.ts, ok)
                               == (session.tsFiles, o)
      {
        var seed := order[i];
        assert order[i..][0] == seed;
        var ts := TimecoursePath(layout.ts, session.id, seed);
        o := RunCommand(ok, TsCommand(session.bold, seeds[seed], ts));
        if o.Done? {
          session.tsFiles := session.tsFiles[seed := ts];
        }
        assert order[i..][1..] == order[i + 1..];
        i := i + 1;
      }
      if o.Done? {
        assert order[i..] == [];
      }
    }

    /** `volume_r2z(session, seed_name, infile)`: the z-map is written next to
        the correlation map and recorded once `3dcalc` has succeeded. */
    method VolumeR2Z(session: SessionFiles, seed: string, infile: string, ok: Command -> bool)
      returns (o: Outcome)
      modifies session`zmapFiles
      ensures o == RunCommand(ok, R2ZCommand(infile))
      ensures session.zmapFiles == if o.Done? then old(session.zmapFiles)[seed := NiiGzToZ(infile)]
                                   else old(session.zmapFiles)
    {
      var outfile := NiiGzToZ(infile);
      o := RunCommand(ok, Run("3dcalc", [infile], outfile));
      if o.Done? {
        session.zmapFiles := session.zmapFiles[seed := outfile];
      }
    }

    /** The body of `fc_voxelwise`'s loop for one seed. */
    method VoxelwiseSeed(session: SessionFiles, seed: string, ok: Command -> bool) returns (o: Outcome)
      modifies session`rmapFiles, session`zmapFiles
      ensures (Maps(session.rmapFiles, session.zmapFiles), o)
              == VoxelStep(version, layout, Maps(old(session.rmapFiles), old(session.zmapFiles)),
                           session.tsFiles, session.id, session.bold, seed, ok)
    {
      if seed !in session.tsFiles {
        return Fatal(MissingTimecourse(session.id, seed));
      }
      var outFile := RMapPath(layout.vols, session.id, seed);
      o := RunCommand(ok, CorrCommand(session.bold, session.tsFiles[seed], outFile));
      if o.Fatal? {
        return;
      }
      session.rmapFiles := session.rmapFiles[seed := outFile];
      o := VolumeR2Z(session, seed, outFile, ok);
      if o.Done? && version.Current? {
        o := RunCommand(ok, OverlayCommand(outFile, SnapshotPath(layout.imgs, session.id, seed)));
      }
    }

    /** `fc_voxelwise(session)`: every seed of the registry, in its order. */
    method FcVoxelwise(session: SessionFiles, order: seq<string>, ok: Command -> bool) returns (o: Outcome)
      requires SeedOrder(order, seeds)
      modifies session`rmapFiles, session`zmapFiles
      ensures (Maps(session.rmapFiles, session.zmapFiles), o)
              == VoxelwiseFrom(version, layout, Maps(old(session.rmapFiles), old(session.zmapFiles)),
                               session.tsFiles, session.id, session.bold, order, ok)
    {
      ghost var start := Maps(session.rmapFiles, session.zmapFiles);
      o := Done;
      var i := 0;
      while i < |order| && o.Done?
        invariant 0 <= i <= |order|
        invariant o.Done? ==> VoxelwiseFrom(version, layout, start, session.tsFiles, session.id, session.bold, order, ok)
                              == VoxelwiseFrom(version, layout, Maps(session.rmapFiles, session.zmapFiles),
                                               session.tsFiles, session.id, session.bold, order[i..], ok)
        invariant o.Fatal? ==> VoxelwiseFrom(version, layout, start, session.tsFiles, session.id, session.bold, order, ok)
                               == (Maps(session.rmapFiles, session.zmapFiles), o)
      {
        assert order[i..][0] == order[i];
        assert order[i..][1..] == order[i + 1..];
        o := VoxelwiseSeed(session, order[i], ok);
        i := i + 1;
      }
      if o.Done? {
        assert order[i..] == [];
      }
    }

    /** The z-map files of every session, by session id. */
    function ZTable(): (t: seq<(string, map<string, string>)>)
      reads sessions
      ensures |t| == |sessions|
      ensures forall k :: 0 <= k < |sessions| ==> t[k] == (sessions[k].id, sessions[k].zmapFiles)
    {
      seq(|sessions|, k requires 0 <= k < |sessions| reads sessions => (sessions[k].id, sessions[k].zmapFiles))
    }

    /** The body of `fc_voxelwise_groupstats`'s loop for one seed, given the
        sessions' z-map files. */
    method GroupSeed(table: seq<(string, map<string, string>)>, seed: string, ok: Command -> bool,
                     tmp: string -> string) returns (o: Outcome)
      modifies this`report
      ensures (report, o) == GroupStep(version, layout, old(report), table, seed, ok, tmp)
    {
      var zmaps := ZMapList(table, seed);
      if zmaps.Failure? {
        return Fatal(zmaps.error);
      }
      var t := tmp(seed);
      ghost var g := GroupTools(version, layout, zmaps.value, seed, t, ok);
      assert GroupStep(version, layout, report, table, seed, ok, tmp)
             == if g.Done? && version.Current? then (report[seed := GroupSnapshotPath(layout.grpImgs, seed)], g)
                else (report, g);
      o := RunCommand(ok, Run("fslmerge", zmaps.value, t));
      if o.Fatal? {
        assert o == g;
        return;
      }
      o := RunCommand(ok, Run("randomise", [t], RandomiseBase(layout.grpVols, seed)));
      if o.Fatal? {
        assert o == g;
        return;
      }
      var outfile := GroupMeanPath(layout.grpVols, seed);
      o := RunCommand(ok, Run("fslmaths", [t], outfile));
      if o.Fatal? || version.Legacy? {
        assert o == g;
        return;
      }
      var snapImg := GroupSnapshotPath(layout.grpImgs, seed);
      o := RunCommand(ok, OverlayCommand(outfile, snapImg));
      assert o == g;
      if o.Done? {
        report := report[seed := snapImg];
      }
    }

    /** `fc_voxelwise_groupstats()`: every seed of the registry, in its
        order. The sessions' z-map files do not change meanwhile. */
    method FcVoxelwiseGroupstats(order: seq<string>, ok: Command -> bool, tmp: string -> string)
      returns (o: Outcome)
      requires SeedOrder(order, seeds)
      modifies this`report
      ensures (report, o) == GroupFrom(version, layout, old(report), ZTable(), order, ok, tmp)
    {
      var table := ZTable();
      o := Done;
      var i := 0;
      while i < |order| && o.Done?
        invariant 0 <= i <= |order|
        invariant o.Done? ==> GroupFrom(version, layout, old(report), table, order, ok, tmp)
                              == GroupFrom(version, layout, report, table, order[i..], ok, tmp)
        invariant o.Fatal? ==> GroupFrom(version, layout, old(report), table, order, ok, tmp) == (report, o)
      {
        assert order[i..][0] == order[i];
        assert order[i..][1..] == order[i + 1..];
        o := GroupSeed(table, order[i], ok, tmp);
        i := i + 1;
      }
      if o.Done? {
        assert order[i..] == [];
      }
    }

    /** `generate_report()` of the newer version: the page and the file it
        is written to, `results-group-report.html` in the output directory. */
    method GenerateReport(order: seq<string>) returns (page: Result<string, Error>, file: string)
      requires version.Current? && SeedOrder(order, seeds)
      ensures file == Join(layout.output, "results-group-report.html")
      ensures page == Wrap(Header(projectLabel), ReportBody(report, layout.output, order), "</body></html>")
    {
      file := Join(layout.output, "results-group-report.html");
      var html := AppendSections(Header(projectLabel), report, layout.output, order);
      if html.Failure? {
        return html, file;
      }
      ghost var body := ReportBody(report, layout.output, order).value;
      assert html.value == Header(projectLabel) + body + "";
      assert Header(projectLabel) + body + "" == Header(projectLabel) + body;
      page := Success(html.value + "</body></html>");
    }
  }
}
