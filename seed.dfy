/** Seeds (regions of interest) of the newer package: the seed-list loader
    that turns `name, x, y, z[, radius]` lines into spherical seeds, and the
    seed object that knows its file and its snapshot image. */
module Seed {
  import opened Wrappers
  import opened Strings
  import opened Paths
  import opened Errors
  import opened SeedList
  import opened Artifacts

  /** What an accepted line describes: a normalised name, the centre in MNI
      coordinates and the radius in millimetres. */
  datatype SeedSpec = SeedSpec(name: string, x: real, y: real, z: real, radius: real)

  /** The comma-separated fields of a line, after `strip()`. */
  function Fields(line: string): seq<string>
  {
    Split(Strip(line), ',')
  }

  /** `float(j.strip())` for the three coordinate fields, in order; `parse`
      stands for `float()`, which may reject its text. */
  function Coords(fields: seq<string>, parse: string -> Option<real>): (c: Option<(real, real, real)>)
    requires |fields| >= 4
    ensures c.Some? <==> forall k :: 1 <= k < 4 ==> parse(Strip(fields[k])).Some?
    ensures c.Some? ==> c.value == (parse(Strip(fields[1])).value, parse(Strip(fields[2])).value,
                                    parse(Strip(fields[3])).value)
  {
    var px, py, pz := parse(Strip(fields[1])), parse(Strip(fields[2])), parse(Strip(fields[3]));
    if px.Some? && py.Some? && pz.Some? then Some((px.value, py.value, pz.value)) else None
  }

  /** What one line of a seed list means, before any seed is created: too few
      fields skip it; a coordinate `float()` rejects, or a radius that is
      neither given nor the line's fifth of exactly five fields, is fatal. */
  function ParseLine(line: string, radius: Option<real>, parse: string -> Option<real>): (v: Verdict<SeedSpec>)
    ensures v.Skip? <==> |Fields(line)| < 4
    ensures v.Stop? <==>
              |Fields(line)| >= 4
              && (Coords(Fields(line), parse).None?
                  || (radius.None? && (|Fields(line)| != 5 || parse(Strip(Fields(line)[4])).None?)))
    ensures v.Accept? ==> |Fields(line)| >= 4 && v.item.name == Normalize(Fields(line)[0])
    ensures v.Accept? ==> Coords(Fields(line), parse) == Some((v.item.x, v.item.y, v.item.z))
    ensures v.Accept? && radius.Some? ==> v.item.radius == radius.value
    ensures v.Accept? && radius.None? ==>
              |Fields(line)| == 5 && parse(Strip(Fields(line)[4])) == Some(v.item.radius)
  {
    var fields := Fields(line);
    if |fields| < 4 then Skip
    else
      var name := Normalize(fields[0]);
      match Coords(fields, parse)
      case None => Stop(BadNumber)
      case Some((x, y, z)) =>
        if radius.Some? then Accept(SeedSpec(name, x, y, z, radius.value))
        else if |fields| != 5 then Stop(MissingRadius)
        else match parse(Strip(fields[4]))
          case None => Stop(BadNumber)
          case Some(r) => Accept(SeedSpec(name, x, y, z, r))
  }

  /** The file `create` gives a seed: `<dir>/<name>_<radius as %d>mm.nii.gz`. */
  function SeedFilePath(dir: string, name: string, radius: real): string
  {
    Join(dir, SeedFileName(name, FormatD(radius)))
  }

  /** The command that builds a seed's sphere, identified by its output. */
  function UndumpCommand(file: string): Command
  {
    Run("3dUndump", [], file)
  }

  /** A parsed line together with the creation of its seed: an accepted
      line whose `3dUndump` run fails is fatal too. */
  function Created(dir: string, p: Verdict<SeedSpec>, ok: Command -> bool): (v: Verdict<SeedSpec>)
    ensures v.Accept? <==> p.Accept? && ok(UndumpCommand(SeedFilePath(dir, p.item.name, p.item.radius)))
    ensures v.Accept? ==> v == p
    ensures !p.Accept? ==> v == p
    ensures v.Skip? <==> p.Skip?
    ensures v.Stop? && !p.Stop? ==> v.error == ToolFailed(UndumpCommand(SeedFilePath(dir, p.item.name, p.item.radius)))
  {
    if p.Accept? && !ok(UndumpCommand(SeedFilePath(dir, p.item.name, p.item.radius))) then
      Stop(ToolFailed(UndumpCommand(SeedFilePath(dir, p.item.name, p.item.radius))))
    else p
  }

  function LineVerdict(dir: string, line: string, radius: Option<real>, parse: string -> Option<real>,
                       ok: Command -> bool): Verdict<SeedSpec>
  {
    Created(dir, ParseLine(line, radius, parse), ok)
  }

  function Verdicts(dir: string, lines: seq<string>, radius: Option<real>, parse: string -> Option<real>,
                    ok: Command -> bool): (vs: seq<Verdict<SeedSpec>>)
    ensures |vs| == |lines|
  {
    seq(|lines|, i requires 0 <= i < |lines| => LineVerdict(dir, lines[i], radius, parse, ok))
  }

  /** The line numbers `create_seeds_from_file` warns about. */
  function Warnings(dir: string, lines: seq<string>, radius: Option<real>, parse: string -> Option<real>,
                    ok: Command -> bool): seq<nat>
  {
    ScanLines(Verdicts(dir, lines, radius, parse, ok)).warnings
  }

  /** A seed: its name and directory are fixed, and so is the snapshot image
      derived from them; the seed file is set by `Create` or `Set`. */
  class FCSeed {
    const name: string
    const dir: string
    const fileSnapshot: string
    var file: Option<string>

    /** Whether construction copied the given file into the seed directory. */
    const copiedIn: bool

    /** `FCSeed(seed_dir, name, file)`: a given file is made absolute by
        `abspath` and brought into the seed directory as `Set` does, copied
        exactly when its place there is a different path. */
    constructor (seedDir: string, name: string, file: Option<string>, abspath: string -> string)
      ensures this.name == name && dir == seedDir
      ensures fileSnapshot == SeedSnapshotPath(seedDir, name)
      ensures file.None? ==> this.file.None? && !copiedIn
      ensures file.Some? ==> this.file == Some(Join(seedDir, Basename(abspath(file.value))))
      ensures file.Some? ==> (copiedIn <==> Join(seedDir, Basename(abspath(file.value))) != abspath(file.value))
    {
      this.name := name;
      dir := seedDir;
      fileSnapshot := SeedSnapshotPath(seedDir, name);
      this.file := None;
      copiedIn := file.Some? && Join(seedDir, Basename(abspath(file.value))) != abspath(file.value);
      new;
      if file.Some? {
        var copied := Set(abspath(file.value));
        assert copied == copiedIn;
      }
    }

    /** `create(x, y, z, radius)`: names the file and runs `3dUndump` on it.
        The file is recorded before the tool runs, so it is recorded even when
        the run fails. */
    method Create(x: real, y: real, z: real, radius: real, ok: Command -> bool) returns (o: Outcome)
      modifies this`file
      ensures file == Some(SeedFilePath(dir, name, radius))
      ensures o == RunCommand(ok, UndumpCommand(file.value))
    {
      file := Some(SeedFilePath(dir, name, radius));
      o := RunCommand(ok, UndumpCommand(file.value));
    }

    /** `set(file)`: the seed's file becomes `<dir>/basename(file)`, and the
        file is copied there exactly when that is a different path. */
    method Set(f: string) returns (copied: bool)
      modifies this`file
      ensures file == Some(Join(dir, Basename(f)))
      ensures copied <==> Join(dir, Basename(f)) != f
    {
      var seedFile := Join(dir, Basename(f));
      copied := seedFile != f;
      file := Some(seedFile);
    }
  }

  /** A seed file that `create` made is already in the seed directory:
      setting it again copies nothing and changes nothing. */
  lemma CreatedFileNeedsNoCopy(dir: string, name: string, radius: real)
    requires '/' !in name
    ensures Join(dir, Basename(SeedFilePath(dir, name, radius))) == SeedFilePath(dir, name, radius)
  {
    var digits := FormatD(radius);
    assert '/' !in digits by {
      forall k | 0 <= k < |digits| ensures digits[k] != '/' { }
    }
    var f := SeedFileName(name, digits);
    assert f == name + "_" + digits + "mm.nii.gz";
    assert '/' !in f by {
      forall k | 0 <= k < |f| ensures f[k] != '/' {
        if k < |name| { assert f[k] == name[k]; }
        else if k == |name| { }
        else if k < |name| + 1 + |digits| { assert f[k] == digits[k - |name| - 1]; }
      }
    }
    JoinBasenameFixpoint(dir, f);
  }

  /** The seed object `create_seeds_from_file` yields for an accepted line:
      created in `dir` under the line's normalised name, with its snapshot
      image and the file `create` named. */
  predicate Describes(s: FCSeed, dir: string, spec: SeedSpec)
    reads s
  {
    s.name == spec.name && s.dir == dir
    && s.fileSnapshot == SeedSnapshotPath(dir, spec.name)
    && s.file == Some(SeedFilePath(dir, spec.name, spec.radius))
  }

  /** One line of `create_seeds_from_file`: parse it and, if it is accepted,
      create its seed. The seed comes back when the line is accepted. */
  method CreateFromLine(outputDir: string, line: string, radius: Option<real>,
                        parse: string -> Option<real>, ok: Command -> bool)
    returns (v: Verdict<SeedSpec>, s: FCSeed?)
    ensures v == LineVerdict(outputDir, line, radius, parse, ok)
    ensures v.Accept? ==> s != null && fresh(s) && Describes(s, outputDir, v.item)
  {
    var p := ParseLine(line, radius, parse);
    s := null;
    match p {
      case Skip =>
        v := Skip;
      case Stop(e) =>
        v := Stop(e);
      case Accept(spec) =>
        s := new FCSeed(outputDir, spec.name, None, f => f);
        var o := s.Create(spec.x, spec.y, spec.z, spec.radius, ok);
        v := if o.Fatal? then Stop(o.error) else p;
    }
  }

  /** `create_seeds_from_file(output_dir, list_file, radius)`: one seed per
      accepted line, created in file order; short lines are reported by
      their 1-based number and skipped; the first fatal line ends the run, and
      the seeds created before it are kept. */
  method CreateSeedsFromFile(outputDir: string, lines: seq<string>, radius: Option<real>,
                             parse: string -> Option<real>, ok: Command -> bool)
    returns (seeds: seq<FCSeed>, warnings: seq<nat>, fatal: Option<Error>)
    ensures var r := ScanLines(Verdicts(outputDir, lines, radius, parse, ok));
            warnings == r.warnings && fatal == r.fatal && |seeds| == |r.items|
            && forall k :: 0 <= k < |seeds| ==> Describes(seeds[k], outputDir, r.items[k])
  {
    ghost var vs := Verdicts(outputDir, lines, radius, parse, ok);
    seeds, warnings, fatal := [], [], None;
    ghost var scan: Scan<SeedSpec> := Scan([], [], None);
    var i := 0;
    assert vs[..0] == [];
    while i < |lines| && fatal.None?
      invariant 0 <= i <= |lines|
      invariant scan == ScanLines(vs[..i])
      invariant Tracks(scan, outputDir, seeds, warnings, fatal)
    {
      VerdictsNext(outputDir, lines, radius, parse, ok, i);
      seeds, warnings, fatal, scan := CreateNext(outputDir, lines[i], i + 1, radius, parse, ok,
                                                 seeds, warnings, fatal, scan);
      i := i + 1;
    }
    if fatal.Some? {
      ScanStopped(vs, i);
    } else {
      assert vs[..i] == vs;
    }
  }

  /** The scan of the first `i + 1` lines takes one step from that of the
      first `i`. */
  lemma VerdictsNext(dir: string, lines: seq<string>, radius: Option<real>, parse: string -> Option<real>,
                     ok: Command -> bool, i: nat)
    requires i < |lines|
    ensures var vs := Verdicts(dir, lines, radius, parse, ok);
            ScanLines(vs[..i + 1]) == Step(ScanLines(vs[..i]), LineVerdict(dir, lines[i], radius, parse, ok), i + 1)
  {
    ScanLinesNext(Verdicts(dir, lines, radius, parse, ok), i);
  }

  /** The seeds, warnings and fatal error of a run so far are those its scan
      describes. */
  ghost predicate Tracks(scan: Scan<SeedSpec>, dir: string, seeds: seq<FCSeed>, warnings: seq<nat>,
                         fatal: Option<Error>)
    reads seeds
  {
    scan.warnings == warnings && scan.fatal == fatal && |seeds| == |scan.items|
    && forall k :: 0 <= k < |seeds| ==> Describes(seeds[k], dir, scan.items[k])
  }

  lemma TracksAppend(scan: Scan<SeedSpec>, dir: string, seeds: seq<FCSeed>, warnings: seq<nat>,
                     fatal: Option<Error>, s: FCSeed, item: SeedSpec)
    requires Tracks(scan, dir, seeds, warnings, fatal) && Describes(s, dir, item)
    ensures Tracks(scan.(items := scan.items + [item]), dir, seeds + [s], warnings, fatal)
  {
  }

  /** The body of `create_seeds_from_file`'s loop for the line numbered
      `lineNo`. */
  method CreateNext(outputDir: string, line: string, lineNo: nat, radius: Option<real>,
                    parse: string -> Option<real>, ok: Command -> bool,
                    seeds: seq<FCSeed>, warnings: seq<nat>, fatal: Option<Error>, ghost scan: Scan<SeedSpec>)
    returns (seeds': seq<FCSeed>, warnings': seq<nat>, fatal': Option<Error>, ghost scan': Scan<SeedSpec>)
    requires fatal.None? && Tracks(scan, outputDir, seeds, warnings, fatal)
    ensures scan' == Step(scan, LineVerdict(outputDir, line, radius, parse, ok), lineNo)
    ensures Tracks(scan', outputDir, seeds', warnings', fatal')
  {
    var v, s := CreateFromLine(outputDir, line, radius, parse, ok);
    seeds', warnings', fatal', scan' := Record(outputDir, v, s, lineNo, seeds, warnings, fatal, scan);
  }

  /** The bookkeeping of `create_seeds_from_file`'s loop for the line
      numbered `lineNo`, whose verdict is `v` and whose seed, if any, is `s`. */
  method Record(dir: string, v: Verdict<SeedSpec>, s: FCSeed?, lineNo: nat,
                seeds: seq<FCSeed>, warnings: seq<nat>, fatal: Option<Error>, ghost scan: Scan<SeedSpec>)
    returns (seeds': seq<FCSeed>, warnings': seq<nat>, fatal': Option<Error>, ghost scan': Scan<SeedSpec>)
    requires fatal.None? && Tracks(scan, dir, seeds, warnings, fatal)
    requires v.Accept? ==> s != null && Describes(s, dir, v.item)
    ensures scan' == Step(scan, v, lineNo)
    ensures Tracks(scan', dir, seeds', warnings', fatal')
  {
    seeds', warnings', fatal' := seeds, warnings, fatal;
    if v.Skip? {
      warnings' := warnings + [lineNo];
      scan' := scan.(warnings := warnings');
    } else if v.Stop? {
      fatal' := Some(v.error);
      scan' := scan.(fatal := fatal');
    } else {
      seeds' := seeds + [s];
      scan' := scan.(items := scan.items + [v.item]);
      TracksAppend(scan, dir, seeds, warnings, fatal, s, v.item);
    }
  }

  /** Without a radius argument, a line of four fields (or six or more) is
      fatal, so the run ends there at the latest and only earlier lines can
      have produced seeds. */
  lemma MissingRadiusStops(outputDir: string, lines: seq<string>, parse: string -> Option<real>,
                           ok: Command -> bool, k: nat)
    requires k < |lines| && |Fields(lines[k])| >= 4 && |Fields(lines[k])| != 5
    ensures ScanLines(Verdicts(outputDir, lines, None, parse, ok)).fatal.Some?
    ensures |ScanLines(Verdicts(outputDir, lines, None, parse, ok)).items| <= k
  {
    var vs := Verdicts(outputDir, lines, None, parse, ok);
    assert vs[k] == LineVerdict(outputDir, lines[k], None, parse, ok);
    assert vs[k].Stop?;
    ScanLinesSpec(vs);
    var n := FirstStop(vs);
    assert n <= k;
    AcceptedBound(vs[..n]);
  }

  /** A line with too few fields to describe a seed. */
  predicate Short(line: string)
  {
    |Fields(line)| < 4
  }

  /** A line is skipped, with or without its seed's creation, exactly when
      it has fewer than four fields. */
  lemma SkipIffShort(dir: string, line: string, radius: Option<real>,
                     parse: string -> Option<real>, ok: Command -> bool)
    ensures LineVerdict(dir, line, radius, parse, ok).Skip? <==> Short(line)
  {
  }

  /** Every warning of a run is the 1-based number of a line with fewer than
      four fields, and the warnings come in line order. */
  lemma WarnedLineIsShort(outputDir: string, lines: seq<string>, radius: Option<real>,
                          parse: string -> Option<real>, ok: Command -> bool, j: nat)
    requires j < |Warnings(outputDir, lines, radius, parse, ok)|
    ensures 1 <= Warnings(outputDir, lines, radius, parse, ok)[j] <= |lines|
    ensures Short(lines[Warnings(outputDir, lines, radius, parse, ok)[j] - 1])
    ensures j > 0 ==> Warnings(outputDir, lines, radius, parse, ok)[j - 1] < Warnings(outputDir, lines, radius, parse, ok)[j]
  {
    var vs := Verdicts(outputDir, lines, radius, parse, ok);
    WarningsSkipped(vs);
    var w := ScanLines(vs).warnings;
    SkippedLineShort(outputDir, lines, radius, parse, ok, w[j] - 1);
  }

  lemma SkippedLineShort(outputDir: string, lines: seq<string>, radius: Option<real>,
                         parse: string -> Option<real>, ok: Command -> bool, k: nat)
    requires k < |lines|
    ensures Verdicts(outputDir, lines, radius, parse, ok)[k].Skip? <==> Short(lines[k])
  {
    assert Verdicts(outputDir, lines, radius, parse, ok)[k] == LineVerdict(outputDir, lines[k], radius, parse, ok);
    SkipIffShort(outputDir, lines[k], radius, parse, ok);
  }

  /** Every line with fewer than four fields before the line that stopped the
      run is reported, by its 1-based number. */
  lemma ShortLinesAreWarned(outputDir: string, lines: seq<string>, radius: Option<real>,
                            parse: string -> Option<real>, ok: Command -> bool, k: nat)
    requires k < FirstStop(Verdicts(outputDir, lines, radius, parse, ok)) && Short(lines[k])
    ensures k + 1 in Warnings(outputDir, lines, radius, parse, ok)
  {
    var vs := Verdicts(outputDir, lines, radius, parse, ok);
    VerdictAt(outputDir, lines, radius, parse, ok, k);
    SkipIffShort(outputDir, lines[k], radius, parse, ok);
    SkipWarned(vs, k);
  }

  /** The verdict on line `k` of a file. */
  lemma VerdictAt(dir: string, lines: seq<string>, radius: Option<real>, parse: string -> Option<real>,
                  ok: Command -> bool, k: nat)
    requires k < |lines|
    ensures Verdicts(dir, lines, radius, parse, ok)[k] == LineVerdict(dir, lines[k], radius, parse, ok)
  {
  }

  /** Without a radius argument, a line of exactly five fields whose numbers
      all parse yields its seed, with the fifth field as its radius. */
  lemma FiveFieldLineAccepted(line: string, parse: string -> Option<real>)
    requires |Fields(line)| == 5
    requires forall k :: 1 <= k < 5 ==> parse(Strip(Fields(line)[k])).Some?
    ensures ParseLine(line, None, parse).Accept?
    ensures ParseLine(line, None, parse).item.name == Normalize(Fields(line)[0])
    ensures ParseLine(line, None, parse).item.radius == parse(Strip(Fields(line)[4])).value
  {
  }

  /** The fields of the line `s,1,2,3,4`. */
  lemma FiveFields()
    ensures Fields("s,1,2,3,4") == ["s", "1", "2", "3", "4"]
  {
    var parts := ["s", "1", "2", "3", "4"];
    FiveJoined();
    assert forall k :: 0 <= k < |parts| ==> ',' !in parts[k];
    SplitJoin(parts, ',');
    FiveStripped();
  }

  lemma FiveJoined()
    ensures JoinWith(["s", "1", "2", "3", "4"], ',') == "s,1,2,3,4"
  {
    assert JoinWith(["3", "4"], ',') == "3,4";
    assert JoinWith(["2", "3", "4"], ',') == "2,3,4";
    assert JoinWith(["1", "2", "3", "4"], ',') == "1,2,3,4";
  }

  lemma FiveStripped()
    ensures Strip("s,1,2,3,4") == "s,1,2,3,4"
  {
    assert TrimLeft("s,1,2,3,4") == "s,1,2,3,4";
  }

  /** A radius argument is the radius of every seed of the file, whatever
      the lines say. */
  lemma RadiusArgumentEverywhere(outputDir: string, lines: seq<string>, r: real,
                                 parse: string -> Option<real>, ok: Command -> bool)
    ensures forall k :: 0 <= k < |ScanLines(Verdicts(outputDir, lines, Some(r), parse, ok)).items| ==>
              ScanLines(Verdicts(outputDir, lines, Some(r), parse, ok)).items[k].radius == r
  {
    var vs := Verdicts(outputDir, lines, Some(r), parse, ok);
    var n := FirstStop(vs);
    assert ScanLines(vs).items == Accepted(vs[..n]) by {
      ScanLinesSpec(vs);
    }
    forall i | 0 <= i < n && vs[..n][i].Accept?
      ensures vs[..n][i].item.radius == r
    {
      VerdictAt(outputDir, lines, Some(r), parse, ok, i);
    }
    AcceptedRadius(vs[..n], r);
  }

  lemma {:induction false} AcceptedRadius(vs: seq<Verdict<SeedSpec>>, r: real)
    requires forall i :: 0 <= i < |vs| && vs[i].Accept? ==> vs[i].item.radius == r
    ensures forall k :: 0 <= k < |Accepted(vs)| ==> Accepted(vs)[k].radius == r
  {
    if vs != [] {
      assert forall i :: 0 <= i < |vs[1..]| ==> vs[1..][i] == vs[i + 1];
      AcceptedRadius(vs[1..], r);
    }
  }
}
