# nacc_rsfmri: the analysis bookkeeping, in Dafny

`nacc_rsfmri` runs a resting-state fMRI functional-connectivity analysis by
driving external neuro-imaging tools (AFNI, FSL). These are the pieces that
decide what the tools are asked to do and where their results go:

- the **seed-list loaders** turn `name, x, y, z[, radius]` lines into
  spherical seeds (regions of interest):
  - `create_seeds_from_file` in the newer package;
  - `FCProject.create_seed_from_file` in both project classes;
- the **seed registry** of `FCProject` and the copy of seed files into the
  project (`add_seed`, `create_seed`, `FCSeed.set`);
- the **file names of each analysis unit**, one unit being a (session, seed)
  pair: the timecourse, the correlation map, the z-map, the snapshot; also
  the group results of each seed, and the directory layout of a project;
- the **stages** of a project:
  - timecourse extraction (`extract_ts`);
  - voxel-wise correlation and the r-to-z rename (`fc_voxelwise`,
    `volume_r2z`);
  - group statistics (`fc_voxelwise_groupstats`);
  - the HTML summary (`generate_report`);
- the **group matrix post-processing**: the zeroed diagonal, the colour-scale
  limit and the thresholded network graph (`fc_matrix_groupstats`,
  `generate_network_graph`);
- the **report accumulators** of `rsfmri/reports.py`, and the `FCSession`
  path and existence checks and its statistics list.

There are two versions of `FCProject`:

- the newer package's (`rsfmri/project.py`), called `Current` in the model;
- the older standalone script's (`project.py`), called `Legacy`.

Both are one class, `Project.FCProject`, with a `version` field. The two
versions differ in four ways:

- the directory layout;
- whether seed names are normalised;
- the snapshot images;
- the report (only the newer version makes one).

How the model stands in for the world outside the program:

- **Tools.** An external tool run is a `Command` (the tool, the files it reads
  that the pipeline names, the file it writes). An oracle `ok: Command -> bool`
  says whether the run succeeds. A failed run is fatal, as `run_cmd` and
  `FCProject.run` make it.
- **Fatal paths.** Every `sys.exit()`, every failed tool run, every missing
  file and every index or parse error the code can reach becomes an `Outcome`
  or `Result` carrying an `Error`. The state reached before it is kept.
  File-system writes that the code does not guard (`shutil.copyfile`, the
  report's `open`/`write`) are assumed to succeed; "## Left out" lists them.
- **Python 2 dict order.** The order in which a dict yields its keys is an
  explicit `order` parameter that lists the keys once each (`SeedOrder`).
- **Other library calls.** These become parameters:
  - `tempfile.mktemp` is `tmp`;
  - `os.path.isfile` and `os.path.isdir` are `isFile` and `isDir`;
  - `os.path.abspath` of a seed file is `abspath`, and the project's output
    directory is taken already absolute (`rsfmri/project.py:29`,
    `project.py:27`): the constructor's `outputRoot` stands for
    `os.path.abspath(output_dir)`;
  - `float()` is `parse`.
- **Sessions.** The per-seed file maps that the projects keep on each
  session are the class `Artifacts.SessionFiles`.

The files are:

- `wrappers.dfy`: `Option` and `Result`;
- `errors.dfy`: commands, errors, outcomes;
- `strings.dfy`: `split`, `strip`, `lower`, the name normalisation, `%d`;
- `paths.dfy`: `join`, `basename`, `relpath`, the `.nii.gz` rename;
- `seedlist.dfy`: the line scan shared by the loaders;
- `seed.dfy`: `rsfmri/seed.py`;
- `session.dfy`: `rsfmri/session.py`;
- `artifacts.dfy`: unit and group file names;
- `graphics.dfy`: `generate_network_graph`;
- `reports.dfy`: `rsfmri/reports.py`;
- `project.dfy`: both `FCProject` classes.

## Model

| member | source | states |
|---|---|---|
| Errors.RunCommand | rsfmri/utils.py:26-28 | a command run finishes exactly when the tool succeeds, and otherwise fails with that command as the error |
| Strings.Split | rsfmri/seed.py:25 | `split(',')` yields one piece more than the line has commas, so an empty line yields one empty field |
| Strings.SplitPieces | rsfmri/seed.py:25 | no field holds the separator |
| Strings.JoinSplit | rsfmri/seed.py:25 | joining the fields with the separator gives the line back: splitting loses no character |
| Strings.SplitJoin | rsfmri/seed.py:25 | separator-free pieces joined and split again come back unchanged |
| Strings.SplitConcat | rsfmri/seed.py:25 | a separator between two strings separates their fields |
| Strings.Strip | rsfmri/seed.py:25 | `strip()` keeps a contiguous middle of the line, drops only white space before and after it, and neither end of the result is white space |
| Strings.TrimLeft | rsfmri/seed.py:25 | the left half of `strip()`: a suffix of the line, made of all the leading white space and not starting with any |
| Strings.TrimRight | rsfmri/seed.py:25 | the right half of `strip()`: a prefix of the line, made of all the trailing white space and not ending with any |
| Strings.SplitNoSep | rsfmri/seed.py:25 | a line without the separator splits into itself alone |
| Strings.LowerChar | rsfmri/seed.py:32 | `lower()` maps A-Z to a-z and leaves every other character alone |
| Strings.Lower | rsfmri/seed.py:32 | `lower()` keeps the length and lowers each character on its own |
| Strings.ReplaceChar | rsfmri/seed.py:32 | `re.sub(' ', '_', n)` replaces every space and nothing else |
| Strings.Normalize | rsfmri/seed.py:30-32 | a normalised name has the same length, no space and no upper-case letter |
| Strings.NormalizeIdempotent | rsfmri/seed.py:32 | normalising twice is normalising once |
| Strings.NormalizeSameIdentity | rsfmri/seed.py:32 | two names normalise alike exactly when they agree position by position up to case and up to space versus underscore |
| Strings.NatToDecimal | rsfmri/seed.py:71 | the digits of a number have no leading zero |
| Strings.DecimalRoundTrip | rsfmri/seed.py:71 | reading back the printed digits gives the number |
| Strings.IntToDecimal | rsfmri/session.py:23 | `'{}'.format(i)` of an integer: a minus sign exactly for negative numbers, then the digits of the magnitude |
| Strings.TruncateReal | rsfmri/seed.py:71 | `%d` of a float truncates toward zero: the result is within one of the value, on the side of zero |
| Strings.FormatD | rsfmri/seed.py:71 | `%d` of a radius is digits with an optional leading minus, so it never holds a slash |
| Paths.Join | rsfmri/project.py:208 | `os.path.join`: an absolute name replaces the directory; otherwise the directory is kept as a prefix and the name as a suffix, after a slash |
| Paths.JoinInjective | rsfmri/project.py:208 | two relative names joined to one directory give the same path only if they are equal |
| Paths.Basename | rsfmri/seed.py:88 | `basename` is the slash-free tail of the path after its last slash |
| Paths.BasenameOfJoin | rsfmri/seed.py:88 | `basename` undoes `join` for a slash-free name |
| Paths.JoinBasenameFixpoint | rsfmri/seed.py:88-89 | a file already in the seed directory maps to itself, so no copy is made |
| Paths.Components | rsfmri/project.py:350 | the components `relpath` compares are non-empty and slash-free |
| Paths.CommonPrefixLength | rsfmri/project.py:350 | the common prefix of two component lists is shared and cannot be extended |
| Paths.RelPath | rsfmri/project.py:350 | `relpath` fails exactly on an empty path |
| Paths.ComponentsOfJoin | rsfmri/project.py:350 | the components of `join(start, rel)` are those of `start` followed by those of `rel` |
| Paths.RelPathOfJoin | rsfmri/project.py:350 | a clean relative name joined to `start` is named by itself relative to `start` |
| Paths.NiiGzToZ | rsfmri/project.py:362 | `re.sub('.nii.gz$', '_z.nii.gz', f)`: a match at the end (each `.` any character but newline) is replaced, and so is a match just before a final newline; with no match the name is unchanged |
| Paths.NiiGzToZOfNiiGz | rsfmri/project.py:362 | a name ending in `.nii.gz` keeps everything before that ending and ends in `_z.nii.gz` |
| Paths.JoinNiiGzToZ | rsfmri/project.py:362 | renaming a joined path renames the file and keeps the directory |
| Paths.NiiGzToZIgnoresOthers | rsfmri/project.py:362 | a name that ends neither in `gz` nor in `gz` followed by a newline is left unchanged |
| SeedList.FirstStop | rsfmri/seed.py:49-51 | the first fatal line: no line before it is fatal |
| SeedList.ScanLinesSpec | rsfmri/seed.py:24-51 | the loop over lines stops at the first fatal line with its error; before it, the accepted lines' seeds come in file order and every skipped line is reported by its 1-based number |
| SeedList.SkippedSound | rsfmri/seed.py:26-27 | every reported number is that of a skipped line |
| SeedList.SkippedComplete | rsfmri/seed.py:26-27 | every skipped line is reported |
| SeedList.SkipWarned | rsfmri/seed.py:26-28 | a skipped line before the first fatal one is warned about by its 1-based number |
| SeedList.SkippedIncreasing | rsfmri/seed.py:24-27 | the warnings come in increasing line order |
| SeedList.EveryLineAccounted | rsfmri/seed.py:24-48 | without a fatal line, every line yields a seed or a warning |
| SeedList.ScanStopped | rsfmri/seed.py:49-51 | once a line is fatal the later lines change nothing |
| SeedList.AcceptedBound | rsfmri/seed.py:46-48 | a line yields at most one seed |
| SeedList.WarningsSkipped | rsfmri/seed.py:26-28 | every warning names a skipped line, in increasing order |
| Seed.Coords | rsfmri/seed.py:34 | the coordinates are the parsed stripped fields 2-4, and any field that does not parse fails them all |
| Seed.ParseLine | rsfmri/seed.py:25-43 | skip iff fewer than four fields; fatal iff a coordinate does not parse, or there is no radius argument and the line lacks exactly five fields or a parsable fifth field; an accepted seed has the normalised first field as name, the parsed coordinates, and the argument's radius or else the fifth field's |
| Seed.FiveFieldLineAccepted | rsfmri/seed.py:36-38 | without a radius argument, a five-field line with parsable numbers yields its seed with the fifth field as radius |
| Seed.Created | rsfmri/seed.py:46-47 | an accepted line whose `3dUndump` run fails is fatal with that command; every skip and every fatal verdict is passed on unchanged |
| Seed.FCSeed.constructor | rsfmri/seed.py:60-66 | name and directory as given; the snapshot is `<dir>/seed_<name>.png`; a given file, made absolute, is brought into the directory as `set` does and copied exactly when its place there differs from it |
| Seed.FCSeed.Create | rsfmri/seed.py:68-80 | the file becomes `<dir>/<name>_<radius as %d>mm.nii.gz` before the tool runs, and the outcome is the tool's |
| Seed.FCSeed.Set | rsfmri/seed.py:87-95 | the file becomes `<dir>/basename(f)`, and a copy is made exactly when that differs from `f` |
| Seed.CreatedFileNeedsNoCopy | rsfmri/seed.py:71 | a file that `create` named, for a slash-free name, is already where `set` would put it |
| Seed.CreateFromLine | rsfmri/seed.py:29-48 | one line's verdict, and for an accepted line a new seed object describing it |
| Seed.CreateSeedsFromFile | rsfmri/seed.py:15-53 | the seeds, warnings and fatal error of the whole loop are those of the scan: one seed per accepted line in file order, each created in the output directory under its line's name and radius |
| Seed.CreateNext | rsfmri/seed.py:24-48 | one iteration takes the scan one line further and keeps the seeds, warnings and error in step with it |
| Seed.Record | rsfmri/seed.py:26-48 | a skip appends its line number, a fatal verdict records its error, an accepted verdict appends its seed |
| Seed.MissingRadiusStops | rsfmri/seed.py:36-41 | without a radius argument, a line of four or six-plus fields stops the run, and only earlier lines can have produced seeds |
| Seed.SkipIffShort | rsfmri/seed.py:26-28 | a line is skipped exactly when it has fewer than four fields |
| Seed.WarnedLineIsShort | rsfmri/seed.py:26-27 | every warning is the 1-based number of a short line, and the warnings increase |
| Seed.SkippedLineShort | rsfmri/seed.py:26 | line `k` is skipped exactly when it is short |
| Seed.ShortLinesAreWarned | rsfmri/seed.py:26-28 | every short line before the fatal one is warned about as `k + 1` |
| Seed.RadiusArgumentEverywhere | rsfmri/seed.py:42-43 | a radius argument is the radius of every seed of the file |
| Session.BoldPathForm | rsfmri/session.py:23-24 | the bold volume is `rest_fwhm<fwhm>.nii.gz` inside `<dir>/restproc`, and different widths name different volumes |
| Session.IntToDecimalInjective | rsfmri/session.py:23 | different integers print differently |
| Session.OpenCheck | rsfmri/session.py:26-32 | opening succeeds iff the directory and the bold file exist; the directory is checked first |
| Session.Columns | rsfmri/session.py:39 | the timecourse columns are keyed by exactly the seed names of the statistics |
| Session.ColumnsLastWins | rsfmri/session.py:39 | a seed's column is the file of its last statistics record |
| Session.FCSession.constructor | rsfmri/session.py:16-24 | the directory is `<parent>/<id>`, the bold file `<dir>/restproc/rest_fwhm<fwhm>.nii.gz`, and the statistics start empty |
| Session.FCSession.AddStats | rsfmri/session.py:35-36 | appends one record at the end |
| Session.FCSession.Timecourse | rsfmri/session.py:38-40 | one column per seed name among the records |
| Session.OpenSession | rsfmri/session.py:16-32 | the session as constructed, together with the outcome of its existence checks |
| Artifacts.TimecoursePath | rsfmri/project.py:208 | the timecourse ends in `.1d` |
| Artifacts.RMapPath | rsfmri/project.py:286-287 | the correlation map ends in `_pearson.nii.gz` |
| Artifacts.SnapshotPath | rsfmri/project.py:305-306 | the unit snapshot ends in `.png` |
| Artifacts.GroupMeanPath | rsfmri/project.py:328 | the group mean ends in `_z_mean.nii.gz` |
| Artifacts.RandomiseBase | rsfmri/project.py:322 | the `randomise` output base ends in the seed name |
| Artifacts.GroupSnapshotPath | rsfmri/project.py:334-335 | the group snapshot ends in `.png` |
| Artifacts.SeedFileName | rsfmri/seed.py:71 | a seed file ends in `mm.nii.gz` |
| Artifacts.SeedSnapshotPath | rsfmri/seed.py:63 | a seed snapshot ends in `.png` |
| Artifacts.GroupMeanCsvPath | rsfmri/project.py:232 | the group-mean CSV ends in `.csv` |
| Artifacts.SeedCsvPath | rsfmri/project.py:238 | a seed's CSV ends in `.csv` |
| Artifacts.ZMapPathForm | rsfmri/project.py:362 | a unit's z-map is `<dir_vols>/<id>_<seed>_pearson_z.nii.gz` |
| Artifacts.StemInjectiveById | rsfmri/project.py:208 | with underscore-free session ids, `<id>_<seed>` determines the id and the seed |
| Artifacts.StemInjectiveBySeed | rsfmri/project.py:208 | with underscore-free seed names, the same |
| Artifacts.StemInjective | rsfmri/project.py:208 | under either condition, `<id>_<seed>` determines the unit |
| Artifacts.UnitPathsDisjoint | rsfmri/project.py:208-306 | when session ids are relative and either no id or no seed name contains `_`, two different units never share a timecourse, correlation map, z-map or snapshot file |
| Artifacts.UnitPathsCollide | rsfmri/project.py:208 | without the condition they do: session `a_b` with seed `c` and session `a` with seed `b_c` share their files |
| Artifacts.ZMapEnds | rsfmri/project.py:362 | every z-map ends in `_pearson_z.nii.gz` |
| Artifacts.StagePathsDistinct | rsfmri/project.py:208-306 | the four stages never write the same file, whatever the units |
| Artifacts.SessionFiles.constructor | rsfmri/project.py:219 | a session starts with no recorded timecourse, correlation map or z-map |
| Graphics.VisitedKey | rsfmri/graphics.py:80-85 | after the pairs before `(a, b)` in `combinations` order, there is an edge for exactly the visited pairs above the threshold, carrying that cell's data |
| Graphics.EdgesKey | rsfmri/graphics.py:80-85 | the same for the finished graph |
| Graphics.EdgesSpec | rsfmri/graphics.py:80-85 | an edge `(a, b)` exists iff `a < b` and the cell is strictly above the threshold; its `weight` is the cell, and each attribute is the same cell of its matrix |
| Graphics.EdgesAntitone | rsfmri/graphics.py:81 | raising the threshold never adds an edge and keeps the data of those that remain |
| Graphics.EdgesReadUpperTriangle | rsfmri/graphics.py:80 | cells on and below the diagonal are never read |
| Graphics.Rows | rsfmri/graphics.py:80-85 | the matrix the loop reads, cell for cell |
| Graphics.GenerateNetworkGraph | rsfmri/graphics.py:75-87 | every label is a node, and the edges are exactly those of `Edges` |
| Graphics.NodeSet | rsfmri/graphics.py:78 | the nodes are all the labels, even with no edge |
| Graphics.AddRow | rsfmri/graphics.py:80-85 | the inner loop adds row `a`'s edges to those of the rows above it |
| Reports.WithSeed | rsfmri/reports.py:36-38 | `init_seed` adds an empty section only for an unseen seed and changes nothing else |
| Reports.Appended | rsfmri/reports.py:25-31 | `add_img`/`add_txt` append one entry to the seed's section and leave other sections unchanged |
| Reports.WithSeedIdempotent | rsfmri/reports.py:36-38 | `init_seed` twice is `init_seed` once |
| Reports.AddAllInOrder | rsfmri/reports.py:25-31 | after any series of calls, a section is its old entries followed by the items of the calls for that seed, in call order |
| Reports.AddAllKeys | rsfmri/reports.py:25-31 | a seed has a section iff it had one or some call named it |
| Reports.AddAllSection | rsfmri/reports.py:25-31 | a section's entries are its old ones followed by its calls' items in order |
| Reports.FCReportGroupSeeds.constructor | rsfmri/reports.py:21-23 | the `Seeds` report on `seeds.html`, with no section |
| Reports.FCReportGroupSeeds.InitSeed | rsfmri/reports.py:36-38 | the sections become `WithSeed` of the old ones |
| Reports.FCReportGroupSeeds.AddImg | rsfmri/reports.py:25-27 | the sections become the old ones with an image entry appended to the seed's |
| Reports.FCReportGroupSeeds.AddTxt | rsfmri/reports.py:29-31 | the sections become the old ones with a text entry appended to the seed's |
| Reports.FCReportGroupSummary.constructor | rsfmri/reports.py:43-45 | the `Group-level Summary` report on `summary.html`, with no item |
| Reports.FCReportGroupSummary.AddImg | rsfmri/reports.py:47-48 | one image entry appended |
| Reports.FCReportGroupSummary.AddTxt | rsfmri/reports.py:50-51 | one text entry appended |
| Reports.FCReport.constructor | rsfmri/reports.py:59-61 | the titled report on `report.html`, with no sub-report |
| Reports.FCReport.AddReport | rsfmri/reports.py:63-64 | one sub-report appended |
| Reports.FCReport.Render | rsfmri/reports.py:66-68 | every sub-report rendered once, in the order added |
| Project.LayoutNesting | rsfmri/project.py:28-43 | every directory is inside `<output>/<label>`; first-level ones are inside the results directory and (newer version) the group ones inside the group directory; in the older version (`project.py:27-35`) every results directory, `group-stats` included, is inside `<output>/<label>/results` |
| Project.LayoutDistinct | rsfmri/project.py:28-43 | the directories that stages write into are pairwise different |
| Project.SeedFileInPlace | rsfmri/project.py:175-176 | a registered seed file lies in the seed directory, and registering it again neither moves nor copies it |
| Project.CreatedSeedNotCopied | rsfmri/project.py:129-139 | a created seed is registered under the very file `3dUndump` wrote |
| Project.LineVerdict | rsfmri/project.py:148-164 | skip iff fewer than four fields; without a radius argument every other line is fatal (a five-field line by its out-of-range index); otherwise the seed is created and registered under the version's name |
| Project.FiveFieldLineFatal | project.py:165-167 | the five-field line `s,1,2,3,4` without a radius argument is fatal |
| Project.RegisteredLastWins | rsfmri/project.py:180 | the last registration of a name decides its file |
| Project.RegisteredUntouched | rsfmri/project.py:180 | a name no registration mentions keeps its entry or its absence |
| Project.NoRadiusNoSeeds | rsfmri/project.py:158-163 | without a radius argument nothing is registered, and the run is fatal iff some line has four fields or more |
| Project.NoRadiusVerdict | project.py:165-170 | without a radius argument no line is accepted, and a line is fatal iff it is not short |
| Project.RegisteredFromLine | rsfmri/project.py:152-164 | with a radius argument, a registered seed has its line's name (normalised in the newer version) and the file created with that radius |
| Project.WarnedLineIsShort | project.py:157-160 | every warning is the 1-based number of a line with fewer than four fields, in increasing order |
| Project.SkippedLineShort | project.py:158 | line `k` is skipped exactly when it is short |
| Project.ExtractDone | rsfmri/project.py:203-216 | `extract_ts` finishes iff every seed's `fslmeants` succeeds |
| Project.ExtractDoneAllRun | rsfmri/project.py:203-216 | in a finished extraction every seed's command succeeds |
| Project.ExtractAllRunDone | rsfmri/project.py:203-216 | if every command succeeds the extraction finishes |
| Project.ExtractRecorded | rsfmri/project.py:208-219 | after a finished extraction every seed has its timecourse `<dir_ts>/<id>_<seed>.1d` |
| Project.ExtractFrame | rsfmri/project.py:203-219 | seeds outside the run keep their entry; even a run cut short records only timecourses of its seeds |
| Project.ExtractKeepsOthers | rsfmri/project.py:219 | a seed outside the run keeps its entry or its absence |
| Project.ExtractWritesTimecourses | rsfmri/project.py:219 | every entry is the seed's timecourse or its old entry |
| Project.VoxelwiseRecorded | rsfmri/project.py:277-301 | a finished `fc_voxelwise` had a timecourse for every seed and recorded its correlation map and its z-map `<id>_<seed>_pearson_z.nii.gz` |
| Project.VoxelwiseFrame | rsfmri/project.py:298-301 | seeds outside the run keep their map entries |
| Project.VoxelStepTool | rsfmri/project.py:283-307 | with the timecourse at hand, only a failing tool stops a seed's step |
| Project.VoxelStepFrame | rsfmri/project.py:298-301 | one seed's step touches only that seed's entries |
| Project.VoxelwiseHasTimecourses | rsfmri/project.py:278-283 | with a timecourse for every seed, `fc_voxelwise` stops only on a failing tool |
| Project.VoxelwiseAfterExtract | rsfmri/project.py:283 | after a finished `extract_ts` over the same seeds, `fc_voxelwise` stops only on a failing tool |
| Project.RunAll | rsfmri/project.py:316-330 | commands run in order finish iff all succeed; a failure names a failing command of the list |
| Project.ZMapList | rsfmri/project.py:312 | one z-map per session, in session order, iff every session has one for the seed |
| Project.ZMapListFirstMissing | rsfmri/project.py:312 | the error names the first session without the seed's z-map |
| Project.GroupToolsInOrder | rsfmri/project.py:316-336 | the group tools run in order (merge, `randomise`, mean, then the snapshot in the newer version) and stop at the first failure; the older version (`project.py:296-310`) runs merge, `randomise` and mean, with no snapshot |
| Project.RunThree | project.py:296-310 | three commands in order stop at the first failure |
| Project.RunFour | rsfmri/project.py:316-336 | four commands in order stop at the first failure |
| Project.GroupRecorded | rsfmri/project.py:311-339 | a finished group step had every session's z-map of every seed, and (newer version) set `report[seed]` to `<dir_grp_imgs>/<seed>_pearson_z_snapshot.png` |
| Project.GroupFrame | rsfmri/project.py:339 | the group step touches only its seeds' report entries |
| Project.GroupHasZMaps | rsfmri/project.py:311-312 | with every session's z-map of every seed, the group step stops only on a failing tool |
| Project.GroupStepTool | rsfmri/project.py:312-336 | with every session's z-map of the seed, only a tool stops its step |
| Project.Wrap | rsfmri/project.py:343-353 | the page exists iff its body does, and carries the body's error otherwise |
| Project.ReportBodyStep | rsfmri/project.py:347-351 | a seed without a report entry, or with an empty one, fails the report; otherwise its section precedes the rest |
| Project.AppendSections | rsfmri/project.py:347-351 | the loop appends one `<h5>Seed: s</h5><img src='…' border=0 /><br />` section per seed, in order, after the header |
| Project.ReportBodyComplete | rsfmri/project.py:347-351 | with a non-empty snapshot for every seed the report is complete |
| Project.ReportAfterGroupstats | rsfmri/project.py:339-350 | after a finished group step the report finds every seed's snapshot |
| Project.ReportSrc | rsfmri/project.py:350 | for a seed name without `/`, each seed's image is linked as `results-group/imgs/<seed>_pearson_z_snapshot.png` |
| Project.RelPathThree | rsfmri/project.py:350 | a file two directories below the output directory is named relative to it by those directories and its name |
| Project.ArgMax | rsfmri/project.py:255 | an index of a largest element |
| Project.MaxCell | rsfmri/project.py:255 | a cell no other cell exceeds |
| Project.ColourLimit | rsfmri/project.py:255 | the colour scale's upper end is an entry of the matrix that no entry exceeds; an empty matrix has none |
| Project.ZeroDiagonal | rsfmri/project.py:251-252 | every diagonal entry becomes 0 and every other entry is unchanged |
| Project.FcMatrixGroupstats | rsfmri/project.py:251-266 | the diagonal is zeroed; the colour limit is the fixed matrix's largest entry, at least 0; the network has every label and an edge wherever the mean exceeds 0.1, as if the diagonal had not been touched |
| Project.FCProject.constructor | rsfmri/project.py:26-46 | the layout derived from the output root and label; no seed and no report entry |
| Project.FCProject.AddSeed | rsfmri/project.py:169-180 | fatal iff the file is missing, with nothing changed; otherwise `seeds[name]` becomes `<dir_seeds>/basename(file)`, others unchanged, and a copy is made iff that differs from the file; the same in the older version (`project.py:176-187`) |
| Project.FCProject.CreateSeed | rsfmri/project.py:124-139 | the seed is registered under its created file iff `3dUndump` succeeds and the file exists; a failure changes nothing |
| Project.FCProject.RegisterLine | rsfmri/project.py:148-164 | one line's verdict, and the registry updated exactly when the line is accepted |
| Project.FCProject.CreateSeedFromFile | rsfmri/project.py:142-166 | warnings, fatal error and registry are those of the scan: earlier registrations stay when a line is fatal; the same in the older version (`project.py:151-173`), with names taken verbatim |
| Project.FCProject.ExtractTs | rsfmri/project.py:198-219 | no seed: fatal before any command, nothing recorded; otherwise the timecourses and outcome are `ExtractFrom` in the registry's order; the same in the older version (`project.py:205-226`) |
| Project.FCProject.VolumeR2Z | rsfmri/project.py:359-369 | `3dcalc` writes the renamed z-map, recorded exactly when it succeeds; the same in the older version (`project.py:313-323`) |
| Project.FCProject.VoxelwiseSeed | rsfmri/project.py:278-307 | one seed's step: a missing timecourse is fatal, then the correlation map, z-map and (newer version) snapshot |
| Project.FCProject.FcVoxelwise | rsfmri/project.py:277-307 | the session's maps and outcome are `VoxelwiseFrom` over the registry's order; the same in the older version (`project.py:263-287`), without snapshots |
| Project.FCProject.ZTable | rsfmri/project.py:312 | the sessions' ids and z-map files, in session order |
| Project.FCProject.GroupSeed | rsfmri/project.py:311-339 | one seed's group step: the report gains the seed's snapshot exactly when every tool succeeds (newer version) |
| Project.FCProject.FcVoxelwiseGroupstats | rsfmri/project.py:310-339 | the report and outcome are `GroupFrom` over the registry's order; the same in the older version (`project.py:290-310`), with group files in `results/group-stats` |
| Project.FCProject.GenerateReport | rsfmri/project.py:341-356 | the page is the header, a section per seed and `</body></html>`, written to `<output>/results-group-report.html`; a missing entry fails it |

## Left out

- The external tools (3dUndump, fslmeants, 3dTcorr1D, 3dcalc, fslmerge,
  randomise, fslmaths, overlay, slicer, montage, convert). They are opaque
  commands judged by an oracle. The text of their command lines is not
  modelled.
- `Errors.Command`: the coordinates and the constant MNI standard and mask
  volumes (`rsfmri/settings.py:14-15`) are not among a command's inputs.
- `snapshot_overlay`: its three or four tool runs are one `OverlayCommand`.
- Logging, `init_dirs`, `init_log`, `init_sessions` and `setup`. These are
  the file system, symbolic links and log handlers.
- Opening and reading the seed-list file: the loaders take its lines.
  `rsfmri/seed.py` imports `check_file` from `rsfmri/utils.py`, which does
  not define it, and `rsfmri/graphics.py:11` imports
  `image_center_of_gravity`, which it does not define either; as written,
  both imports fail. The model assumes working helpers.
- `add_seed_from_file`: it has no `self`, so neither version can call it.
- The group matrix numerics: `pd.Panel` mean, `fcmatrix` (Pearson
  correlation), `np.genfromtxt` and CSV writing. The group mean matrix is
  an input.
- The plots: `heatmap`, `plot_network_graph` and `plt.savefig`.
- Jinja2 rendering and `render_to_file`: a rendered report is the template's
  name, the label and the data handed to it.
- `take_snapshot` of a seed: it is a single `snapshot_overlay` call.
- The older version's matrix step beyond its file names. Its `dir_mats` is
  never written.
- `Project.FcMatrixGroupstats`: it takes the node labels as distinct, and
  records an edge by its index pair. With repeated labels, networkx would
  merge nodes and edges.
- `Project.ColourLimit`: NaN entries, which `nanmax` ignores, are not
  modelled (entries are reals). `0.1` is the exact real 0.1.
- Graphics.GenerateNetworkGraph and Graphics.EdgesSpec: matrix cells are
  reals, so there is no NaN cell. In the source a NaN cell fails the
  `<= thresh` test at `rsfmri/graphics.py:81` and becomes an edge with a NaN
  weight. A constant timecourse gives such a cell.
- Seed.ParseLine: the `parse` oracle yields finite reals only. Python's
  `float()` also accepts `inf`, `nan` and overflowing literals. Then `'%d' %`
  of the radius raises at `rsfmri/seed.py:71`, and the blanket `except`
  exits. A non-finite coordinate is passed on to `3dUndump`. No single
  oracle matches both behaviours.
- Strings.FormatD: `%d` of a finite real always succeeds here. The source
  raises on `inf` and `nan`.
- Seed.CreateSeedsFromFile: the generator is modelled as fully drained by
  its consumer. A consumer that stops early in the source never parses the
  later lines, never runs their `3dUndump`, and never reaches a later fatal
  line.
- Project.FCProject.AddSeed, Seed.FCSeed.Set, Seed.FCSeed.constructor:
  `copyfile` (`rsfmri/project.py:178`, `project.py:185`,
  `rsfmri/seed.py:92`) is assumed to succeed whenever the names differ. In
  the source it raises on any I/O error, and Python 2.7's `shutil.copyfile`
  raises `shutil.Error` when two different names denote the same file (such
  as `<dir_seeds>/./s.nii.gz`); nothing catches it, so the program stops with
  the seed unregistered. The model returns `Done`, sets `copied` and
  registers the seed. Names are compared as strings, without resolving `.`,
  `..` or links.
- Project.FCProject.GenerateReport: the `open(..., 'w')` and `write` of the
  page at `rsfmri/project.py:356` are assumed to succeed; an I/O error there
  is not modelled.
- Project.FCProject.constructor: `os.path.abspath(output_dir)` is left to
  the caller, who passes the absolute root as `outputRoot`; `dir_input` is
  not modelled, since no modelled stage reads it.
- Seed.FCSeed.constructor: `os.path.abspath` is the oracle `abspath`. The
  model does not relate it to the working directory.
- Reports.SubReport: `FCReport.add_report` takes any object with a
  `render()` method, a nested `FCReport` included. The model allows only the
  two group reports, which are the only ones the package defines for it.
- `Paths.RelPath`: it assumes both paths are already absolute and
  normalised (no `.`, `..` or doubled slash). `os.path.abspath` is left to
  the caller.
- `Project.FCProject`: `seeds`, `results` and `report` are class attributes
  in the source, shared by every instance. The model gives each project its
  own. `results` is never used.
- The session setters `set_ts_file`, `set_rmap_file`, `set_zmap_file` and
  `get_*_file` are not in `rsfmri/session.py`. As written, `extract_ts`
  therefore raises `AttributeError` at `rsfmri/project.py:219`, right after
  the first `fslmeants` run, and no later stage can be reached. The model
  follows the evident intent: it records those maps on
  `Artifacts.SessionFiles`.
- `fc_matrix_groupstats`'s per-seed CSV contents (`major_xs`). Only the file
  names are modelled.
- `extract_ts_all` and `fc_voxelwise_all`: each only calls its stage once
  per session, in session order. The model states each stage for one
  session.
- `max_num_threads`: unused, and there is no concurrency.
- `Seed.ParseLine`: Python's `float()` is the `parse` oracle. The model does
  not relate its result to the decimal text, beyond accept or reject.
- `Seed.CreateSeedsFromFile`: every fatal line ends the run with its own
  error. The source's blanket `except` turns all of them into one logged
  message and `sys.exit()`.
- `Project.LineVerdict`: `x, y, z` are not parsed by the project loaders,
  which pass the strings through. The radius argument is taken as a number.

## Findings

| source | as written | input that shows it | evidently intended | confidence | as-written member | corrected member |
|---|---|---|---|---|---|---|
| project.py:167 | without a radius argument, a five-field line reads `fields[5]`, past the end of the list, raising `IndexError`; `rsfmri/project.py:160` repeats it, so no seed list without a radius argument can be loaded | the line `s,1,2,3,4` with no radius argument | the fifth field `fields[4]`, converted by `float()`, is the radius, as `rsfmri/seed.py:38` reads it; the index alone would not do, since `'%d' %` of the unconverted string raises `TypeError` at `rsfmri/project.py:129` | not executed | Project.FiveFieldLineFatal | Seed.FiveFieldLineAccepted |
