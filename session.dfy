/** One scanning session of the newer package: where its preprocessed data
    lives, the checks made when it is opened, and the per-seed statistics
    gathered for it. */
module Session {
  import opened Wrappers
  import opened Strings
  import opened Paths
  import opened Errors

  /** The directory of the preprocessing output inside a session directory. */
  const RestprocDir: string := "restproc"

  /** `'rest_fwhm{}.nii.gz'.format(fwhm)`: the preprocessed residual volume. */
  function RestprocFile(fwhm: int): string
  {
    "rest_fwhm" + IntToDecimal(fwhm) + ".nii.gz"
  }

  /** `<parent_dir>/<session_id>`. */
  function SessionDir(parentDir: string, id: string): string
  {
    Join(parentDir, id)
  }

  /** `<dir>/restproc/rest_fwhm<fwhm>.nii.gz`. */
  function BoldPath(dir: string, fwhm: int): string
  {
    Join(Join(dir, RestprocDir), RestprocFile(fwhm))
  }

  /** The bold volume lies in the session's `restproc` directory, and two
      different smoothing widths name two different volumes. */
  lemma BoldPathForm(dir: string, fwhm1: int, fwhm2: int)
    ensures EndsWith(BoldPath(dir, fwhm1), RestprocFile(fwhm1))
    ensures BoldPath(dir, fwhm1)[..|Join(dir, RestprocDir)|] == Join(dir, RestprocDir)
    ensures fwhm1 != fwhm2 ==> BoldPath(dir, fwhm1) != BoldPath(dir, fwhm2)
  {
    var d := Join(dir, RestprocDir);
    var f1, f2 := RestprocFile(fwhm1), RestprocFile(fwhm2);
    assert f1[0] == 'r' && f2[0] == 'r';
    if fwhm1 != fwhm2 && BoldPath(dir, fwhm1) == BoldPath(dir, fwhm2) {
      JoinInjective(d, f1, f2);
      assert f1[9..|f1| - 7] == IntToDecimal(fwhm1);
      assert f2[9..|f2| - 7] == IntToDecimal(fwhm2);
      IntToDecimalInjective(fwhm1, fwhm2);
    }
  }

  /** `'{}'.format(i)` tells integers apart. */
  lemma IntToDecimalInjective(i: int, j: int)
    requires IntToDecimal(i) == IntToDecimal(j)
    ensures i == j
  {
    var s := IntToDecimal(i);
    if i < 0 {
      DecimalRoundTrip(-i);
      DecimalRoundTrip(-j);
    } else {
      DecimalRoundTrip(i);
      DecimalRoundTrip(j);
    }
  }

  /** The checks `__init__` makes: the directory first, then the bold file;
      either one missing ends the run. */
  function OpenCheck(dir: string, bold: string, isDir: string -> bool, isFile: string -> bool): (o: Outcome)
    ensures o.Done? <==> isDir(dir) && isFile(bold)
    ensures !isDir(dir) ==> o == Fatal(MissingDir(dir))
    ensures isDir(dir) && !isFile(bold) ==> o == Fatal(MissingFile(bold))
  {
    if !isDir(dir) then Fatal(MissingDir(dir))
    else if !isFile(bold) then Fatal(MissingFile(bold))
    else Done
  }

  /** One statistics record of a session: the seed it belongs to and the
      timecourse file extracted for it. */
  datatype Stats = Stats(seedName: string, fileTs: string)

  /** `{s.seed.name: s.file_ts for s in stats}` before the files are loaded:
      one column per seed name, a later record replacing an earlier one. */
  function Columns(stats: seq<Stats>): (m: map<string, string>)
    ensures forall name :: name in m <==> exists k :: 0 <= k < |stats| && stats[k].seedName == name
  {
    if stats == [] then map[]
    else
      var last := stats[|stats| - 1];
      var m := Columns(stats[..|stats| - 1]);
      assert forall k :: 0 <= k < |stats| - 1 ==> stats[..|stats| - 1][k] == stats[k];
      m[last.seedName := last.fileTs]
  }

  /** Index of the last record for `name`, or -1 if there is none. */
  function LastIndex(stats: seq<Stats>, name: string): (k: int)
    ensures -1 <= k < |stats|
    ensures k >= 0 ==> stats[k].seedName == name
    ensures forall j :: k < j < |stats| ==> stats[j].seedName != name
  {
    if stats == [] then -1
    else if stats[|stats| - 1].seedName == name then |stats| - 1
    else LastIndex(stats[..|stats| - 1], name)
  }

  /** Each seed's column is the timecourse of its last record. */
  lemma {:induction false} ColumnsLastWins(stats: seq<Stats>, name: string)
    requires name in Columns(stats)
    ensures LastIndex(stats, name) >= 0
    ensures Columns(stats)[name] == stats[LastIndex(stats, name)].fileTs
  {
    var init := stats[..|stats| - 1];
    if stats[|stats| - 1].seedName != name {
      ColumnsLastWins(init, name);
    }
  }

  /** A session as the newer package opens it. */
  class FCSession {
    const parentDir: string
    const id: string
    const dir: string
    const bold: string
    var stats: seq<Stats>

    constructor (id: string, parentDir: string, fwhm: int)
      ensures this.id == id && this.parentDir == parentDir
      ensures dir == SessionDir(parentDir, id) && bold == BoldPath(dir, fwhm)
      ensures stats == []
    {
      this.parentDir := parentDir;
      this.id := id;
      dir := SessionDir(parentDir, id);
      bold := BoldPath(SessionDir(parentDir, id), fwhm);
      stats := [];
    }

    /** `add_stats(stats)`: appends one record. */
    method AddStats(s: Stats)
      modifies this`stats
      ensures stats == old(stats) + [s]
    {
      stats := stats + [s];
    }

    /** The columns `timecourse()` loads. */
    function Timecourse(): (m: map<string, string>)
      reads this
      ensures forall name :: name in m <==> exists k :: 0 <= k < |stats| && stats[k].seedName == name
    {
      Columns(stats)
    }
  }

  /** `FCSession(session_id, parent_dir, fwhm)`: the session and the outcome of
      its checks; `isDir` and `isFile` stand for the file system. */
  method OpenSession(id: string, parentDir: string, fwhm: int, isDir: string -> bool, isFile: string -> bool)
    returns (s: FCSession, o: Outcome)
    ensures s.id == id && s.dir == SessionDir(parentDir, id) && s.bold == BoldPath(s.dir, fwhm)
    ensures s.stats == []
    ensures o == OpenCheck(s.dir, s.bold, isDir, isFile)
  {
    s := new FCSession(id, parentDir, fwhm);
    o := OpenCheck(s.dir, s.bold, isDir, isFile);
  }
}
