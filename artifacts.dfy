/** Where each analysis unit (one session paired with one seed) and each
    seed-level group step write their files. Every name is a pure function of
    the session id, the seed name and the stage, which is what keeps writers in
    one stage from ever touching the same file. */
module Artifacts {
  import opened Strings
  import opened Paths

  /** `'{}_{}'.format(session.id, seed_name)`: the unit's part of its file names. */
  function UnitStem(id: string, seed: string): string
  {
    id + "_" + seed
  }

  /** The timecourse `fslmeants` writes: `<dir_ts>/<id>_<seed>.1d`. */
  function TimecoursePath(dirTs: string, id: string, seed: string): (p: string)
    ensures EndsWith(p, ".1d")
  {
    Join(dirTs, UnitStem(id, seed) + ".1d")
  }

  /** The correlation map `3dTcorr1D` writes: `<dir_vols>/<id>_<seed>_pearson.nii.gz`. */
  function RMapPath(dirVols: string, id: string, seed: string): (p: string)
    ensures EndsWith(p, "_pearson.nii.gz")
  {
    Join(dirVols, UnitStem(id, seed) + "_pearson.nii.gz")
  }

  /** The z-map `volume_r2z` derives from a correlation map's name. */
  function ZMapPath(dirVols: string, id: string, seed: string): string
  {
    NiiGzToZ(RMapPath(dirVols, id, seed))
  }

  /** The snapshot image of one unit: `<dir_imgs>/<id>_<seed>_pearson_z_snapshot.png`. */
  function SnapshotPath(dirImgs: string, id: string, seed: string): (p: string)
    ensures EndsWith(p, ".png")
  {
    Join(dirImgs, UnitStem(id, seed) + "_pearson_z_snapshot.png")
  }

  /** The group mean z-map of a seed: `<dir>/<seed>_z_mean.nii.gz`. */
  function GroupMeanPath(dir: string, seed: string): (p: string)
    ensures EndsWith(p, "_z_mean.nii.gz")
  {
    Join(dir, seed + "_z_mean.nii.gz")
  }

  /** The output base `randomise` is given for a seed: `<dir>/<seed>`. */
  function RandomiseBase(dir: string, seed: string): (p: string)
    ensures EndsWith(p, seed)
  {
    Join(dir, seed)
  }

  /** The group snapshot of a seed: `<dir_grp_imgs>/<seed>_pearson_z_snapshot.png`. */
  function GroupSnapshotPath(dirGrpImgs: string, seed: string): (p: string)
    ensures EndsWith(p, ".png")
  {
    Join(dirGrpImgs, seed + "_pearson_z_snapshot.png")
  }

  /** `'%s_%dmm.nii.gz' % (name, radius)`, given the radius as `%d` prints it. */
  function SeedFileName(name: string, radiusDigits: string): (f: string)
    ensures EndsWith(f, "mm.nii.gz")
  {
    name + "_" + radiusDigits + "mm.nii.gz"
  }

  /** A seed's snapshot image: `<dir>/seed_<name>.png`. */
  function SeedSnapshotPath(dir: string, name: string): (p: string)
    ensures EndsWith(p, ".png")
  {
    Join(dir, "seed_" + name + ".png")
  }

  /** The CSV of the group mean correlation matrix. */
  function GroupMeanCsvPath(dirCsv: string): (p: string)
    ensures EndsWith(p, ".csv")
  {
    Join(dirCsv, "fc_pearson_group_mean.csv")
  }

  /** The CSV of one seed's correlations, one row per session. */
  function SeedCsvPath(dirCsv: string, seed: string): (p: string)
    ensures EndsWith(p, ".csv")
  {
    Join(dirCsv, "fc_pearson_" + seed + ".csv")
  }

  /** The z-map of a unit is the correlation map's path with `.nii.gz`
      replaced by `_z.nii.gz`; everything before it is unchanged. */
  lemma ZMapPathForm(dirVols: string, id: string, seed: string)
    ensures ZMapPath(dirVols, id, seed) == Join(dirVols, UnitStem(id, seed) + "_pearson_z.nii.gz")
  {
    var stem := UnitStem(id, seed) + "_pearson";
    assert UnitStem(id, seed) + "_pearson.nii.gz" == stem + ".nii.gz";
    assert UnitStem(id, seed) + "_pearson_z.nii.gz" == stem + "_z.nii.gz";
    JoinNiiGzToZ(dirVols, stem);
  }

  /** With an underscore-free session id, the id and the seed can be read back
      from `<id>_<seed>`: the first underscore separates them. */
  lemma StemInjectiveById(id1: string, seed1: string, id2: string, seed2: string)
    requires '_' !in id1 && '_' !in id2
    requires UnitStem(id1, seed1) == UnitStem(id2, seed2)
    ensures id1 == id2 && seed1 == seed2
  {
    var s := UnitStem(id1, seed1);
    assert s[|id1|] == '_' && s[|id2|] == '_';
    assert forall j :: 0 <= j < |id1| ==> s[j] != '_' by {
      forall j | 0 <= j < |id1| ensures s[j] != '_' { assert s[j] == id1[j]; }
    }
    assert forall j :: 0 <= j < |id2| ==> s[j] != '_' by {
      forall j | 0 <= j < |id2| ensures s[j] != '_' { assert s[j] == id2[j]; }
    }
    assert |id1| == |id2|;
    assert id1 == s[..|id1|] && id2 == s[..|id2|];
    assert seed1 == s[|id1| + 1..] && seed2 == s[|id2| + 1..];
  }

  /** With underscore-free seed names, the last underscore separates them. */
  lemma StemInjectiveBySeed(id1: string, seed1: string, id2: string, seed2: string)
    requires '_' !in seed1 && '_' !in seed2
    requires UnitStem(id1, seed1) == UnitStem(id2, seed2)
    ensures id1 == id2 && seed1 == seed2
  {
    var s := UnitStem(id1, seed1);
    var n := |s|;
    assert s[n - |seed1| - 1] == '_' && s[n - |seed2| - 1] == '_';
    assert forall j :: n - |seed1| <= j < n ==> s[j] != '_' by {
      forall j | n - |seed1| <= j < n ensures s[j] != '_' { assert s[j] == seed1[j - (n - |seed1|)]; }
    }
    assert forall j :: n - |seed2| <= j < n ==> s[j] != '_' by {
      var s2 := UnitStem(id2, seed2);
      forall j | n - |seed2| <= j < n ensures s[j] != '_' { assert s2[j] == seed2[j - (n - |seed2|)]; }
    }
    assert |seed1| == |seed2|;
    assert seed1 == s[n - |seed1|..] && seed2 == s[n - |seed2|..];
    assert id1 == s[..n - |seed1| - 1] && id2 == s[..n - |seed2| - 1];
  }

  /** The condition under which unit file names cannot collide: session ids are
      relative names, and either no session id or no seed name holds `_`. */
  predicate SeparableKeys(id1: string, seed1: string, id2: string, seed2: string)
  {
    Relative(id1) && Relative(id2)
    && (('_' !in id1 && '_' !in id2) || ('_' !in seed1 && '_' !in seed2))
  }

  lemma StemInjective(id1: string, seed1: string, id2: string, seed2: string)
    requires SeparableKeys(id1, seed1, id2, seed2)
    requires UnitStem(id1, seed1) == UnitStem(id2, seed2)
    ensures id1 == id2 && seed1 == seed2
  {
    if '_' !in id1 && '_' !in id2 {
      StemInjectiveById(id1, seed1, id2, seed2);
    } else {
      StemInjectiveBySeed(id1, seed1, id2, seed2);
    }
  }

  lemma SuffixCancel(a: string, b: string, suffix: string)
    requires a + suffix == b + suffix
    ensures a == b
  {
    assert a == (a + suffix)[..|a|];
    assert b == (b + suffix)[..|b|];
  }

  /** Two different analysis units never share an output file at any stage:
      timecourses, correlation maps, z-maps and snapshots are all keyed by
      (session id, seed name). */
  lemma UnitPathsDisjoint(dirTs: string, dirVols: string, dirImgs: string,
                          id1: string, seed1: string, id2: string, seed2: string)
    requires SeparableKeys(id1, seed1, id2, seed2)
    requires id1 != id2 || seed1 != seed2
    ensures TimecoursePath(dirTs, id1, seed1) != TimecoursePath(dirTs, id2, seed2)
    ensures RMapPath(dirVols, id1, seed1) != RMapPath(dirVols, id2, seed2)
    ensures ZMapPath(dirVols, id1, seed1) != ZMapPath(dirVols, id2, seed2)
    ensures SnapshotPath(dirImgs, id1, seed1) != SnapshotPath(dirImgs, id2, seed2)
  {
    var s1, s2 := UnitStem(id1, seed1), UnitStem(id2, seed2);
    assert Relative(s1) && Relative(s2);
    if s1 == s2 {
      StemInjective(id1, seed1, id2, seed2);
    }
    assert Relative(s1 + ".1d") && Relative(s2 + ".1d");
    if TimecoursePath(dirTs, id1, seed1) == TimecoursePath(dirTs, id2, seed2) {
      JoinInjective(dirTs, s1 + ".1d", s2 + ".1d");
      SuffixCancel(s1, s2, ".1d");
    }
    if RMapPath(dirVols, id1, seed1) == RMapPath(dirVols, id2, seed2) {
      JoinInjective(dirVols, s1 + "_pearson.nii.gz", s2 + "_pearson.nii.gz");
      SuffixCancel(s1, s2, "_pearson.nii.gz");
    }
    ZMapPathForm(dirVols, id1, seed1);
    ZMapPathForm(dirVols, id2, seed2);
    if ZMapPath(dirVols, id1, seed1) == ZMapPath(dirVols, id2, seed2) {
      JoinInjective(dirVols, s1 + "_pearson_z.nii.gz", s2 + "_pearson_z.nii.gz");
      SuffixCancel(s1, s2, "_pearson_z.nii.gz");
    }
    if SnapshotPath(dirImgs, id1, seed1) == SnapshotPath(dirImgs, id2, seed2) {
      JoinInjective(dirImgs, s1 + "_pearson_z_snapshot.png", s2 + "_pearson_z_snapshot.png");
      SuffixCancel(s1, s2, "_pearson_z_snapshot.png");
    }
  }

  /** Without the separability condition the names do collide: session `a_b`
      with seed `c` and session `a` with seed `b_c` share every file. */
  lemma UnitPathsCollide(dirTs: string)
    ensures TimecoursePath(dirTs, "a_b", "c") == TimecoursePath(dirTs, "a", "b_c")
  {
    assert UnitStem("a_b", "c") == UnitStem("a", "b_c");
  }

  /** The character `k` places from the end of a path is fixed by its suffix. */
  lemma EndChar(p: string, suffix: string, k: nat)
    requires EndsWith(p, suffix) && 1 <= k <= |suffix|
    ensures p[|p| - k] == suffix[|suffix| - k]
  {
    assert p[|p| - k] == p[|p| - |suffix|..][|suffix| - k];
  }

  lemma ZMapEnds(dirVols: string, id: string, seed: string)
    ensures EndsWith(ZMapPath(dirVols, id, seed), "_pearson_z.nii.gz")
  {
    ZMapPathForm(dirVols, id, seed);
    var z := ZMapPath(dirVols, id, seed);
    var name := UnitStem(id, seed) + "_pearson_z.nii.gz";
    assert EndsWith(z, name);
    assert z[|z| - 17..] == name[|name| - 17..];
  }

  /** Within and across units, the stages never write the same file: the four
      kinds of name end differently, whatever the directories, ids and seeds. */
  lemma StagePathsDistinct(dirTs: string, dirVols: string, dirImgs: string,
                           id1: string, seed1: string, id2: string, seed2: string)
    ensures TimecoursePath(dirTs, id1, seed1) != RMapPath(dirVols, id2, seed2)
    ensures TimecoursePath(dirTs, id1, seed1) != ZMapPath(dirVols, id2, seed2)
    ensures TimecoursePath(dirTs, id1, seed1) != SnapshotPath(dirImgs, id2, seed2)
    ensures RMapPath(dirVols, id1, seed1) != ZMapPath(dirVols, id2, seed2)
    ensures RMapPath(dirVols, id1, seed1) != SnapshotPath(dirImgs, id2, seed2)
    ensures ZMapPath(dirVols, id1, seed1) != SnapshotPath(dirImgs, id2, seed2)
  {
    var t := TimecoursePath(dirTs, id1, seed1);
    var r1 := RMapPath(dirVols, id1, seed1);
    var r2 := RMapPath(dirVols, id2, seed2);
    var z1 := ZMapPath(dirVols, id1, seed1);
    var z2 := ZMapPath(dirVols, id2, seed2);
    var p := SnapshotPath(dirImgs, id2, seed2);
    ZMapEnds(dirVols, id1, seed1);
    ZMapEnds(dirVols, id2, seed2);
    EndChar(t, ".1d", 1);
    EndChar(r1, "_pearson.nii.gz", 1);
    EndChar(r1, "_pearson.nii.gz", 8);
    EndChar(r2, "_pearson.nii.gz", 1);
    EndChar(z1, "_pearson_z.nii.gz", 1);
    EndChar(z2, "_pearson_z.nii.gz", 1);
    EndChar(z2, "_pearson_z.nii.gz", 8);
    EndChar(p, ".png", 1);
    EighthFromEnd();
  }

  /** Where a correlation map's name and a z-map's name first differ,
      counting from the end. */
  lemma EighthFromEnd()
    ensures "_pearson.nii.gz"[15 - 8] == 'n' && "_pearson_z.nii.gz"[17 - 8] == 'z'
  {
  }

  /** The per-seed files of one session, as the project's stages record them
      (`set_ts_file`, `set_rmap_file`, `set_zmap_file`). */
  class SessionFiles {
    const id: string
    const bold: string
    var tsFiles: map<string, string>
    var rmapFiles: map<string, string>
    var zmapFiles: map<string, string>

    constructor (id: string, bold: string)
      ensures this.id == id && this.bold == bold
      ensures tsFiles == map[] && rmapFiles == map[] && zmapFiles == map[]
    {
      this.id := id;
      this.bold := bold;
      tsFiles, rmapFiles, zmapFiles := map[], map[], map[];
    }
  }
}
