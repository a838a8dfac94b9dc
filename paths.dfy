/** The parts of Python 2's `posixpath` the project uses to place its files:
    `join`, `basename` and `relpath`, and the regular-expression rename that
    turns a correlation map's name into its z-map's name. */
module Paths {
  import opened Wrappers
  import opened Strings

  /** A path component that `join` keeps behind the directory: it does not
      start with a slash. */
  predicate Relative(p: string)
  {
    p == [] || p[0] != '/'
  }

  predicate EndsWith(s: string, suffix: string)
  {
    |suffix| <= |s| && s[|s| - |suffix|..] == suffix
  }

  /** `os.path.join(a, b)`: an absolute `b` replaces `a`; otherwise `b` is
      appended, with a slash unless `a` is empty or already ends in one. */
  function Join(a: string, b: string): (r: string)
    ensures EndsWith(r, b)
    ensures Relative(b) ==> |a| <= |r| && r[..|a|] == a
    ensures Relative(b) && a != [] ==> |r| > |b| && r[|r| - |b| - 1] == '/'
    ensures !Relative(b) ==> r == b
  {
    if !Relative(b) then b
    else if a == [] || a[|a| - 1] == '/' then a + b
    else a + "/" + b
  }

  /** Two names joined to the same directory give the same path only if they
      are the same name. */
  lemma JoinInjective(d: string, b1: string, b2: string)
    requires Relative(b1) && Relative(b2)
    requires Join(d, b1) == Join(d, b2)
    ensures b1 == b2
  {
    var r := Join(d, b1);
    if d == [] || d[|d| - 1] == '/' {
      assert b1 == r[|d|..] == b2;
    } else {
      assert b1 == r[|d| + 1..] == b2;
    }
  }

  /** Index just after the last slash of `p` (0 if there is none). */
  function AfterLastSlash(p: string): (i: nat)
    ensures i <= |p|
    ensures '/' !in p[i..]
    ensures i > 0 ==> p[i - 1] == '/'
  {
    if p == [] then 0
    else if p[|p| - 1] == '/' then |p|
    else
      var i := AfterLastSlash(p[..|p| - 1]);
      assert p[i..] == p[..|p| - 1][i..] + [p[|p| - 1]];
      i
  }

  /** `os.path.basename(p)`: the text after the last slash. */
  function Basename(p: string): (r: string)
    ensures '/' !in r
    ensures EndsWith(p, r)
    ensures |r| < |p| ==> p[|p| - |r| - 1] == '/'
  {
    p[AfterLastSlash(p)..]
  }

  /** A name without slashes, joined to a directory, has itself as basename:
      `basename` undoes `join`. */
  lemma BasenameOfJoin(d: string, name: string)
    requires '/' !in name
    ensures Basename(Join(d, name)) == name
  {
    var p := Join(d, name);
    var n := |p| - |name|;
    assert p[n..] == name;
    assert n > 0 ==> p[n - 1] == '/';
    var i := AfterLastSlash(p);
    assert forall j :: i <= j < |p| ==> p[j] != '/' by {
      forall j | i <= j < |p| ensures p[j] != '/' { assert p[j] == p[i..][j - i]; }
    }
    assert forall j :: n <= j < |p| ==> p[j] != '/' by {
      forall j | n <= j < |p| ensures p[j] != '/' { assert p[j] == name[j - n]; }
    }
  }

  /** A file already placed in a directory is its own destination: copying
      `join(d, basename(f))` back onto `f` is a no-op. */
  lemma JoinBasenameFixpoint(d: string, name: string)
    requires '/' !in name
    ensures Join(d, Basename(Join(d, name))) == Join(d, name)
  {
    BasenameOfJoin(d, name);
  }

  /** The non-empty components of a path, as `relpath` lists them. */
  function Components(p: string): (r: seq<string>)
    ensures forall k :: 0 <= k < |r| ==> r[k] != [] && '/' !in r[k]
  {
    SplitPieces(p, '/');
    NonEmptyKeeps(Split(p, '/'));
    NonEmpty(Split(p, '/'))
  }

  function NonEmpty(parts: seq<string>): (r: seq<string>)
    ensures forall k :: 0 <= k < |r| ==> r[k] != []
  {
    if parts == [] then []
    else if parts[0] == [] then NonEmpty(parts[1..])
    else [parts[0]] + NonEmpty(parts[1..])
  }

  /** Dropping the empty pieces keeps only pieces of the list. */
  lemma {:induction false} NonEmptyKeeps(parts: seq<string>)
    ensures forall k :: 0 <= k < |NonEmpty(parts)| ==> NonEmpty(parts)[k] in parts
  {
    if parts != [] {
      var x, rest := parts[0], parts[1..];
      NonEmptyKeeps(rest);
      assert parts == [x] + rest;
      NonEmptyCons(x, rest);
      var r, t := NonEmpty(parts), NonEmpty(rest);
      forall k | 0 <= k < |r|
        ensures r[k] in parts
      {
        if x == [] {
          assert r[k] == t[k];
        } else if k > 0 {
          assert r[k] == t[k - 1];
        }
      }
    }
  }

  lemma {:induction false} NonEmptyConcat(a: seq<string>, b: seq<string>)
    ensures NonEmpty(a + b) == NonEmpty(a) + NonEmpty(b)
  {
    if a != [] {
      var x, rest := a[0], a[1..];
      NonEmptyConcat(rest, b);
      assert NonEmpty(a) == if x == [] then NonEmpty(rest) else [x] + NonEmpty(rest) by {
        assert a == [x] + rest;
        NonEmptyCons(x, rest);
      }
      assert NonEmpty(a + b) == if x == [] then NonEmpty(rest + b) else [x] + NonEmpty(rest + b) by {
        assert a + b == [x] + (rest + b);
        NonEmptyCons(x, rest + b);
      }
      if x != [] {
        PrependAssoc(x, NonEmpty(rest), NonEmpty(b));
      }
    } else {
      assert a + b == b;
    }
  }

  lemma NonEmptyCons(x: string, rest: seq<string>)
    ensures NonEmpty([x] + rest) == if x == [] then NonEmpty(rest) else [x] + NonEmpty(rest)
  {
    assert ([x] + rest)[0] == x;
    assert ([x] + rest)[1..] == rest;
  }

  /** Length of the longest common prefix of two component lists
      (`os.path.commonprefix` on two lists). */
  function CommonPrefixLength(a: seq<string>, b: seq<string>): (n: nat)
    ensures n <= |a| && n <= |b| && a[..n] == b[..n]
    ensures n < |a| && n < |b| ==> a[n] != b[n]
  {
    if a == [] || b == [] || a[0] != b[0] then 0
    else 1 + CommonPrefixLength(a[1..], b[1..])
  }

  function Repeat(s: string, n: nat): (r: seq<string>)
    ensures |r| == n && forall k :: 0 <= k < n ==> r[k] == s
  {
    if n == 0 then [] else [s] + Repeat(s, n - 1)
  }

  /** `os.path.relpath(path, start)` for paths that are already absolute and
      normalised: climb out of what `start` does not share with `path`, then
      descend into the rest of `path`. An empty `path` raises an error. */
  function RelPath(path: string, start: string): (r: Option<string>)
    ensures r.None? <==> path == []
  {
    if path == [] then None
    else
      var s := Components(start);
      var p := Components(path);
      var i := CommonPrefixLength(s, p);
      var rel := Repeat("..", |s| - i) + p[i..];
      if rel == [] then Some(".") else Some(JoinWith(rel, '/'))
  }

  /** A relative path with no empty component (no leading, trailing or doubled
      slash). */
  predicate Clean(rel: string)
  {
    rel != [] && forall k :: 0 <= k < |Split(rel, '/')| ==> Split(rel, '/')[k] != []
  }

  /** A file placed under a directory is named, relative to that directory,
      by the part of the path that `join` appended. */
  lemma RelPathOfJoin(start: string, rel: string)
    requires Clean(rel) && Relative(rel)
    ensures RelPath(Join(start, rel), start) == Some(rel)
  {
    var path := Join(start, rel);
    var parts := Split(rel, '/');
    NonEmptyId(parts);
    ComponentsOfJoin(start, rel);
    var s := Components(start);
    var p := Components(path);
    assert p == s + parts;
    CommonPrefixOfExtension(s, parts);
    RelPathSuffix(path, s, parts);
    JoinSplit(rel, '/');
  }

  lemma RelPathSuffix(path: string, s: seq<string>, parts: seq<string>)
    requires path != [] && parts != []
    requires CommonPrefixLength(s, s + parts) == |s|
    ensures var rel := Repeat("..", |s| - |s|) + (s + parts)[|s|..];
            rel == parts
  {
    assert (s + parts)[|s|..] == parts;
  }

  lemma {:induction false} NonEmptyId(parts: seq<string>)
    requires forall k :: 0 <= k < |parts| ==> parts[k] != []
    ensures NonEmpty(parts) == parts
  {
    if parts != [] {
      NonEmptyId(parts[1..]);
      assert parts == [parts[0]] + parts[1..];
    }
  }

  lemma {:induction false} CommonPrefixOfExtension(s: seq<string>, t: seq<string>)
    requires t != []
    ensures CommonPrefixLength(s, s + t) == |s|
  {
    if s != [] {
      CommonPrefixOfExtension(s[1..], t);
      assert (s + t)[1..] == s[1..] + t;
    }
  }

  /** The components of `join(start, rel)` are those of `start` followed by
      those of `rel`. */
  lemma ComponentsOfJoin(start: string, rel: string)
    requires Relative(rel)
    ensures Components(Join(start, rel)) == Components(start) + Components(rel)
  {
    ComponentsOfEmpty();
    if start == [] {
      assert Join(start, rel) == rel;
      assert Components(start) + Components(rel) == Components(rel);
    } else if start[|start| - 1] == '/' {
      var s' := start[..|start| - 1];
      assert start == s' + ['/'] + [];
      assert Join(start, rel) == s' + ['/'] + rel;
      ComponentsAround(s', rel);
      ComponentsAround(s', []);
      assert Components(s') + [] == Components(s');
    } else {
      assert Join(start, rel) == start + ['/'] + rel;
      ComponentsAround(start, rel);
    }
  }

  lemma ComponentsOfEmpty()
    ensures Components([]) == []
  {
    assert Split([], '/') == [[]];
    assert NonEmpty([[]]) == NonEmpty([]);
  }

  /** A slash between two paths separates their components. */
  lemma ComponentsAround(x: string, y: string)
    ensures Components(x + ['/'] + y) == Components(x) + Components(y)
  {
    SplitConcat(x, y, '/');
    NonEmptyConcat(Split(x, '/'), Split(y, '/'));
  }

  /** Where `re.sub('.nii.gz$', ...)` finds its match in `s`: the regular
      expression's two dots match any character but a newline, and `$` matches
      at the end or just before a final newline. */
  predicate NiiGzAt(s: string, k: nat)
  {
    k + 7 <= |s| && s[k] != '\n' && s[k + 1..k + 4] == "nii" && s[k + 4] != '\n'
    && s[k + 5..k + 7] == "gz"
  }

  /** `re.sub('.nii.gz$', '_z.nii.gz', s)`. */
  function NiiGzToZ(s: string): (r: string)
    ensures |s| >= 7 && NiiGzAt(s, |s| - 7) ==> r == s[..|s| - 7] + "_z.nii.gz"
    ensures !(|s| >= 7 && NiiGzAt(s, |s| - 7)) && |s| >= 8 && s[|s| - 1] == '\n' && NiiGzAt(s, |s| - 8)
            ==> r == s[..|s| - 8] + "_z.nii.gz" + "\n"
    ensures !(|s| >= 7 && NiiGzAt(s, |s| - 7)) && !(|s| >= 8 && s[|s| - 1] == '\n' && NiiGzAt(s, |s| - 8))
            ==> r == s
  {
    if |s| >= 7 && NiiGzAt(s, |s| - 7) then s[..|s| - 7] + "_z.nii.gz"
    else if |s| >= 8 && s[|s| - 1] == '\n' && NiiGzAt(s, |s| - 8) then s[..|s| - 8] + "_z.nii.gz" + "\n"
    else s
  }

  /** A name ending in `.nii.gz` keeps everything before that ending and gets
      `_z.nii.gz` instead. */
  lemma NiiGzToZOfNiiGz(prefix: string)
    ensures NiiGzToZ(prefix + ".nii.gz") == prefix + "_z.nii.gz"
  {
    var s := prefix + ".nii.gz";
    assert s[|s| - 7..] == ".nii.gz";
    assert s[..|s| - 7] == prefix;
    assert NiiGzAt(s, |s| - 7);
  }

  /** The rename reaches through anything written before the name. */
  lemma NiiGzToZAfter(pre: string, stem: string)
    ensures NiiGzToZ(pre + (stem + ".nii.gz")) == pre + (stem + "_z.nii.gz")
  {
    assert pre + (stem + ".nii.gz") == (pre + stem) + ".nii.gz";
    assert pre + (stem + "_z.nii.gz") == (pre + stem) + "_z.nii.gz";
    NiiGzToZOfNiiGz(pre + stem);
  }

  /** Renaming a file joined to a directory renames the file and keeps the
      directory. */
  lemma JoinNiiGzToZ(d: string, stem: string)
    ensures NiiGzToZ(Join(d, stem + ".nii.gz")) == Join(d, stem + "_z.nii.gz")
  {
    var b := stem + ".nii.gz";
    var b' := stem + "_z.nii.gz";
    if stem == [] {
      assert Relative(b) && Relative(b');
    } else {
      assert b[0] == stem[0] == b'[0];
    }
    var pre := if !Relative(b) then [] else if d == [] || d[|d| - 1] == '/' then d else d + "/";
    assert Join(d, b) == pre + b;
    assert Join(d, b') == pre + b';
    NiiGzToZAfter(pre, stem);
  }

  /** A path that does not end in a NIfTI-gz style suffix is left alone. */
  lemma NiiGzToZIgnoresOthers(s: string)
    requires !EndsWith(s, "gz") && !EndsWith(s, "gz\n")
    ensures NiiGzToZ(s) == s
  {
  }
}
