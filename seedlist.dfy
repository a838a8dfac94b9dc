/** The line-by-line scan shared by the three seed-list loaders: every line is
    either skipped (too few fields; a warning carrying its 1-based line
    number), accepted (it yields one item) or fatal (the run stops there, and
    the items of earlier lines have already been produced). What a line means
    is decided by each loader; this module fixes how the verdicts add up. */
module SeedList {
  import opened Wrappers
  import opened Errors

  datatype Verdict<S> = Skip | Accept(item: S) | Stop(error: Error)

  /** What a scan has produced so far: the items in line order, the line
      numbers of the skipped lines, and the fatal error if one was met. */
  datatype Scan<S> = Scan(items: seq<S>, warnings: seq<nat>, fatal: Option<Error>)

  /** One more line, numbered `line`, after `prev`. Nothing happens once the
      scan has stopped. */
  function Step<S>(prev: Scan<S>, v: Verdict<S>, line: nat): Scan<S>
  {
    if prev.fatal.Some? then prev
    else match v
      case Skip => prev.(warnings := prev.warnings + [line])
      case Accept(x) => prev.(items := prev.items + [x])
      case Stop(e) => prev.(fatal := Some(e))
  }

  /** The scan of the verdicts of a file's lines, the way a loop over the
      lines builds it: line `i` (0-based) is reported as `i + 1`. */
  function ScanLines<S>(vs: seq<Verdict<S>>): Scan<S>
  {
    if vs == [] then Scan([], [], None)
    else Step(ScanLines(vs[..|vs| - 1]), vs[|vs| - 1], |vs|)
  }

  /** Index of the first fatal line, or the number of lines if none is. */
  function FirstStop<S>(vs: seq<Verdict<S>>): (n: nat)
    ensures n <= |vs|
    ensures forall k :: 0 <= k < n ==> !vs[k].Stop?
    ensures n < |vs| ==> vs[n].Stop?
  {
    if vs == [] then 0
    else if vs[0].Stop? then 0
    else 1 + FirstStop(vs[1..])
  }

  /** The items of the accepted lines, in order. */
  function Accepted<S>(vs: seq<Verdict<S>>): seq<S>
  {
    if vs == [] then []
    else if vs[0].Accept? then [vs[0].item] + Accepted(vs[1..])
    else Accepted(vs[1..])
  }

  /** The numbers of the skipped lines, the first line being `first`. */
  function Skipped<S>(vs: seq<Verdict<S>>, first: nat): seq<nat>
  {
    if vs == [] then []
    else if vs[0].Skip? then [first] + Skipped(vs[1..], first + 1)
    else Skipped(vs[1..], first + 1)
  }

  lemma {:induction false} AcceptedSnoc<S>(vs: seq<Verdict<S>>, v: Verdict<S>)
    ensures Accepted(vs + [v]) == Accepted(vs) + (if v.Accept? then [v.item] else [])
  {
    if vs != [] {
      AcceptedSnoc(vs[1..], v);
      assert (vs + [v])[1..] == vs[1..] + [v];
    } else {
      assert [] + [v] == [v];
    }
  }

  lemma {:induction false} SkippedSnoc<S>(vs: seq<Verdict<S>>, v: Verdict<S>, first: nat)
    ensures Skipped(vs + [v], first) == Skipped(vs, first) + (if v.Skip? then [first + |vs|] else [])
  {
    if vs != [] {
      SkippedSnoc(vs[1..], v, first + 1);
      assert (vs + [v])[1..] == vs[1..] + [v];
    } else {
      assert [] + [v] == [v];
    }
  }

  /** The scan, stated independently of the loop: the run stops at the first
      fatal line with its error; before it, the accepted lines' items are
      produced in file order and every skipped line is reported by its
      1-based number. */
  lemma {:induction false} ScanLinesSpec<S>(vs: seq<Verdict<S>>)
    ensures var n := FirstStop(vs);
            var r := ScanLines(vs);
            r.items == Accepted(vs[..n])
            && r.warnings == Skipped(vs[..n], 1)
            && r.fatal == (if n < |vs| then Some(vs[n].error) else None)
  {
    if vs != [] {
      var init := vs[..|vs| - 1];
      var last := vs[|vs| - 1];
      ScanLinesSpec(init);
      FirstStopSnoc(init, last);
      assert vs == init + [last];
      var n := FirstStop(init);
      if n == |init| {
        assert init[..n] == init;
        AcceptedSnoc(init, last);
        SkippedSnoc(init, last, 1);
        if !last.Stop? {
          assert vs[..|vs|] == init + [last];
        } else {
          assert vs[..n] == init;
        }
      } else {
        assert vs[..n] == init[..n];
      }
    }
  }

  lemma {:induction false} FirstStopSnoc<S>(vs: seq<Verdict<S>>, v: Verdict<S>)
    ensures FirstStop(vs) < |vs| ==> FirstStop(vs + [v]) == FirstStop(vs)
    ensures FirstStop(vs) == |vs| ==> FirstStop(vs + [v]) == |vs| + (if v.Stop? then 0 else 1)
  {
    if vs != [] {
      FirstStopSnoc(vs[1..], v);
      assert (vs + [v])[1..] == vs[1..] + [v];
    } else {
      assert [] + [v] == [v];
    }
  }

  /** Every warning is the number of a skipped line. */
  lemma {:induction false} SkippedSound<S>(vs: seq<Verdict<S>>, first: nat)
    ensures forall j :: 0 <= j < |Skipped(vs, first)| ==>
              first <= Skipped(vs, first)[j] < first + |vs| && vs[Skipped(vs, first)[j] - first].Skip?
  {
    if vs != [] {
      SkippedSound(vs[1..], first + 1);
      var rest := Skipped(vs[1..], first + 1);
      var r := Skipped(vs, first);
      assert r == (if vs[0].Skip? then [first] else []) + rest;
      forall j | 0 <= j < |rest|
        ensures first < rest[j] < first + |vs| && vs[rest[j] - first].Skip?
      {
        assert vs[rest[j] - first] == vs[1..][rest[j] - (first + 1)];
      }
    }
  }

  /** Every skipped line is reported. */
  lemma {:induction false} SkippedComplete<S>(vs: seq<Verdict<S>>, first: nat)
    ensures forall k :: 0 <= k < |vs| && vs[k].Skip? ==> first + k in Skipped(vs, first)
  {
    if vs != [] {
      SkippedComplete(vs[1..], first + 1);
      var rest := Skipped(vs[1..], first + 1);
      var r := Skipped(vs, first);
      assert r == (if vs[0].Skip? then [first] else []) + rest;
      forall k | 1 <= k < |vs| && vs[k].Skip?
        ensures first + k in r
      {
        assert vs[1..][k - 1] == vs[k];
        assert first + 1 + (k - 1) in rest;
      }
    }
  }

  /** A skipped line before the first fatal one is warned about by its
      1-based number. */
  lemma SkipWarned<S>(vs: seq<Verdict<S>>, k: nat)
    requires k < FirstStop(vs) && vs[k].Skip?
    ensures k + 1 in ScanLines(vs).warnings
  {
    var n := FirstStop(vs);
    ScanLinesSpec(vs);
    SkippedComplete(vs[..n], 1);
    assert vs[..n][k].Skip?;
  }

  /** The warnings come in increasing line order. */
  lemma {:induction false} SkippedIncreasing<S>(vs: seq<Verdict<S>>, first: nat)
    ensures forall j, k :: 0 <= j < k < |Skipped(vs, first)| ==> Skipped(vs, first)[j] < Skipped(vs, first)[k]
  {
    if vs != [] {
      SkippedIncreasing(vs[1..], first + 1);
      SkippedSound(vs[1..], first + 1);
      var rest := Skipped(vs[1..], first + 1);
      var r := Skipped(vs, first);
      assert r == (if vs[0].Skip? then [first] else []) + rest;
    }
  }

  /** Without a fatal line, every line either yields an item or a warning. */
  lemma {:induction false} EveryLineAccounted<S>(vs: seq<Verdict<S>>, first: nat)
    requires forall k :: 0 <= k < |vs| ==> !vs[k].Stop?
    ensures |Accepted(vs)| + |Skipped(vs, first)| == |vs|
  {
    if vs != [] {
      EveryLineAccounted(vs[1..], first + 1);
    }
  }

  /** Once a prefix of the lines has stopped the scan, the later lines change
      nothing: the loop may leave at the fatal line. */
  lemma {:induction false} ScanStopped<S>(vs: seq<Verdict<S>>, i: nat)
    requires i <= |vs| && ScanLines(vs[..i]).fatal.Some?
    ensures ScanLines(vs) == ScanLines(vs[..i])
    decreases |vs| - i
  {
    if i < |vs| {
      assert vs[..i + 1][..i] == vs[..i];
      assert ScanLines(vs[..i + 1]) == ScanLines(vs[..i]);
      ScanStopped(vs, i + 1);
    } else {
      assert vs[..i] == vs;
    }
  }

  /** The scan of one more line is one more `Step`. */
  lemma ScanLinesNext<S>(vs: seq<Verdict<S>>, i: nat)
    requires i < |vs|
    ensures ScanLines(vs[..i + 1]) == Step(ScanLines(vs[..i]), vs[i], i + 1)
  {
    assert vs[..i + 1][..i] == vs[..i];
  }

  /** A line yields at most one item. */
  lemma {:induction false} AcceptedBound<S>(vs: seq<Verdict<S>>)
    ensures |Accepted(vs)| <= |vs|
  {
    if vs != [] {
      AcceptedBound(vs[1..]);
    }
  }

  /** Every warning of a scan names a skipped line, in increasing order. */
  lemma WarningsSkipped<S>(vs: seq<Verdict<S>>)
    ensures forall j :: 0 <= j < |ScanLines(vs).warnings| ==>
              1 <= ScanLines(vs).warnings[j] <= |vs| && vs[ScanLines(vs).warnings[j] - 1].Skip?
    ensures forall j, j' :: 0 <= j < j' < |ScanLines(vs).warnings| ==>
              ScanLines(vs).warnings[j] < ScanLines(vs).warnings[j']
  {
    ScanLinesSpec(vs);
    var n := FirstStop(vs);
    var pre := vs[..n];
    SkippedSound(pre, 1);
    SkippedIncreasing(pre, 1);
    var w := ScanLines(vs).warnings;
    forall j | 0 <= j < |w|
      ensures 1 <= w[j] <= |vs| && vs[w[j] - 1].Skip?
    {
      assert pre[w[j] - 1].Skip?;
    }
  }
}
