/** The HTML reports of the newer package. Each report collects content and
    hands it, with its label, to a template; the templates themselves are not
    modelled, so rendering yields the template's name and the data given to
    it. */
module Reports {

  /** One entry of a report: `{'type': 'image', 'src': ..., 'label': ...}` or
      `{'type': 'text', 'text': ...}`. */
  datatype Item = Image(src: string, caption: string) | Text(text: string)  // `caption` is the entry's `label`

  /** What a template is rendered with. */
  datatype Content =
    | SeedSections(seeds: map<string, seq<Item>>)
    | Items(items: seq<Item>)
    | Reports(reports: seq<Page>)

  /** A rendered report: the template, the heading it shows and its content. */
  datatype Page = Page(template: string, heading: string, content: Content)

  /** `init_seed(seed)`: an unseen seed gets an empty section; a section that
      exists is kept as it is. */
  function WithSeed(m: map<string, seq<Item>>, seed: string): (r: map<string, seq<Item>>)
    ensures r.Keys == m.Keys + {seed}
    ensures seed in m ==> r == m
    ensures seed !in m ==> r[seed] == [] && forall s :: s in m ==> r[s] == m[s]
  {
    if seed in m then m else m[seed := []]
  }

  /** `add_img`/`add_txt`: the section of `seed`, created if needed, gets one
      more entry at its end; every other section is unchanged. */
  function Appended(m: map<string, seq<Item>>, seed: string, item: Item): (r: map<string, seq<Item>>)
    ensures r.Keys == m.Keys + {seed}
    ensures r[seed] == Section(m, seed) + [item]
    ensures forall s :: s in m && s != seed ==> r[s] == m[s]
  {
    var w := WithSeed(m, seed);
    w[seed := w[seed] + [item]]
  }

  /** The entries of `seed` so far (none for an unseen seed). */
  function Section(m: map<string, seq<Item>>, seed: string): seq<Item>
  {
    if seed in m then m[seed] else []
  }

  /** Creating a section twice is creating it once. */
  lemma WithSeedIdempotent(m: map<string, seq<Item>>, seed: string)
    ensures WithSeed(WithSeed(m, seed), seed) == WithSeed(m, seed)
  {
  }

  /** One call of `add_img` or `add_txt`. */
  datatype Entry = Entry(seed: string, item: Item)

  /** The sections after a series of calls, in call order. */
  function AddAll(m: map<string, seq<Item>>, es: seq<Entry>): map<string, seq<Item>>
  {
    if es == [] then m
    else
      var last := es[|es| - 1];
      Appended(AddAll(m, es[..|es| - 1]), last.seed, last.item)
  }

  /** The items of the calls for `seed`, in call order. */
  function ItemsFor(es: seq<Entry>, seed: string): seq<Item>
  {
    if es == [] then []
    else ItemsFor(es[..|es| - 1], seed) + (if es[|es| - 1].seed == seed then [es[|es| - 1].item] else [])
  }

  /** Content is append-only and keeps insertion order: after any series of
      calls, a seed has a section exactly when it had one or was named by a
      call, and that section is its old entries followed by the items of the
      calls for it, in the order of the calls. */
  lemma AddAllInOrder(m: map<string, seq<Item>>, es: seq<Entry>, seed: string)
    ensures seed in AddAll(m, es) <==> seed in m || exists k :: 0 <= k < |es| && es[k].seed == seed
    ensures Section(AddAll(m, es), seed) == Section(m, seed) + ItemsFor(es, seed)
  {
    AddAllKeys(m, es, seed);
    AddAllSection(m, es, seed);
  }

  lemma {:induction false} AddAllKeys(m: map<string, seq<Item>>, es: seq<Entry>, seed: string)
    ensures seed in AddAll(m, es) <==> seed in m || exists k :: 0 <= k < |es| && es[k].seed == seed
  {
    if es != [] {
      var init := es[..|es| - 1];
      var last := es[|es| - 1];
      AddAllKeys(m, init, seed);
      if last.seed != seed {
        if exists k :: 0 <= k < |es| && es[k].seed == seed {
          var k :| 0 <= k < |es| && es[k].seed == seed;
          assert init[k].seed == seed;
        }
      } else {
        assert es[|es| - 1].seed == seed;
      }
    }
  }

  lemma {:induction false} AddAllSection(m: map<string, seq<Item>>, es: seq<Entry>, seed: string)
    ensures Section(AddAll(m, es), seed) == Section(m, seed) + ItemsFor(es, seed)
  {
    if es != [] {
      var init := es[..|es| - 1];
      var last := es[|es| - 1];
      AddAllSection(m, init, seed);
      if last.seed == seed {
        assert Section(m, seed) + ItemsFor(init, seed) + [last.item]
               == Section(m, seed) + (ItemsFor(init, seed) + [last.item]);
      } else {
        assert ItemsFor(init, seed) + [] == ItemsFor(init, seed);
      }
    }
  }

  /** `FCReportGroupSeeds`: one section of entries per seed. */
  class FCReportGroupSeeds {
    const heading: string
    const template: string
    var seeds: map<string, seq<Item>>

    constructor ()
      ensures heading == "Seeds" && template == "seeds.html" && seeds == map[]
    {
      heading := "Seeds";
      template := "seeds.html";
      seeds := map[];
    }

    method InitSeed(seed: string)
      modifies this`seeds
      ensures seeds == WithSeed(old(seeds), seed)
    {
      if seed !in seeds {
        seeds := seeds[seed := []];
      }
    }

    method AddImg(seed: string, src: string, caption: string)
      modifies this`seeds
      ensures seeds == Appended(old(seeds), seed, Image(src, caption))
    {
      InitSeed(seed);
      seeds := seeds[seed := seeds[seed] + [Image(src, caption)]];
    }

    method AddTxt(seed: string, text: string)
      modifies this`seeds
      ensures seeds == Appended(old(seeds), seed, Text(text))
    {
      InitSeed(seed);
      seeds := seeds[seed := seeds[seed] + [Text(text)]];
    }

    function Render(): Page
      reads this
    {
      Page(template, heading, SeedSections(seeds))
    }
  }

  /** `FCReportGroupSummary`: one list of entries. */
  class FCReportGroupSummary {
    const heading: string
    const template: string
    var items: seq<Item>

    constructor ()
      ensures heading == "Group-level Summary" && template == "summary.html" && items == []
    {
      heading := "Group-level Summary";
      template := "summary.html";
      items := [];
    }

    method AddImg(src: string, caption: string)
      modifies this`items
      ensures items == old(items) + [Image(src, caption)]
    {
      items := items + [Image(src, caption)];
    }

    method AddTxt(text: string)
      modifies this`items
      ensures items == old(items) + [Text(text)]
    {
      items := items + [Text(text)];
    }

    function Render(): Page
      reads this
    {
      Page(template, heading, Items(items))
    }
  }

  /** A sub-report as `FCReport` holds it: a reference, so content added to
      the sub-report after `add_report` still shows when the whole is
      rendered. Only the two group reports are sub-reports here; the source
      accepts anything with a `render()` method. */
  datatype SubReport = OfSeeds(seedsReport: FCReportGroupSeeds) | OfSummary(summaryReport: FCReportGroupSummary)

  function Target(r: SubReport): object
  {
    match r
    case OfSeeds(s) => s
    case OfSummary(s) => s
  }

  function RenderSub(r: SubReport): Page
    reads Target(r)
  {
    match r
    case OfSeeds(s) => s.Render()
    case OfSummary(s) => s.Render()
  }

  /** `FCReport(title)`: the sub-reports in the order they were added. In
      all three classes `heading` is the report's `label`. */
  class FCReport {
    const heading: string
    const template: string
    var reports: seq<SubReport>

    constructor (title: string)
      ensures heading == title && template == "report.html" && reports == []
    {
      heading := title;
      template := "report.html";
      reports := [];
    }

    method AddReport(r: SubReport)
      modifies this`reports
      ensures reports == old(reports) + [r]
    {
      reports := reports + [r];
    }

    /** `render()`: every sub-report rendered once, in the order added, then
        the whole. */
    method Render() returns (p: Page)
      ensures p.template == template && p.heading == heading && p.content.Reports?
      ensures |p.content.reports| == |reports|
      ensures forall k :: 0 <= k < |reports| ==> p.content.reports[k] == RenderSub(reports[k])
    {
      var pages: seq<Page> := [];
      var i := 0;
      while i < |reports|
        invariant 0 <= i <= |reports|
        invariant |pages| == i
        invariant forall k :: 0 <= k < i ==> pages[k] == RenderSub(reports[k])
      {
        pages := pages + [RenderSub(reports[i])];
        i := i + 1;
      }
      p := Page(template, heading, Reports(pages));
    }
  }
}
