/** One run of the generator (`main`): filter, sort and prepare the
    catalogue, then write the notebooks, the R Markdown files and the
    overview, stopping at the first error. */
module Pipeline {
  import opened Wrappers
  import opened Text
  import opened Catalogue
  import opened Filtering
  import opened Codebook
  import opened Render
  import opened Overview

  /** The three template files' contents. */
  datatype Templates = Templates(python: string, rMarkdown: string, header: string)

  /** What a run leaves behind: the files written before it stopped, the
      overview when it got that far, and the error that stopped it. */
  datatype Run = Run(notebooks: seq<NotebookFile>, rMarkdowns: seq<TextFile>, overview: Option<string>,
                     failure: Option<Error>)

  /** The rows the overview is built from. */
  function DatasetsOf(rows: seq<Prepared>): (ds: seq<Dataset>)
    ensures |ds| == |rows| && forall i :: 0 <= i < |rows| ==> ds[i] == rows[i].dataset
  {
    seq(|rows|, i requires 0 <= i < |rows| => rows[i].dataset)
  }

  /** The run as a value. `today` and `now` are the two clock readings (the
      date for the R Markdown files, the date and time for the header);
      `parse` is `json.loads`. */
  function Generate(cfg: Config, catalogue: Frame, t: Templates, today: string, now: string,
                    parse: string -> Option<Notebook>): Run
  {
    match SortData(FilterCsv(catalogue))
    case Err(e) => Run([], [], None, Some(e))
    case Ok(sorted) =>
      match PrepareFrame(cfg, sorted)
      case Err(e) => Run([], [], None, Some(e))
      case Ok(rows) =>
        var (notebooks, nbFailure) := NotebookRun(cfg, t.python, rows, parse);
        if nbFailure.Some? then Run(notebooks, [], None, nbFailure)
        else
          var (rmds, rFailure) := RMarkdownRun(cfg, t.rMarkdown, today, rows);
          if rFailure.Some? then Run(notebooks, rmds, None, rFailure)
          else Run(notebooks, rmds, Some(Concat(OverviewLines(cfg, t.header, now, DatasetsOf(rows)))), None)
  }

  /** `main`: the stages run one after the other. */
  method RunGenerator(cfg: Config, catalogue: Frame, t: Templates, today: string, now: string,
                      parse: string -> Option<Notebook>) returns (run: Run)
    ensures run == Generate(cfg, catalogue, t, today, now, parse)
  {
    var sorted := SortData(FilterCsv(catalogue));
    if sorted.Err? {
      return Run([], [], None, Some(sorted.error));
    }
    var datasets := PrepareData(cfg, sorted.value);
    if datasets.Err? {
      return Run([], [], None, Some(datasets.error));
    }
    var rows := datasets.value;
    var notebooks, nbFailure := CreatePythonNotebooks(cfg, t.python, rows, parse);
    if nbFailure.Some? {
      return Run(notebooks, [], None, nbFailure);
    }
    var rmds, rFailure := CreateRMarkdowns(cfg, t.rMarkdown, today, rows);
    if rFailure.Some? {
      return Run(notebooks, rmds, None, rFailure);
    }
    var mdDoc, doc := CreateOverview(cfg, t.header, now, DatasetsOf(rows));
    return Run(notebooks, rmds, Some(doc), None);
  }

  /** `ds` is input row `r` with its non-CSV distributions dropped and the
      line breaks of its descriptions collapsed, every other field as it was. */
  predicate DerivedFrom(ds: Dataset, r: Dataset)
  {
    && ds.(distribution := r.distribution) == r
    && |ds.distribution| == |CsvOnly(r.distribution)|
    && forall k :: 0 <= k < |ds.distribution| ==> ds.distribution[k] == CleanDistribution(CsvOnly(r.distribution)[k])
  }

  /** A kept row, once prepared, offers CSV distributions only, at least
      one, with a block and a link for each, and comes from an input row. */
  lemma PreparedKeptRow(cfg: Config, catalogue: Frame, s: Dataset)
    requires s in KeptRows(catalogue.rows)
    ensures var p := PrepareRow(cfg, s);
      && CsvDataset(p.dataset)
      && |p.distributions| == |p.distributionLinks| == |p.dataset.distribution|
      && exists j :: 0 <= j < |catalogue.rows| && DerivedFrom(p.dataset, catalogue.rows[j])
  {
    var kept := KeptRows(catalogue.rows);
    FilterCsvOnlyCsv(catalogue.rows);
    FilterCsvFromInput(catalogue.rows);
    var k :| 0 <= k < |kept| && kept[k] == s;
    assert CsvDataset(s);
    var j :| 0 <= j < |catalogue.rows| && StripAll(catalogue.rows)[j] == s;
    PreparedStripped(cfg, catalogue.rows[j]);
  }

  lemma PreparedStripped(cfg: Config, r: Dataset)
    requires CsvDataset(Strip(r))
    ensures var p := PrepareRow(cfg, Strip(r));
      && CsvDataset(p.dataset)
      && |p.distributions| == |p.distributionLinks| == |p.dataset.distribution|
      && DerivedFrom(p.dataset, r)
  {
    var s := Strip(r);
    PrepareRowAligned(cfg, s);
    CleanKeepsCsv(s.distribution);
  }

  /** The datasets of the kept rows, each prepared on its own. */
  function PreparedDatasets(cfg: Config, rows: seq<Dataset>): (r: seq<Dataset>)
    ensures |r| == |rows| && forall i :: 0 <= i < |rows| ==> r[i] == PrepareRow(cfg, rows[i]).dataset
  {
    seq(|rows|, i requires 0 <= i < |rows| => PrepareRow(cfg, rows[i]).dataset)
  }

  lemma PreparedDatasetsAppend(cfg: Config, u: seq<Dataset>, v: seq<Dataset>)
    ensures PreparedDatasets(cfg, u + v) == PreparedDatasets(cfg, u) + PreparedDatasets(cfg, v)
  {
    assert forall i :: 0 <= i < |u + v| ==> (u + v)[i] == if i < |u| then u[i] else v[i - |u|];
  }

  /** Preparing rows one by one does not care about their order: rows that
      are a permutation of each other give datasets that are. */
  lemma {:induction false} PreparedDatasetsPermutation(cfg: Config, a: seq<Dataset>, b: seq<Dataset>)
    requires multiset(a) == multiset(b)
    ensures multiset(PreparedDatasets(cfg, a)) == multiset(PreparedDatasets(cfg, b))
    decreases |a|
  {
    if a == [] {
      assert |b| == |multiset(b)| == 0;
    } else {
      var x := a[0];
      assert x in multiset(b);
      var j :| 0 <= j < |b| && b[j] == x;
      var rest := b[..j] + b[j + 1..];
      assert b == b[..j] + [x] + b[j + 1..];
      assert a == [x] + a[1..];
      RemoveOne(a, b, j);
      PreparedDatasetsPermutation(cfg, a[1..], rest);
      PreparedDatasetsAppend(cfg, [x], a[1..]);
      PreparedDatasetsAppend(cfg, b[..j] + [x], b[j + 1..]);
      PreparedDatasetsAppend(cfg, b[..j], [x]);
      PreparedDatasetsAppend(cfg, b[..j], b[j + 1..]);
    }
  }

  lemma RemoveOne(a: seq<Dataset>, b: seq<Dataset>, j: nat)
    requires a != [] && j < |b| && b[j] == a[0] && multiset(a) == multiset(b)
    ensures multiset(a[1..]) == multiset(b[..j] + b[j + 1..])
  {
    assert a == [a[0]] + a[1..];
    assert b == b[..j] + [b[j]] + b[j + 1..];
    var m, n := multiset(a[1..]), multiset(b[..j] + b[j + 1..]);
    assert multiset(a) == multiset{a[0]} + m;
    assert multiset(b) == multiset{a[0]} + n;
    forall y ensures m[y] == n[y] {
      assert (multiset{a[0]} + m)[y] == (multiset{a[0]} + n)[y];
    }
  }

  /** The datasets of a run's prepared rows: the kept rows, each prepared,
      reordered by `id_short`; each is an input row with only its CSV
      distributions left, offering at least one, with a block and a link
      for each. */
  lemma PreparedRowsOfCatalogue(cfg: Config, catalogue: Frame)
    requires SortData(FilterCsv(catalogue)).Ok?
    requires PrepareFrame(cfg, SortData(FilterCsv(catalogue)).value).Ok?
    ensures var rows := PrepareFrame(cfg, SortData(FilterCsv(catalogue)).value).value;
      && multiset(DatasetsOf(rows)) == multiset(PreparedDatasets(cfg, KeptRows(catalogue.rows)))
      && |rows| == |KeptRows(catalogue.rows)|
      && SortedByIdShort(DatasetsOf(rows))
      && (forall i :: 0 <= i < |rows| ==> CsvDataset(rows[i].dataset))
      && (forall i :: 0 <= i < |rows| ==> |rows[i].distributions| == |rows[i].distributionLinks|)
      && (forall i :: 0 <= i < |rows| ==>
            exists j :: 0 <= j < |catalogue.rows| && DerivedFrom(rows[i].dataset, catalogue.rows[j]))
  {
    var sorted := SortData(FilterCsv(catalogue)).value;
    var rows := PrepareFrame(cfg, sorted).value;
    assert |rows| == |sorted.rows|;
    assert forall i :: 0 <= i < |rows| ==> rows[i] == PrepareRow(cfg, sorted.rows[i]);
    PreparedSortedRows(cfg, catalogue, sorted.rows, rows);
  }

  lemma PreparedSortedRows(cfg: Config, catalogue: Frame, sorted: seq<Dataset>, rows: seq<Prepared>)
    requires multiset(sorted) == multiset(KeptRows(catalogue.rows)) && SortedByIdShort(sorted)
    requires |rows| == |sorted| && forall i :: 0 <= i < |rows| ==> rows[i] == PrepareRow(cfg, sorted[i])
    ensures multiset(DatasetsOf(rows)) == multiset(PreparedDatasets(cfg, KeptRows(catalogue.rows)))
    ensures |rows| == |KeptRows(catalogue.rows)|
    ensures SortedByIdShort(DatasetsOf(rows))
    ensures forall i :: 0 <= i < |rows| ==> CsvDataset(rows[i].dataset)
    ensures forall i :: 0 <= i < |rows| ==> |rows[i].distributions| == |rows[i].distributionLinks|
    ensures forall i :: 0 <= i < |rows| ==>
      exists j :: 0 <= j < |catalogue.rows| && DerivedFrom(rows[i].dataset, catalogue.rows[j])
  {
    var kept := KeptRows(catalogue.rows);
    assert |sorted| == |kept| by {
      assert |multiset(sorted)| == |multiset(kept)|;
    }
    forall i | 0 <= i < |rows|
      ensures CsvDataset(rows[i].dataset)
      ensures |rows[i].distributions| == |rows[i].distributionLinks|
      ensures exists j :: 0 <= j < |catalogue.rows| && DerivedFrom(rows[i].dataset, catalogue.rows[j])
    {
      assert sorted[i] in multiset(kept);
      PreparedKeptRow(cfg, catalogue, sorted[i]);
    }
    var ds := DatasetsOf(rows);
    forall a, b | 0 <= a < b < |rows| ensures IdShort(ds[a]) <= IdShort(ds[b]) {
      assert ds[a].identifier == sorted[a].identifier && ds[b].identifier == sorted[b].identifier;
      assert IdShort(ds[a]) == IdShort(sorted[a]) && IdShort(ds[b]) == IdShort(sorted[b]);
    }
    assert ds == PreparedDatasets(cfg, sorted);
    PreparedDatasetsPermutation(cfg, sorted, kept);
  }

  /** Cleaning the descriptions keeps every CSV distribution a CSV one. */
  lemma CleanKeepsCsv(dists: seq<Distribution>)
    requires forall j :: 0 <= j < |dists| ==> IsCsv(dists[j])
    ensures forall j :: 0 <= j < |dists| ==> IsCsv(CleanDistribution(dists[j]))
  {
    forall j | 0 <= j < |dists| ensures IsCsv(CleanDistribution(dists[j])) {
      assert Get(CleanDistribution(dists[j]), "format", "") == Get(dists[j], "format", "");
    }
  }

  /** A run that gets through sorting and preparing, with every row's
      notebook text parsing, completes: the notebook and R Markdown loops
      finish, one `.Rmd` per kept dataset, at most one notebook per kept
      dataset, and the overview lists the prepared datasets, which are the
      kept rows, each prepared, in `id_short` order. */
  lemma {:induction false} GenerateCompletes(cfg: Config, catalogue: Frame, t: Templates, today: string, now: string,
                                             parse: string -> Option<Notebook>)
    requires SortData(FilterCsv(catalogue)).Ok?
    requires PrepareFrame(cfg, SortData(FilterCsv(catalogue)).value).Ok?
    requires var rows := PrepareFrame(cfg, SortData(FilterCsv(catalogue)).value).value;
      forall i :: 0 <= i < |rows| ==> parse(NotebookText(cfg, t.python, rows[i])).Some?
    ensures var rows := PrepareFrame(cfg, SortData(FilterCsv(catalogue)).value).value;
      var run := Generate(cfg, catalogue, t, today, now, parse);
      && run.failure.None?
      && run.notebooks == NotebookRun(cfg, t.python, rows, parse).0
      && run.rMarkdowns == RMarkdownRun(cfg, t.rMarkdown, today, rows).0
      && |run.rMarkdowns| == |KeptRows(catalogue.rows)|
      && |run.notebooks| <= |KeptRows(catalogue.rows)|
      && run.overview == Some(Concat(OverviewLines(cfg, t.header, now, DatasetsOf(rows))))
      && multiset(DatasetsOf(rows)) == multiset(PreparedDatasets(cfg, KeptRows(catalogue.rows)))
      && SortedByIdShort(DatasetsOf(rows))
  {
    var sorted := SortData(FilterCsv(catalogue)).value;
    var rows := PrepareFrame(cfg, sorted).value;
    PreparedRowsOfCatalogue(cfg, catalogue);
    AlignedRowsRun(cfg, t, today, rows, parse);
    assert Generate(cfg, catalogue, t, today, now, parse) ==
      Run(NotebookRun(cfg, t.python, rows, parse).0, RMarkdownRun(cfg, t.rMarkdown, today, rows).0,
          Some(Concat(OverviewLines(cfg, t.header, now, DatasetsOf(rows)))), None);
  }

  /** Rows whose blocks and links line up, each with a notebook text that
      parses, get through both file loops. */
  lemma AlignedRowsRun(cfg: Config, t: Templates, today: string, rows: seq<Prepared>,
                       parse: string -> Option<Notebook>)
    requires forall i :: 0 <= i < |rows| ==> parse(NotebookText(cfg, t.python, rows[i])).Some?
    requires forall i :: 0 <= i < |rows| ==> |rows[i].distributions| == |rows[i].distributionLinks|
    ensures NotebookRun(cfg, t.python, rows, parse).1.None?
    ensures |NotebookRun(cfg, t.python, rows, parse).0| <= |rows|
    ensures RMarkdownRun(cfg, t.rMarkdown, today, rows).1.None?
    ensures |RMarkdownRun(cfg, t.rMarkdown, today, rows).0| == |rows|
  {
    forall i | 0 <= i < |rows|
      ensures RenderNotebook(cfg, t.python, rows[i], parse) != Failed(ArityMismatch)
      ensures RenderNotebook(cfg, t.python, rows[i], parse) != Failed(MalformedNotebook)
    {
      RenderNotebookCases(cfg, t.python, rows[i], parse);
    }
    NotebookRunNoFailure(cfg, t.python, rows, parse);
    RMarkdownRunAligned(cfg, t.rMarkdown, today, rows);
  }

  /** A configured dataset key that names a column of the catalogue, the
      `id_short` column the sort adds, or one of the four columns the
      preparation adds never raises `KeyError`. */
  lemma AddedColumnsPresent(cfg: Config, catalogue: Frame)
    requires SortData(FilterCsv(catalogue)).Ok?
    requires forall i :: 0 <= i < |cfg.keysDataset| ==>
      cfg.keysDataset[i] in catalogue.columns || cfg.keysDataset[i] == IdShortColumn || cfg.keysDataset[i] in AddedColumns
    requires "contactPoint" in catalogue.columns
    ensures PrepareFrame(cfg, SortData(FilterCsv(catalogue)).value).Ok?
  {
    var sorted := SortData(FilterCsv(catalogue)).value;
    assert FirstMissing(cfg.keysDataset, sorted.columns + AddedColumns).None?;
  }

  /** Without a failing dataset the notebook loop finishes, writing at most
      one notebook per row. */
  lemma {:induction false} NotebookRunNoFailure(cfg: Config, template: string, rows: seq<Prepared>,
                                                parse: string -> Option<Notebook>)
    requires forall i :: 0 <= i < |rows| ==> !RenderNotebook(cfg, template, rows[i], parse).Failed?
    ensures NotebookRun(cfg, template, rows, parse).1.None?
    ensures |NotebookRun(cfg, template, rows, parse).0| <= |rows|
  {
    if rows != [] {
      NotebookRunNoFailure(cfg, template, rows[..|rows| - 1], parse);
    }
  }
}
