/** Filling the two starter-code templates for one prepared dataset: the
    Jupyter notebook (`create_python_notebooks`) and the R Markdown file
    (`create_rmarkdown`). */
module Render {
  import opened Wrappers
  import opened Text
  import opened Catalogue
  import opened Codebook

  /** A cell's `source`: a list of lines, as the template holds it, or one
      string, as the generator writes it back. */
  datatype CellSource = Lines(lines: seq<string>) | Joined(text: string)

  /** A notebook cell: its type, its source and its other entries. */
  datatype Cell = Cell(cellType: string, source: CellSource, other: map<string, string>)

  /** A parsed notebook: its cells and its other top-level entries. */
  datatype Notebook = Notebook(cells: seq<Cell>, other: map<string, string>)

  /** The source of the cell the distribution code goes into. */
  const Placeholder: CellSource := Lines(["{{ DISTRIBUTION }}"])

  /** `s.replace('"', "'")`: the text keeps its length and has no double
      quote left, so it cannot end a JSON string early. */
  function EscapeQuotes(s: string): (r: string)
    ensures |r| == |s| && '"' !in r
    ensures forall i :: 0 <= i < |s| ==> r[i] == if s[i] == '"' then '\'' else s[i]
  {
    ReplaceChar(s, '"', '\'');
    Replace(s, "\"", "'")
  }

  /** The markdown link to the dataset's page in the data shop. */
  function DatashopLink(cfg: Config, identifier: string): string
  {
    "[Direct data shop link for dataset](" + cfg.baseLinkDatashop + identifier + ")"
  }

  /** The notebook template as text after the successive replacements; the
      free-text fields have their double quotes turned into single ones. */
  function NotebookText(cfg: Config, template: string, p: Prepared): string
  {
    var d := p.dataset;
    var t1 := Replace(template, "{{ PROVIDER }}", cfg.provider);
    var t2 := Replace(t1, "{{ DATASET_TITLE }}", EscapeQuotes(d.title));
    var t3 := Replace(t2, "{{ DATASET_DESCRIPTION }}", EscapeQuotes(d.description));
    var t4 := Replace(t3, "{{ DATASET_IDENTIFIER }}", d.identifier);
    var t5 := Replace(t4, "{{ DATASET_METADATA }}", EscapeQuotes(p.metadata));
    var t6 := Replace(t5, "{{ DISTRIBUTION_COUNT }}", NatToString(|p.distributions|));
    var t7 := Replace(t6, "{{ DATASHOP_LINK }}", DatashopLink(cfg, d.identifier));
    Replace(t7, "{{ CONTACT }}", p.contact)
  }

  /** Cell `i` is the first whose source is exactly `["{{ DISTRIBUTION }}"]`. */
  predicate IsFirstPlaceholder(cells: seq<Cell>, i: int)
  {
    0 <= i < |cells| && cells[i].source == Placeholder &&
    forall j :: 0 <= j < i ==> cells[j].source != Placeholder
  }

  /** The index of the first placeholder cell, if any. */
  function FirstPlaceholder(cells: seq<Cell>): (r: Option<nat>)
    ensures r.Some? ==> IsFirstPlaceholder(cells, r.value)
    ensures r.None? <==> forall j :: 0 <= j < |cells| ==> cells[j].source != Placeholder
  {
    if cells == [] then None
    else if cells[0].source == Placeholder then Some(0)
    else match FirstPlaceholder(cells[1..])
      case None => None
      case Some(i) => Some(i + 1)
  }

  /** The search loop with its `break`. */
  method FindPlaceholderCell(cells: seq<Cell>) returns (found: Option<nat>)
    ensures found.Some? ==> IsFirstPlaceholder(cells, found.value)
    ensures found.None? <==> forall j :: 0 <= j < |cells| ==> cells[j].source != Placeholder
    ensures found == FirstPlaceholder(cells)
  {
    found := None;
    var cellIdx := 0;
    while cellIdx < |cells|
      invariant 0 <= cellIdx <= |cells|
      invariant forall j :: 0 <= j < cellIdx ==> cells[j].source != Placeholder
    {
      if cells[cellIdx].source == Placeholder {
        found := Some(cellIdx);
        break;
      }
      cellIdx := cellIdx + 1;
    }
    FirstPlaceholderUnique(cells, found);
  }

  lemma FirstPlaceholderUnique(cells: seq<Cell>, found: Option<nat>)
    requires found.Some? ==> IsFirstPlaceholder(cells, found.value)
    requires found.None? <==> forall j :: 0 <= j < |cells| ==> cells[j].source != Placeholder
    ensures found == FirstPlaceholder(cells)
  {
    var r := FirstPlaceholder(cells);
    if found.Some? && r.Some? {
      assert !(found.value < r.value) && !(r.value < found.value);
    }
  }

  /** `code` for distribution `i` of the notebook flavour. */
  function NotebookCode(i: nat, block: string, link: string): string
  {
    "# Distribution " + NatToString(i) + "\n" + block + "\ndf = get_dataset('" + link + "')\n"
  }

  /** The text of the filled cell: each distribution's code followed by one
      more newline. */
  function NotebookSource(blocks: seq<string>, links: seq<string>): string
    requires |blocks| == |links|
  {
    Concat(seq(|blocks|, i requires 0 <= i < |blocks| => NotebookCode(i, blocks[i], links[i]) + "\n"))
  }

  /** The loop that `extend`s `code_lines` with every line of each code,
      newline-terminated, and joins them; `zip(..., strict=True)` raises on
      a length mismatch. */
  method BuildNotebookSource(blocks: seq<string>, links: seq<string>) returns (r: Result<string, Error>)
    ensures |blocks| != |links| ==> r == Err(ArityMismatch)
    ensures |blocks| == |links| ==> r == Ok(NotebookSource(blocks, links))
  {
    if |blocks| != |links| {
      return Err(ArityMismatch);
    }
    ghost var codes := seq(|blocks|, i requires 0 <= i < |blocks| => NotebookCode(i, blocks[i], links[i]) + "\n");
    var codeLines: seq<string> := [];
    for idDist := 0 to |blocks|
      invariant Concat(codeLines) == Concat(codes[..idDist])
    {
      var code := NotebookCode(idDist, blocks[idDist], links[idDist]);
      var lines := Terminated(Split(code, '\n'), '\n');
      ConcatAppend(codeLines, lines);
      ConcatSplit(code, '\n');
      assert codes[..idDist + 1] == codes[..idDist] + [codes[idDist]];
      ConcatAppend(codes[..idDist], [codes[idDist]]);
      ConcatSingle(codes[idDist]);
      codeLines := codeLines + lines;
    }
    assert codes[..|blocks|] == codes;
    return Ok(Concat(codeLines));
  }

  /** What happens to one dataset's notebook. */
  datatype NotebookOutcome = Written(notebook: Notebook) | Skipped | Failed(error: Error)

  /** The notebook with cell `i`'s source replaced by `source`. */
  function FillCell(nb: Notebook, i: nat, source: string): Notebook
    requires i < |nb.cells|
  {
    nb.(cells := nb.cells[i := nb.cells[i].(source := Joined(source))])
  }

  /** One dataset's notebook: substitute, parse (`parse` plays
      `json.loads`), find the placeholder cell (skip the dataset with a
      warning when there is none) and fill it. */
  function RenderNotebook(cfg: Config, template: string, p: Prepared, parse: string -> Option<Notebook>)
    : NotebookOutcome
  {
    match parse(NotebookText(cfg, template, p))
    case None => Failed(MalformedNotebook)
    case Some(nb) =>
      match FirstPlaceholder(nb.cells)
      case None => Skipped
      case Some(i) =>
        if |p.distributions| != |p.distributionLinks| then Failed(ArityMismatch)
        else Written(FillCell(nb, i, NotebookSource(p.distributions, p.distributionLinks)))
  }

  /** The outcome for one dataset: a parse failure stops the run; without a
      placeholder cell the dataset is skipped; otherwise, when blocks and
      links line up, the first placeholder cell, and nothing else, receives
      the generated code. */
  lemma RenderNotebookCases(cfg: Config, template: string, p: Prepared, parse: string -> Option<Notebook>)
    ensures var text := NotebookText(cfg, template, p);
      var out := RenderNotebook(cfg, template, p, parse);
      && (parse(text).None? <==> out == Failed(MalformedNotebook))
      && (out == Skipped <==>
            parse(text).Some? && forall j :: 0 <= j < |parse(text).value.cells| ==>
              parse(text).value.cells[j].source != Placeholder)
      && (out.Failed? ==> out == Failed(MalformedNotebook) || out == Failed(ArityMismatch))
      && (out == Failed(ArityMismatch) ==> |p.distributions| != |p.distributionLinks|)
      && (parse(text).Some? && FirstPlaceholder(parse(text).value.cells).Some? ==>
            (out == Failed(ArityMismatch) <==> |p.distributions| != |p.distributionLinks|)
            && (out.Written? <==> |p.distributions| == |p.distributionLinks|))
      && (out.Written? ==>
            && parse(text).Some?
            && var nb := parse(text).value;
            && |out.notebook.cells| == |nb.cells| && out.notebook.other == nb.other
            && exists i :: IsFirstPlaceholder(nb.cells, i)
                 && out.notebook.cells[i].source == Joined(NotebookSource(p.distributions, p.distributionLinks))
                 && out.notebook.cells[i].cellType == nb.cells[i].cellType
                 && out.notebook.cells[i].other == nb.cells[i].other
                 && forall j :: 0 <= j < |nb.cells| && j != i ==> out.notebook.cells[j] == nb.cells[j])
  {
    var text := NotebookText(cfg, template, p);
    if parse(text).Some? {
      var nb := parse(text).value;
      var first := FirstPlaceholder(nb.cells);
      if first.Some? {
        assert IsFirstPlaceholder(nb.cells, first.value);
      }
    }
  }

  /** `create_python_notebooks` for one row: the successive replacements,
      the parse, the cell search and the filling of the cell. */
  method CreateNotebook(cfg: Config, template: string, p: Prepared, parse: string -> Option<Notebook>)
    returns (outcome: NotebookOutcome)
    ensures outcome == RenderNotebook(cfg, template, p, parse)
  {
    var d := p.dataset;
    var pyNb := template;
    pyNb := Replace(pyNb, "{{ PROVIDER }}", cfg.provider);
    pyNb := Replace(pyNb, "{{ DATASET_TITLE }}", EscapeQuotes(d.title));
    pyNb := Replace(pyNb, "{{ DATASET_DESCRIPTION }}", EscapeQuotes(d.description));
    pyNb := Replace(pyNb, "{{ DATASET_IDENTIFIER }}", d.identifier);
    pyNb := Replace(pyNb, "{{ DATASET_METADATA }}", EscapeQuotes(p.metadata));
    pyNb := Replace(pyNb, "{{ DISTRIBUTION_COUNT }}", NatToString(|p.distributions|));
    pyNb := Replace(pyNb, "{{ DATASHOP_LINK }}", DatashopLink(cfg, d.identifier));
    pyNb := Replace(pyNb, "{{ CONTACT }}", p.contact);
    var parsed := parse(pyNb);
    if parsed.None? {
      return Failed(MalformedNotebook);
    }
    var pyNbDict := parsed.value;
    var distCellIdx := FindPlaceholderCell(pyNbDict.cells);
    if distCellIdx.None? {
      return Skipped;
    }
    var source := BuildNotebookSource(p.distributions, p.distributionLinks);
    if source.Err? {
      return Failed(source.error);
    }
    var i := distCellIdx.value;
    pyNbDict := pyNbDict.(cells := pyNbDict.cells[i := pyNbDict.cells[i].(source := Joined(source.value))]);
    return Written(pyNbDict);
  }

  /** `code_blocks` entry `i` of the R Markdown flavour. */
  function RCodeBlock(i: nat, block: string, link: string): string
  {
    "# Distribution " + NatToString(i) + "\n" + block + "\ndf <- read_delim('" + link + "')\n\n"
  }

  /** `"".join(code_blocks)`; the strict `zip` raises on a length mismatch. */
  function RCodeBlocks(blocks: seq<string>, links: seq<string>): (r: Result<string, Error>)
    ensures r.Err? <==> |blocks| != |links|
    ensures r.Err? ==> r.error == ArityMismatch
  {
    if |blocks| != |links| then Err(ArityMismatch)
    else Ok(Concat(seq(|blocks|, i requires 0 <= i < |blocks| => RCodeBlock(i, blocks[i], links[i]))))
  }

  /** One more distribution appends one more block, numbered after the
      others, to the R code. */
  lemma RCodeBlocksSnoc(blocks: seq<string>, links: seq<string>, b: string, l: string)
    requires |blocks| == |links|
    ensures RCodeBlocks(blocks + [b], links + [l]) ==
      Ok(RCodeBlocks(blocks, links).value + RCodeBlock(|blocks|, b, l))
  {
    var n := |blocks|;
    var bs, ls := blocks + [b], links + [l];
    var longer := seq(n + 1, i requires 0 <= i < n + 1 => RCodeBlock(i, bs[i], ls[i]));
    var shorter := seq(n, i requires 0 <= i < n => RCodeBlock(i, blocks[i], links[i]));
    assert longer == shorter + [RCodeBlock(n, b, l)];
    ConcatAppend(shorter, [RCodeBlock(n, b, l)]);
    ConcatSingle(RCodeBlock(n, b, l));
  }

  /** `create_rmarkdown` for one row: the replacements in the order the
      script applies them, then the distribution code. */
  function RMarkdownText(cfg: Config, template: string, today: string, p: Prepared): (r: Result<string, Error>)
    ensures r.Err? <==> |p.distributions| != |p.distributionLinks|
  {
    var d := p.dataset;
    var t1 := Replace(template, "{{ DATASET_TITLE }}", d.title);
    var t2 := Replace(t1, "{{ PROVIDER }}", cfg.provider);
    var t3 := Replace(t2, "{{ TODAY_DATE }}", today);
    var t4 := Replace(t3, "{{ DATASET_IDENTIFIER }}", d.identifier);
    var t5 := Replace(t4, "{{ DATASET_DESCRIPTION }}", d.description);
    var t6 := Replace(t5, "{{ DATASET_METADATA }}", p.metadata);
    var t7 := Replace(t6, "{{ CONTACT }}", p.contact);
    var t8 := Replace(t7, "{{ DISTRIBUTION_COUNT }}", NatToString(|p.distributions|));
    var t9 := Replace(t8, "{{ DATASHOP_LINK }}", DatashopLink(cfg, d.identifier));
    match RCodeBlocks(p.distributions, p.distributionLinks)
    case Err(e) => Err(e)
    case Ok(code) => Ok(Replace(t9, "{{ DISTRIBUTIONS }}", code))
  }

  /** A prepared row never trips the strict `zip` in either flavour. */
  lemma PreparedRowRenders(cfg: Config, d: Dataset, template: string, today: string, parse: string -> Option<Notebook>)
    ensures RMarkdownText(cfg, template, today, PrepareRow(cfg, d)).Ok?
    ensures RenderNotebook(cfg, template, PrepareRow(cfg, d), parse) != Failed(ArityMismatch)
  {
    PrepareRowAligned(cfg, d);
  }

  /** An output file: its name and content. */
  datatype NotebookFile = NotebookFile(name: string, notebook: Notebook)
  datatype TextFile = TextFile(name: string, text: string)

  /** The notebooks written for `rows` and the error that stopped the loop,
      if any; a skipped dataset writes nothing and the loop goes on. */
  function NotebookRun(cfg: Config, template: string, rows: seq<Prepared>, parse: string -> Option<Notebook>)
    : (seq<NotebookFile>, Option<Error>)
  {
    if rows == [] then ([], None)
    else
      var (files, failure) := NotebookRun(cfg, template, rows[..|rows| - 1], parse);
      var last := rows[|rows| - 1];
      if failure.Some? then (files, failure)
      else match RenderNotebook(cfg, template, last, parse)
        case Written(nb) => (files + [NotebookFile(last.dataset.identifier + ".ipynb", nb)], None)
        case Skipped => (files, None)
        case Failed(e) => (files, Some(e))
  }

  lemma {:induction false} NotebookRunStops(cfg: Config, template: string, rows: seq<Prepared>,
                                            parse: string -> Option<Notebook>, k: nat)
    requires k <= |rows| && NotebookRun(cfg, template, rows[..k], parse).1.Some?
    ensures NotebookRun(cfg, template, rows, parse) == NotebookRun(cfg, template, rows[..k], parse)
    decreases |rows|
  {
    if k < |rows| {
      assert rows[..|rows| - 1][..k] == rows[..k];
      NotebookRunStops(cfg, template, rows[..|rows| - 1], parse, k);
    } else {
      assert rows[..k] == rows;
    }
  }

  /** When every dataset's notebook is written, there is one file per row, in
      order, named after the row's identifier. */
  lemma {:induction false} NotebookRunAllWritten(cfg: Config, template: string, rows: seq<Prepared>,
                                                 parse: string -> Option<Notebook>)
    requires forall i :: 0 <= i < |rows| ==> RenderNotebook(cfg, template, rows[i], parse).Written?
    ensures NotebookRun(cfg, template, rows, parse).1.None?
    ensures |NotebookRun(cfg, template, rows, parse).0| == |rows|
    ensures forall i :: 0 <= i < |rows| ==>
      NotebookRun(cfg, template, rows, parse).0[i] ==
        NotebookFile(rows[i].dataset.identifier + ".ipynb", RenderNotebook(cfg, template, rows[i], parse).notebook)
  {
    if rows != [] {
      var n := |rows| - 1;
      NotebookRunAllWritten(cfg, template, rows[..n], parse);
      NotebookRunWrittenStep(cfg, template, rows, parse);
      var files := NotebookRun(cfg, template, rows, parse).0;
      var prev := NotebookRun(cfg, template, rows[..n], parse).0;
      var last := NotebookFile(rows[n].dataset.identifier + ".ipynb", RenderNotebook(cfg, template, rows[n], parse).notebook);
      assert files == prev + [last];
      forall i | 0 <= i < |rows|
        ensures files[i] == NotebookFile(rows[i].dataset.identifier + ".ipynb",
                                         RenderNotebook(cfg, template, rows[i], parse).notebook)
      {
        if i < n {
          assert files[i] == prev[i];
          assert rows[..n][i] == rows[i];
        } else {
          assert files[i] == last;
        }
      }
    }
  }

  /** The last row's notebook, when written, is appended to the files of
      the rows before it. */
  lemma NotebookRunWrittenStep(cfg: Config, template: string, rows: seq<Prepared>, parse: string -> Option<Notebook>)
    requires rows != []
    requires NotebookRun(cfg, template, rows[..|rows| - 1], parse).1.None?
    requires RenderNotebook(cfg, template, rows[|rows| - 1], parse).Written?
    ensures NotebookRun(cfg, template, rows, parse) ==
      (NotebookRun(cfg, template, rows[..|rows| - 1], parse).0 +
         [NotebookFile(rows[|rows| - 1].dataset.identifier + ".ipynb",
                       RenderNotebook(cfg, template, rows[|rows| - 1], parse).notebook)], None)
  {
  }

  /** `create_python_notebooks`: the loop over the rows. */
  method CreatePythonNotebooks(cfg: Config, template: string, rows: seq<Prepared>, parse: string -> Option<Notebook>)
    returns (files: seq<NotebookFile>, failure: Option<Error>)
    ensures (files, failure) == NotebookRun(cfg, template, rows, parse)
  {
    files, failure := [], None;
    for idx := 0 to |rows|
      invariant (files, failure) == NotebookRun(cfg, template, rows[..idx], parse)
      invariant failure.None?
    {
      assert rows[..idx + 1][..idx] == rows[..idx];
      var outcome := CreateNotebook(cfg, template, rows[idx], parse);
      match outcome {
        case Written(nb) =>
          files := files + [NotebookFile(rows[idx].dataset.identifier + ".ipynb", nb)];
        case Skipped =>
        case Failed(e) =>
          failure := Some(e);
          NotebookRunStops(cfg, template, rows, parse, idx + 1);
          return;
      }
    }
    assert rows[..|rows|] == rows;
  }

  /** The R Markdown files written for `rows` and the error that stopped the
      loop, if any. */
  function RMarkdownRun(cfg: Config, template: string, today: string, rows: seq<Prepared>)
    : (seq<TextFile>, Option<Error>)
  {
    if rows == [] then ([], None)
    else
      var (files, failure) := RMarkdownRun(cfg, template, today, rows[..|rows| - 1]);
      var last := rows[|rows| - 1];
      if failure.Some? then (files, failure)
      else match RMarkdownText(cfg, template, today, last)
        case Ok(text) => (files + [TextFile(last.dataset.identifier + ".Rmd", text)], None)
        case Err(e) => (files, Some(e))
  }

  lemma {:induction false} RMarkdownRunStops(cfg: Config, template: string, today: string, rows: seq<Prepared>, k: nat)
    requires k <= |rows| && RMarkdownRun(cfg, template, today, rows[..k]).1.Some?
    ensures RMarkdownRun(cfg, template, today, rows) == RMarkdownRun(cfg, template, today, rows[..k])
    decreases |rows|
  {
    if k < |rows| {
      assert rows[..|rows| - 1][..k] == rows[..k];
      RMarkdownRunStops(cfg, template, today, rows[..|rows| - 1], k);
    } else {
      assert rows[..k] == rows;
    }
  }

  /** Rows whose blocks and links line up give one R Markdown file each, in
      order, named after the identifier. */
  lemma {:induction false} RMarkdownRunAligned(cfg: Config, template: string, today: string, rows: seq<Prepared>)
    requires forall i :: 0 <= i < |rows| ==> |rows[i].distributions| == |rows[i].distributionLinks|
    ensures RMarkdownRun(cfg, template, today, rows).1.None?
    ensures |RMarkdownRun(cfg, template, today, rows).0| == |rows|
    ensures forall i :: 0 <= i < |rows| ==>
      RMarkdownRun(cfg, template, today, rows).0[i] ==
        TextFile(rows[i].dataset.identifier + ".Rmd", RMarkdownText(cfg, template, today, rows[i]).value)
  {
    if rows != [] {
      RMarkdownRunAligned(cfg, template, today, rows[..|rows| - 1]);
    }
  }

  /** `create_rmarkdown`: the loop over the rows. */
  method CreateRMarkdowns(cfg: Config, template: string, today: string, rows: seq<Prepared>)
    returns (files: seq<TextFile>, failure: Option<Error>)
    ensures (files, failure) == RMarkdownRun(cfg, template, today, rows)
  {
    files, failure := [], None;
    for idx := 0 to |rows|
      invariant (files, failure) == RMarkdownRun(cfg, template, today, rows[..idx])
      invariant failure.None?
    {
      assert rows[..idx + 1][..idx] == rows[..idx];
      var rmd := RMarkdownText(cfg, template, today, rows[idx]);
      if rmd.Err? {
        failure := Some(rmd.error);
        RMarkdownRunStops(cfg, template, today, rows, idx + 1);
        return;
      }
      files := files + [TextFile(rows[idx].dataset.identifier + ".Rmd", rmd.value)];
    }
    assert rows[..|rows|] == rows;
  }
}
