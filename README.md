# Startercode generator: a verified model of its transformation pipeline

`updater.py` reads an open-data catalogue and produces, for every dataset
that offers a CSV file, a Jupyter notebook and an R Markdown file of starter
code, plus a `README.md` overview table linking to them. This project models
the part between the download and the file writes:

- the CSV filter (`has_csv_distribution`, `filter_csv`);
- the identifier sort (`get_identifier_prefix`, `sort_data`);
- the codebook preparation (`prepare_data_for_codebooks`): the metadata
  bullets, the contact line, one comment block and one download link per
  distribution, and the newline clean-up of distribution descriptions;
- the template filling of both flavours (`create_python_notebooks`,
  `create_rmarkdown`): the `{{ TOKEN }}` replacements, the quote escaping
  of the notebook flavour, the search for the `{{ DISTRIBUTION }}` cell and
  the generated code;
- the header (`get_header`) and the rows and titles of the overview
  (`create_overview`);
- `main`'s chaining of the stages, which stops at the first error.

Modules, one file each:

- `Wrappers`: `Option` and `Result`.
- `Text`: the Python string operations the script uses.
  - `Split` and `Concat`/`Terminated` model `str.split` and `"".join`.
  - `Replace` models `str.replace` (left to right, non-overlapping).
  - `CollapseNewlines` models `re.sub(r"\n+", " ", s)`.
  - `NatToString` and `ParseDecimal` model `str(int)` and `int(str)`.
  - `Capitalize` and `PadRight` model `str.capitalize` and `:<25`.
  - `JoinWith` models `sep.join`.
- `Catalogue`: the datasets, distributions, contacts and the DataFrame holding them, the configuration values, and the exceptions that end a run.
- `Filtering`: `has_csv_distribution`, `filter_csv`, `get_identifier_prefix`, `sort_data`.
- `Codebook`: `prepare_data_for_codebooks`.
- `Render`: both template flavours, for one dataset and for all of them.
- `Overview`: `get_header` and `create_overview`.
- `Pipeline`: `main`.

The DataFrame is a `Frame`: its column labels and its rows in index order.
The columns matter only for the `KeyError` that a missing column raises.
Where the code loops and updates variables, the model has a `method` with
the same loop. Each such method is proved equal to a specification
function, and the properties are proved as lemmas about those functions:

- `PrepareData`, `BuildDistributionBlocks`
- `FindPlaceholderCell`, `BuildNotebookSource`, `CreateNotebook`
- `CreatePythonNotebooks`, `CreateRMarkdowns`
- `CreateOverview`, `RunGenerator`

Parameters stand in for what the script reads from outside:

- the configuration values;
- the template texts;
- the two clock readings: the date for the R Markdown files and the date and time for the header;
- `json.loads`, a function `parse` from text to an optional parsed notebook.

Two behaviours worth knowing:

- A configured dataset key that a row has no value for prints as `nan` (pandas' NaN).
- A notebook template without a `{{ DISTRIBUTION }}` cell skips that dataset with a warning; no error is raised.

## Model

| member | source | states |
|---|---|---|
| Filtering.IsCsv | updater.py:113 | a distribution without `format` is not a CSV one |
| Filtering.CsvOnly | updater.py:113 | every kept distribution is a CSV one, and each CSV distribution is kept as often as it occurs |
| Filtering.CsvOnlyInOrder | updater.py:113 | the kept distributions are in their original order |
| Filtering.HasCsvDistribution | updater.py:104-114 | `None` exactly when no distribution is CSV; otherwise the non-empty list of the CSV ones |
| Filtering.FilterCsv | updater.py:126-130 | the columns are unchanged |
| Filtering.FilterCsvOnlyCsv | updater.py:127-128 | every surviving row has a non-empty list made only of CSV distributions |
| Filtering.FilterCsvFromInput | updater.py:126-129 | every survivor is an input row with its non-CSV distributions removed and nothing else changed |
| Filtering.FilterCsvKeepsCsv | updater.py:127-128 | no row with a CSV distribution is dropped: each input row, stripped to its CSV distributions, survives exactly as often as it occurs when it still has one, and no other row survives |
| Filtering.FilterCsvInOrder | updater.py:128-129 | the survivors keep their relative order |
| Filtering.IdentifierPrefix | updater.py:70-72 | a prefix of the identifier without `@`, the whole identifier when it has no `@`, and otherwise followed by the first `@` |
| Filtering.Insert | updater.py:144 | inserting into a sorted list keeps it sorted and adds exactly that row |
| Filtering.SortRows | updater.py:144 | the result is sorted by `id_short` and is a permutation of the input |
| Filtering.FirstNonNumeric | updater.py:143 | `None` exactly when every prefix is a decimal integer; otherwise the prefix of the first row that is not |
| Filtering.SortData | updater.py:142-146 | an error naming the first prefix that is not an integer; otherwise the columns gain `id_short` and the rows are the same rows, permuted so that `id_short` never decreases |
| Codebook.MetadataLines | updater.py:167-168 | when no key or value holds a newline, the metadata cell is exactly one newline-terminated entry ``- **Key** `value` `` per configured key, in order |
| Codebook.NonNull | updater.py:173 | the kept values are non-null values of the contact |
| Codebook.NonNullSnoc | updater.py:173 | a further value is kept exactly when it is non-null, after the others |
| Codebook.ContactAppend | updater.py:171-176 | only the first contact counts; its non-null values are joined in order by a bar with a space on each side, and a null value adds nothing |
| Codebook.DistributionEntryColumns | updater.py:187 | for a key of at most 25 characters, a line is `# `, the capitalised key padded with spaces to 25 characters, `: ` and the value |
| Codebook.DistributionLines | updater.py:186-190 | when no key or value holds a newline, a distribution block is one newline-terminated line per configured key, in order |
| Codebook.CleanDistribution | updater.py:182-184 | only the description changes, and it is left without a newline |
| Codebook.BuildDistributionBlocks | updater.py:178-191 | one cleaned distribution, one block and one link per distribution, position by position; a missing `downloadUrl` gives `""` |
| Codebook.FirstMissing | updater.py:167 | `None` exactly when every configured key is a column; otherwise the first configured key that is not a column |
| Codebook.PrepareRowAligned | updater.py:167-195 | blocks and links have the length of the distribution list and are index-aligned; a missing `downloadUrl` gives `""`; no description keeps a newline; nothing else changes |
| Codebook.PreparedMetadataLine | updater.py:143-168 | line `i` of a prepared row's metadata cell is the entry of configured key `i`; a key `id_short` shows the identifier's integer prefix and a key naming one of the four added columns shows `None`, when no key or value holds a newline |
| Codebook.PrepareOne | updater.py:166-195 | the body of the row loop builds exactly `PrepareRow`: the metadata block, the contact line, and one cleaned distribution, block and link per distribution |
| Codebook.PrepareData | updater.py:158-197 | a `KeyError` exactly when there is a row and a configured key or `contactPoint` is neither a column of the frame nor one of the four columns added at the start; otherwise one prepared row per input row, in order |
| Text.Split | updater.py:72 | the first piece is the text before the first separator, and no piece holds a separator |
| Text.ConcatSplit | updater.py:267-269 | joining the newline-terminated lines of `code.split("\n")` gives `code` followed by one newline |
| Text.SplitConcat | updater.py:167-168 | splitting newline-terminated lines without newlines gives the lines back and one empty piece |
| Text.ContainsOccurs | updater.py:113 | the substring test holds exactly when the pattern occurs at some position |
| Text.ReplaceAbsent | updater.py:219-238 | replacing a token that does not occur changes nothing |
| Text.ReplaceFirst | updater.py:219-238 | the first occurrence of a token is replaced and the search goes on after it |
| Text.ReplaceChar | updater.py:221 | replacing one character by another maps every occurrence, position by position |
| Text.CollapseNewlines | updater.py:184 | the result has no newline |
| Text.CollapseNewlineFree | updater.py:184 | text without a newline is unchanged |
| Text.CollapseRun | updater.py:184 | each maximal run of newlines becomes exactly one space |
| Text.CollapseIdempotent | updater.py:184 | cleaning twice is cleaning once |
| Text.NatToString | updater.py:232 | the decimal text of a count is a non-empty run of digits with no leading zero |
| Text.DecimalRoundTrip | updater.py:143 | reading back the decimal text gives the number |
| Text.Capitalize | updater.py:167 | same length; the first letter is upper-cased and every other letter lower-cased; other characters stay |
| Text.PadRight | updater.py:187 | the text followed by spaces up to the width, or unchanged when longer |
| Text.JoinWithSnoc | updater.py:174 | joining one more value adds the separator and that value |
| Text.JoinWithEmpty | updater.py:168 | joining with the empty separator is the plain concatenation `"".join` |
| Render.EscapeQuotes | updater.py:220-230 | no `"` is left, each becomes `'`, and the length is kept |
| Render.FirstPlaceholder | updater.py:245-250 | the first cell whose source is `["{{ DISTRIBUTION }}"]`, or none when no cell has it |
| Render.FindPlaceholderCell | updater.py:245-250 | the search loop with `break` finds that first placeholder cell |
| Render.BuildNotebookSource | updater.py:256-269 | an error when the blocks and links differ in number; otherwise the concatenation of `code_i + "\n"` |
| Render.RenderNotebookCases | updater.py:240-269 | a parse failure, and only that, is `MalformedNotebook`; no placeholder cell, and only that, skips the dataset; with a placeholder cell the outcome is `ArityMismatch` exactly when blocks and links differ in number and written otherwise; a written notebook differs from the parsed one only in the source of the first placeholder cell, which holds the generated code |
| Render.CreateNotebook | updater.py:215-269 | the replacements in order, the parse, the search and the cell filling produce the specified outcome |
| Render.RCodeBlocks | updater.py:314-324 | an error exactly when the blocks and links differ in number |
| Render.RCodeBlocksSnoc | updater.py:314-323 | one more distribution appends one more `read_delim` block numbered after the others |
| Render.RMarkdownText | updater.py:294-324 | an error exactly when the blocks and links differ in number |
| Render.PreparedRowRenders | updater.py:257-262 | a prepared row never makes the strict `zip` fail in either flavour |
| Render.NotebookRunStops | updater.py:214-274 | once a dataset fails, the run stops there |
| Render.NotebookRunAllWritten | updater.py:214-274 | when every notebook is written, there is one file per row, in order, named after the identifier |
| Render.CreatePythonNotebooks | updater.py:214-274 | the loop over the rows writes the specified files and stops at the first error |
| Render.RMarkdownRunStops | updater.py:293-329 | once a dataset fails, the run stops there |
| Render.RMarkdownRunAligned | updater.py:293-329 | with aligned blocks and links, one `.Rmd` file per row, in order, named after the identifier |
| Render.CreateRMarkdowns | updater.py:293-329 | the loop over the rows writes the specified files and stops at the first error |
| Overview.GetHeaderCount | updater.py:344-345 | the first count token is replaced by the decimal count, and then the date is filled in |
| Overview.CleanTitle | updater.py:385 | no `[` or `]` is left; each becomes a space; the length is kept |
| Overview.ShortTitle | updater.py:386-387 | a title longer than the maximum is cut to the maximum and followed by `…`; a shorter one is kept; the result has at most the maximum plus one characters |
| Overview.DisplayTitleShape | updater.py:385-387 | the title cell has no brackets and is the cleaned title or a prefix of it followed by `…` |
| Overview.DisplayTitleIdempotent | updater.py:385-387 | cleaning and cutting a second time changes nothing |
| Overview.TableLineShape | updater.py:397-400 | a row opens with a bar, a space and its first cell, and ends with a space, a bar and a newline |
| Overview.OverviewRowShape | updater.py:381-400 | a row starts with a bar, a space and the identifier's prefix, and is a single line when the identifier, the title and the configured names have no line break |
| Overview.BuildRow | updater.py:380-399 | the loop body builds exactly the table row `OverviewRow` describes: prefix, bracket-free title cut to the maximum plus `…`, and the four links |
| Overview.CreateOverview | updater.py:370-404 | the document is the header, the column heads, the rule, then exactly one row per dataset in order, and the written text is their concatenation |
| Pipeline.RunGenerator | updater.py:414-425 | the stages run in order and a failure stops the run |
| Pipeline.PreparedKeptRow | updater.py:126-195 | a kept row, once prepared, has only CSV distributions, at least one, and a block and a link for each |
| Pipeline.PreparedRowsOfCatalogue | updater.py:414-419 | the prepared datasets are a permutation of the kept rows, each prepared, in `id_short` order; each comes from an input row with only its CSV distributions left |
| Pipeline.GenerateCompletes | updater.py:414-425 | when sorting and preparing succeed and every row's notebook text parses, the run has no failure, writes one `.Rmd` per kept row and at most one notebook per kept row, and its overview lists the prepared datasets, a permutation of the kept rows in `id_short` order |
| Pipeline.AlignedRowsRun | updater.py:214-329 | rows whose blocks and links line up, each with a notebook text that parses, get through both file loops: no failure, one `.Rmd` per row and at most one notebook per row |
| Pipeline.PreparedDatasetsPermutation | updater.py:165-197 | preparing rows one at a time does not depend on their order: permuted rows give permuted prepared datasets |
| Pipeline.AddedColumnsPresent | updater.py:143-167 | a configured dataset key naming a catalogue column, `id_short` or one of the four added columns never raises `KeyError` |
| Pipeline.NotebookRunNoFailure | updater.py:214-274 | when no dataset fails, the notebook loop finishes without an error and writes at most one notebook per row |

## Left out

- The HTTP fetch of the catalogue (`get_current_json`) is network I/O; the catalogue is an input `Frame`.
- The YAML configuration and the module constants are file I/O; they are the `Config` parameter.
- Reading the templates, `mkdir` and writing the `.ipynb`, `.Rmd` and `README.md` files are file I/O. The templates are input strings; the outputs are returned as values, with file names.
- `json.loads` is a parameter; `json.dump` is not modelled. Nothing is proved about whether the escaped text still parses.
- `datetime.today()` reads the clock; both formatted readings are parameters.
- `tqdm` progress bars and `logging` are presentation only; the skip warning is the `Skipped` outcome.
- The mapping of exceptions to exit codes in `main`: a run ends with the `Error` that stopped it.
- Pandas internals (`.loc`, `.at`, `copy`, `dropna`, `reset_index`) are not modelled; a frame is a sequence of rows.
- The `id_short` column that `sort_data` adds is not carried in the rows. The frame gains the column label, and the cell is recomputed from the identifier where a configured key reads it. The four columns the preparation adds print `None` when read during the loop.
- The aliasing of the distribution dicts is not modelled. `copy()` does not copy the dicts inside the `distribution` lists, so the description clean-up also changes the caller's frame.
- A frame without a `distribution`, `identifier`, `title` or `description` column, a missing `contactPoint` cell (NaN), and a missing `distribution` cell (NaN, which makes `has_csv_distribution` raise `TypeError` at updater.py:113) make the script raise `KeyError` or fail; these are not modelled. The model reads those fields from every row, so for such a frame it can report a clean run where the script stops at its first `data.loc[idx, "title"]`.
- A configured dataset key `contactPoint` or `distribution` is not printed as the script prints it: the script shows the list's Python repr, the model shows `nan`, since `fields` holds only the other columns.
- JSON `null` or non-string values are not modelled. This covers a `null` format, a `null` description, and non-string contact values or cells.
- Python's `str.replace` with an empty pattern is not modelled; every call in the script uses a non-empty token.
- Filtering.SortData: does not claim stability, since `sort_values` uses its default sort kind. A prefix counts as an integer only when it is a non-empty run of ASCII digits: the signs, surrounding white space and underscores that `int()` also accepts are treated as errors. The 64-bit overflow of `astype(int)` is not modelled.
- Text.Capitalize: models ASCII letters only; the Unicode case mappings of `str.capitalize` are not modelled.
- Overview.GetHeaderCount: states the count substitution only where the token's first occurrence is known. No claim that a token is absent afterwards: a replacement can create a new occurrence.
- Overview.OverviewRowShape: the single-line claim needs newline-free inputs; a title that contains a newline breaks the table row in the script too.
