/** `prepare_data_for_codebooks`: per dataset, the metadata bullet block,
    the contact line, and per distribution a comment block and its download
    link. */
module Codebook {
  import opened Wrappers
  import opened Text
  import opened Catalogue
  import opened Filtering

  /** Width of the field-name column in a distribution block (`:<25`). */
  const LabelWidth: nat := 25

  /** A dataset row with the four columns the preparation adds. */
  datatype Prepared = Prepared(
    dataset: Dataset,
    metadata: string,
    contact: string,
    distributions: seq<string>,
    distributionLinks: seq<string>)

  /** The four columns the preparation adds before its loop, each `None`
      until the row's turn has been completed. */
  const AddedColumns: set<string> := {"metadata", "contact", "distributions", "distribution_links"}

  /** The text f-string formatting gives `data.loc[idx, k]` while row `d` is
      prepared: the integer `id_short`; `None` for the four added columns,
      not yet filled for this row; the typed columns; then any other cell,
      where a column this row has no value in holds pandas' NaN, printed
      `nan`. */
  function FieldText(d: Dataset, k: string): string
  {
    if k == IdShortColumn then NatToString(IdShort(d))
    else if k in AddedColumns then "None"
    else if k == "identifier" then d.identifier
    else if k == "title" then d.title
    else if k == "description" then d.description
    else Get(d.fields, k, "nan")
  }

  /** One metadata line without its newline: ``- **Key** `value` ``. */
  function MetadataEntry(k: string, v: string): string
  {
    "- **" + Capitalize(k) + "** `" + v + "`"
  }

  function MetadataEntries(keys: seq<string>, d: Dataset): seq<string>
  {
    seq(|keys|, i requires 0 <= i < |keys| => MetadataEntry(keys[i], FieldText(d, keys[i])))
  }

  /** The `metadata` cell: one newline-terminated entry per configured key. */
  function MetadataBlock(keys: seq<string>, d: Dataset): string
  {
    Concat(Terminated(MetadataEntries(keys, d), '\n'))
  }

  lemma {:induction false} CapitalizeNewlineFree(s: string)
    requires '\n' !in s
    ensures '\n' !in Capitalize(s)
  {
    var r := Capitalize(s);
    forall i | 0 <= i < |s| ensures r[i] != '\n' {
      assert ToLower(r[i]) == ToLower(s[i]);
    }
  }

  /** Read back line by line, the metadata block is exactly one line per
      configured key, in order, each of the form ``- **Key** `value` ``,
      provided no key or value has a newline of its own. */
  lemma MetadataLines(keys: seq<string>, d: Dataset)
    requires forall i :: 0 <= i < |keys| ==> '\n' !in keys[i] && '\n' !in FieldText(d, keys[i])
    ensures Split(MetadataBlock(keys, d), '\n') == MetadataEntries(keys, d) + [""]
  {
    var entries := MetadataEntries(keys, d);
    forall i | 0 <= i < |entries| ensures '\n' !in entries[i] {
      CapitalizeNewlineFree(keys[i]);
    }
    SplitConcat(entries, '\n');
  }

  /** Line `i` of a prepared row's metadata cell is the entry of configured
      key `i`: a key `id_short` shows the identifier's integer prefix, and a
      key naming one of the four added columns shows `None`, the value those
      columns hold while the row is prepared. */
  lemma PreparedMetadataLine(cfg: Config, d: Dataset, i: nat)
    requires i < |cfg.keysDataset|
    requires forall j :: 0 <= j < |cfg.keysDataset| ==>
      '\n' !in cfg.keysDataset[j] && '\n' !in FieldText(d, cfg.keysDataset[j])
    ensures var lines := Split(PrepareRow(cfg, d).metadata, '\n');
      var k := cfg.keysDataset[i];
      && |lines| == |cfg.keysDataset| + 1
      && lines[i] == MetadataEntry(k, FieldText(d, k))
      && (k == IdShortColumn ==> lines[i] == MetadataEntry(k, NatToString(IdShort(d))))
      && (k in AddedColumns ==> lines[i] == MetadataEntry(k, "None"))
  {
    assert PrepareRow(cfg, d).metadata == MetadataBlock(cfg.keysDataset, d);
    MetadataBlockLine(cfg.keysDataset, d, i);
    FieldTextAdded(d, cfg.keysDataset[i]);
  }

  lemma MetadataBlockLine(keys: seq<string>, d: Dataset, i: nat)
    requires i < |keys|
    requires forall j :: 0 <= j < |keys| ==> '\n' !in keys[j] && '\n' !in FieldText(d, keys[j])
    ensures |Split(MetadataBlock(keys, d), '\n')| == |keys| + 1
    ensures Split(MetadataBlock(keys, d), '\n')[i] == MetadataEntry(keys[i], FieldText(d, keys[i]))
  {
    var entries := MetadataEntries(keys, d);
    MetadataLines(keys, d);
    assert (entries + [""])[i] == entries[i];
  }

  lemma FieldTextAdded(d: Dataset, k: string)
    ensures k == IdShortColumn ==> FieldText(d, k) == NatToString(IdShort(d))
    ensures k in AddedColumns ==> FieldText(d, k) == "None"
  {
    if k in AddedColumns {
      AddedNotIdShort(k);
    }
  }

  lemma AddedNotIdShort(k: string)
    requires k in AddedColumns
    ensures k != IdShortColumn
  {
    assert k[0] != IdShortColumn[0];
  }

  /** The non-null values of a contact, in order. */
  function NonNull(values: seq<Option<string>>): (r: seq<string>)
    ensures |r| <= |values|
    ensures forall i :: 0 <= i < |r| ==> Some(r[i]) in values
  {
    if values == [] then []
    else
      var rest := NonNull(values[1..]);
      assert forall i :: 0 <= i < |rest| ==> Some(rest[i]) in values by {
        forall i | 0 <= i < |rest| ensures Some(rest[i]) in values {
          assert Some(rest[i]) in values[1..];
        }
      }
      match values[0]
      case None => rest
      case Some(v) => [v] + rest
  }

  lemma {:induction false} NonNullSnoc(values: seq<Option<string>>, v: Option<string>)
    ensures NonNull(values + [v]) == NonNull(values) + (if v.Some? then [v.value] else [])
  {
    if values != [] {
      assert (values + [v])[1..] == values[1..] + [v];
      NonNullSnoc(values[1..], v);
    }
  }

  /** The `contact` cell: `N/A` without a contact; otherwise the non-null
      values of the first contact joined with ` | `. */
  function ContactLine(contacts: seq<ContactPoint>): string
  {
    if contacts == [] then "N/A" else JoinWith(NonNull(contacts[0].values), " | ")
  }

  /** Only the first contact is rendered, its values joined in order: a
      further non-null value adds ` | ` and the value (or just the value when
      there was none yet), a further null value changes nothing, and later
      contacts are ignored. */
  lemma ContactAppend(c: ContactPoint, more: seq<ContactPoint>, v: Option<string>)
    ensures ContactLine([c] + more) == ContactLine([c])
    ensures ContactLine([ContactPoint(c.values + [v])]) ==
      match v
      case None => ContactLine([c])
      case Some(x) => if NonNull(c.values) == [] then x else ContactLine([c]) + " | " + x
  {
    NonNullSnoc(c.values, v);
    var c' := ContactPoint(c.values + [v]);
    assert ContactLine([c']) == JoinWith(NonNull(c.values + [v]), " | ");
    assert ContactLine([c]) == JoinWith(NonNull(c.values), " | ");
    if v.Some? {
      JoinWithSnoc(NonNull(c.values), v.value, " | ");
    } else {
      assert NonNull(c.values + [v]) == NonNull(c.values);
    }
  }

  /** One distribution line without its newline: `# Key<padded>: value`. */
  function DistributionEntry(k: string, v: string): string
  {
    "# " + PadRight(Capitalize(k), LabelWidth) + ": " + v
  }

  /** The label column is 25 characters wide for keys that fit it, so every
      value starts in the same column. */
  lemma DistributionEntryColumns(k: string, v: string)
    requires |k| <= LabelWidth
    ensures var e := DistributionEntry(k, v);
      && e[..2] == "# "
      && e[2..2 + |k|] == Capitalize(k)
      && (forall i :: 2 + |k| <= i < 2 + LabelWidth ==> e[i] == ' ')
      && e[2 + LabelWidth..4 + LabelWidth] == ": "
      && e[4 + LabelWidth..] == v
  {
    var e := DistributionEntry(k, v);
    var pad := PadRight(Capitalize(k), LabelWidth);
    assert |pad| == LabelWidth;
    assert e == "# " + pad + ": " + v;
    assert e[2..2 + LabelWidth] == pad;
    assert e[2..2 + |k|] == pad[..|k|];
  }

  function DistributionEntries(keys: seq<string>, dist: Distribution): seq<string>
  {
    seq(|keys|, i requires 0 <= i < |keys| => DistributionEntry(keys[i], Get(dist, keys[i], "N/A")))
  }

  /** One comment block: a newline-terminated line per configured key, a
      missing field shown as `N/A`. */
  function DistributionBlock(keys: seq<string>, dist: Distribution): string
  {
    Concat(Terminated(DistributionEntries(keys, dist), '\n'))
  }

  /** Read back line by line, a distribution block is one entry per
      configured key, provided no key or value has a newline of its own. */
  lemma DistributionLines(keys: seq<string>, dist: Distribution)
    requires forall i :: 0 <= i < |keys| ==> '\n' !in keys[i] && '\n' !in Get(dist, keys[i], "N/A")
    ensures Split(DistributionBlock(keys, dist), '\n') == DistributionEntries(keys, dist) + [""]
  {
    var entries := DistributionEntries(keys, dist);
    forall i | 0 <= i < |entries| ensures '\n' !in entries[i] {
      CapitalizeNewlineFree(keys[i]);
    }
    SplitConcat(entries, '\n');
  }

  /** `dist["description"] = re.sub(r"\n+", " ", description)` when the
      distribution has a description. */
  function CleanDistribution(dist: Distribution): (r: Distribution)
    ensures r.Keys == dist.Keys
    ensures "description" in r ==> '\n' !in r["description"]
    ensures forall k :: k in dist && k != "description" ==> r[k] == dist[k]
  {
    if "description" in dist then dist["description" := CollapseNewlines(dist["description"])]
    else dist
  }

  /** `dist.get("downloadUrl", "")`. */
  function DownloadLink(dist: Distribution): string
  {
    Get(dist, "downloadUrl", "")
  }

  /** The loop over one dataset's distributions: it cleans each description
      in place and appends the block and the link of each distribution. */
  method BuildDistributionBlocks(keys: seq<string>, dists: seq<Distribution>)
    returns (blocks: seq<string>, links: seq<string>, cleaned: seq<Distribution>)
    ensures |blocks| == |dists| && |links| == |dists| && |cleaned| == |dists|
    ensures forall i :: 0 <= i < |dists| ==> cleaned[i] == CleanDistribution(dists[i])
    ensures forall i :: 0 <= i < |dists| ==> blocks[i] == DistributionBlock(keys, cleaned[i])
    ensures forall i :: 0 <= i < |dists| ==> links[i] == Get(dists[i], "downloadUrl", "")
  {
    blocks, links, cleaned := [], [], [];
    for j := 0 to |dists|
      invariant |blocks| == j && |links| == j && |cleaned| == j
      invariant forall i :: 0 <= i < j ==> cleaned[i] == CleanDistribution(dists[i])
      invariant forall i :: 0 <= i < j ==> blocks[i] == DistributionBlock(keys, cleaned[i])
      invariant forall i :: 0 <= i < j ==> links[i] == Get(dists[i], "downloadUrl", "")
    {
      var dist := dists[j];
      if "description" in dist {
        dist := dist["description" := CollapseNewlines(dist["description"])];
      }
      blocks := blocks + [DistributionBlock(keys, dist)];
      links := links + [DownloadLink(dist)];
      cleaned := cleaned + [dist];
    }
  }

  /** The first configured dataset key that is not a column of the frame. */
  function FirstMissing(keys: seq<string>, columns: set<string>): (r: Option<string>)
    ensures r.None? <==> forall i :: 0 <= i < |keys| ==> keys[i] in columns
    ensures r.Some? ==> exists i :: FirstMissingAt(keys, columns, i) && r.value == keys[i]
  {
    if keys == [] then None
    else if keys[0] !in columns then Some(keys[0])
    else
      var r := FirstMissing(keys[1..], columns);
      if r.Some? then
        var i :| FirstMissingAt(keys[1..], columns, i) && r.value == keys[1..][i];
        assert FirstMissingAt(keys, columns, i + 1) by {
          forall j | 0 <= j < i + 1 ensures keys[j] in columns {
            if j > 0 { assert keys[j] == keys[1..][j - 1]; }
          }
        }
        r
      else
        assert forall i :: 0 <= i < |keys| ==> keys[i] in columns by {
          forall i | 0 <= i < |keys| ensures keys[i] in columns {
            if i > 0 { assert keys[i] == keys[1..][i - 1]; }
          }
        }
        r
  }

  /** Key `i` is the first configured key that is not a column. */
  predicate FirstMissingAt(keys: seq<string>, columns: set<string>, i: int)
  {
    0 <= i < |keys| && keys[i] !in columns && forall j :: 0 <= j < i ==> keys[j] in columns
  }

  /** The column whose absence makes `data.loc[idx, ...]` raise `KeyError`:
      a configured key first, then `contactPoint`. */
  function MissingColumnOf(keys: seq<string>, columns: set<string>): Option<string>
  {
    match FirstMissing(keys, columns)
    case Some(k) => Some(k)
    case None => if "contactPoint" in columns then None else Some("contactPoint")
  }

  /** The prepared form of one row. */
  function PrepareRow(cfg: Config, d: Dataset): (p: Prepared)
  {
    var cleaned := seq(|d.distribution|, i requires 0 <= i < |d.distribution| =>
      CleanDistribution(d.distribution[i]));
    Prepared(
      d.(distribution := cleaned),
      MetadataBlock(cfg.keysDataset, d),
      ContactLine(d.contactPoint),
      seq(|cleaned|, i requires 0 <= i < |cleaned| => DistributionBlock(cfg.keysDistribution, cleaned[i])),
      seq(|cleaned|, i requires 0 <= i < |cleaned| => DownloadLink(cleaned[i])))
  }

  /** A prepared row: one block and one link per distribution, position `i`
      of both describing distribution `i`; a missing download URL gives `""`;
      no description is left with a newline; nothing else of the row changes. */
  lemma PrepareRowAligned(cfg: Config, d: Dataset)
    ensures var p := PrepareRow(cfg, d);
      && |p.distributions| == |d.distribution| && |p.distributionLinks| == |d.distribution|
      && |p.dataset.distribution| == |d.distribution|
      && (forall i :: 0 <= i < |d.distribution| ==>
            p.distributions[i] == DistributionBlock(cfg.keysDistribution, CleanDistribution(d.distribution[i])))
      && (forall i :: 0 <= i < |d.distribution| ==>
            p.distributionLinks[i] == Get(d.distribution[i], "downloadUrl", ""))
      && (forall i :: 0 <= i < |d.distribution| && "description" in p.dataset.distribution[i] ==>
            '\n' !in p.dataset.distribution[i]["description"])
      && p.dataset.(distribution := d.distribution) == d
  {
  }

  lemma PreparedFromBlocks(cfg: Config, d: Dataset, blocks: seq<string>, links: seq<string>,
                           cleaned: seq<Distribution>)
    requires |blocks| == |d.distribution| && |links| == |d.distribution| && |cleaned| == |d.distribution|
    requires forall i :: 0 <= i < |cleaned| ==> cleaned[i] == CleanDistribution(d.distribution[i])
    requires forall i :: 0 <= i < |cleaned| ==> blocks[i] == DistributionBlock(cfg.keysDistribution, cleaned[i])
    requires forall i :: 0 <= i < |cleaned| ==> links[i] == Get(d.distribution[i], "downloadUrl", "")
    ensures PrepareRow(cfg, d) == Prepared(d.(distribution := cleaned), MetadataBlock(cfg.keysDataset, d),
                                           ContactLine(d.contactPoint), blocks, links)
  {
    var p := PrepareRow(cfg, d);
    assert p.dataset.distribution == cleaned;
    assert p.distributions == blocks;
    assert p.distributionLinks == links;
  }

  /** `prepare_data_for_codebooks` on a frame, as a value: the four added
      columns join the frame's, and a column missing from both raises
      `KeyError` as soon as there is a row to look it up in. */
  function PrepareFrame(cfg: Config, f: Frame): Result<seq<Prepared>, Error>
  {
    var missing := MissingColumnOf(cfg.keysDataset, f.columns + AddedColumns);
    if f.rows != [] && missing.Some? then Err(MissingColumn(missing.value))
    else Ok(seq(|f.rows|, i requires 0 <= i < |f.rows| => PrepareRow(cfg, f.rows[i])))
  }

  /** `prepare_data_for_codebooks`: the loop over the row indices. */
  method PrepareData(cfg: Config, f: Frame) returns (r: Result<seq<Prepared>, Error>)
    ensures r.Err? <==> f.rows != [] && MissingColumnOf(cfg.keysDataset, f.columns + AddedColumns).Some?
    ensures r.Err? ==> r.error == MissingColumn(MissingColumnOf(cfg.keysDataset, f.columns + AddedColumns).value)
    ensures r.Ok? ==> |r.value| == |f.rows|
    ensures r.Ok? ==> forall i :: 0 <= i < |f.rows| ==> r.value[i] == PrepareRow(cfg, f.rows[i])
    ensures r == PrepareFrame(cfg, f)
  {
    var columns := f.columns + AddedColumns;
    var rows: seq<Prepared> := [];
    for idx := 0 to |f.rows|
      invariant |rows| == idx
      invariant idx > 0 ==> MissingColumnOf(cfg.keysDataset, columns).None?
      invariant forall i :: 0 <= i < idx ==> rows[i] == PrepareRow(cfg, f.rows[i])
    {
      var d := f.rows[idx];
      var missing := MissingColumnOf(cfg.keysDataset, columns);
      if missing.Some? {
        return Err(MissingColumn(missing.value));
      }
      var p := PrepareOne(cfg, d);
      var prev := rows;
      rows := rows + [p];
      assert forall i :: 0 <= i < |prev| ==> rows[i] == prev[i];
    }
    PreparedAll(cfg, f, rows);
    return Ok(rows);
  }

  /** A loop that prepared every row in order and found no column missing
      has built `PrepareFrame`'s value. */
  lemma PreparedAll(cfg: Config, f: Frame, rows: seq<Prepared>)
    requires |rows| == |f.rows|
    requires forall i :: 0 <= i < |f.rows| ==> rows[i] == PrepareRow(cfg, f.rows[i])
    requires f.rows != [] ==> MissingColumnOf(cfg.keysDataset, f.columns + AddedColumns).None?
    ensures PrepareFrame(cfg, f) == Ok(rows)
  {
    assert rows == seq(|f.rows|, i requires 0 <= i < |f.rows| => PrepareRow(cfg, f.rows[i]));
  }

  /** The body of the row loop: the metadata block, the contact line, and
      the inner loop over the distributions. */
  method PrepareOne(cfg: Config, d: Dataset) returns (p: Prepared)
    ensures p == PrepareRow(cfg, d)
  {
    var metadata := MetadataBlock(cfg.keysDataset, d);
    var contact := ContactLine(d.contactPoint);
    var blocks, links, cleaned := BuildDistributionBlocks(cfg.keysDistribution, d.distribution);
    PreparedFromBlocks(cfg, d, blocks, links, cleaned);
    p := Prepared(d.(distribution := cleaned), metadata, contact, blocks, links);
  }
}
