/** Keeping the datasets that offer a CSV file and ordering them by the
    number in front of their identifier (`has_csv_distribution`,
    `filter_csv`, `get_identifier_prefix`, `sort_data`). */
module Filtering {
  import opened Wrappers
  import opened Text
  import opened Catalogue

  /** `"CSV" in x.get("format", "")`: the test is case-sensitive, and a
      distribution without a format is not a CSV one. */
  function IsCsv(d: Distribution): (r: bool)
    ensures "format" !in d ==> !r
  {
    Contains(Get(d, "format", ""), "CSV")
  }

  /** `[x for x in dists if IsCsv(x)]`. */
  function CsvOnly(dists: seq<Distribution>): (r: seq<Distribution>)
    ensures forall i :: 0 <= i < |r| ==> IsCsv(r[i])
    ensures forall x :: multiset(r)[x] == if IsCsv(x) then multiset(dists)[x] else 0
  {
    if dists == [] then []
    else
      assert dists == [dists[0]] + dists[1..];
      if IsCsv(dists[0]) then [dists[0]] + CsvOnly(dists[1..]) else CsvOnly(dists[1..])
  }

  /** `a` is `b` with some elements left out, the rest in their order. */
  ghost predicate Subsequence<T>(a: seq<T>, b: seq<T>)
    decreases |b|
  {
    if a == [] then true
    else if b == [] then false
    else if a[0] == b[0] then Subsequence(a[1..], b[1..])
    else Subsequence(a, b[1..])
  }

  /** The CSV distributions keep their original order. */
  lemma {:induction false} CsvOnlyInOrder(dists: seq<Distribution>)
    ensures Subsequence(CsvOnly(dists), dists)
  {
    if dists != [] {
      CsvOnlyInOrder(dists[1..]);
      if !IsCsv(dists[0]) {
        var r := CsvOnly(dists);
        if r != [] {
          assert IsCsv(r[0]);
        }
      }
    }
  }

  /** `has_csv_distribution`: the CSV distributions, or `None` when there are
      none (`csv_dists or None`). */
  function HasCsvDistribution(dists: seq<Distribution>): (r: Option<seq<Distribution>>)
    ensures r.None? <==> forall i :: 0 <= i < |dists| ==> !IsCsv(dists[i])
    ensures r.Some? ==> r.value == CsvOnly(dists) && r.value != []
  {
    var csv := CsvOnly(dists);
    if csv == [] then
      assert forall i :: 0 <= i < |dists| ==> !IsCsv(dists[i]) by {
        forall i | 0 <= i < |dists| ensures !IsCsv(dists[i]) {
          assert multiset(dists)[dists[i]] > 0;
          assert multiset(csv)[dists[i]] == 0;
        }
      }
      None
    else
      assert IsCsv(csv[0]) && multiset(dists)[csv[0]] > 0;
      Some(csv)
  }

  /** A dataset with only its CSV distributions left. */
  function Strip(d: Dataset): Dataset
  {
    d.(distribution := CsvOnly(d.distribution))
  }

  /** The rows of `filter_csv`: `distribution` replaced by the result of
      `has_csv_distribution`, then the rows where that is `None` dropped. */
  function KeptRows(rows: seq<Dataset>): seq<Dataset>
  {
    if rows == [] then []
    else match HasCsvDistribution(rows[0].distribution)
      case None => KeptRows(rows[1..])
      case Some(csv) => [rows[0].(distribution := csv)] + KeptRows(rows[1..])
  }

  /** `filter_csv`: the columns stay; `reset_index` renumbers the rows. */
  function FilterCsv(f: Frame): (r: Frame)
    ensures r.columns == f.columns
  {
    Frame(f.columns, KeptRows(f.rows))
  }

  /** Every row has its CSV distributions, and only those, and at least one. */
  predicate CsvDataset(d: Dataset)
  {
    d.distribution != [] && forall j :: 0 <= j < |d.distribution| ==> IsCsv(d.distribution[j])
  }

  /** Every input row with only its CSV distributions left. */
  function StripAll(rows: seq<Dataset>): (r: seq<Dataset>)
    ensures |r| == |rows| && forall i :: 0 <= i < |rows| ==> r[i] == Strip(rows[i])
  {
    seq(|rows|, i requires 0 <= i < |rows| => Strip(rows[i]))
  }

  lemma StripAllTail(rows: seq<Dataset>)
    requires rows != []
    ensures StripAll(rows) == [Strip(rows[0])] + StripAll(rows[1..])
  {
  }

  /** Each survivor of `filter_csv` has a non-empty list made of CSV
      distributions only. */
  lemma {:induction false} FilterCsvOnlyCsv(rows: seq<Dataset>)
    ensures forall j :: 0 <= j < |KeptRows(rows)| ==> CsvDataset(KeptRows(rows)[j])
  {
    if rows != [] {
      FilterCsvOnlyCsv(rows[1..]);
    }
  }

  /** Each survivor is an input row with its non-CSV distributions removed
      and nothing else changed. */
  lemma {:induction false} FilterCsvFromInput(rows: seq<Dataset>)
    ensures forall j :: 0 <= j < |KeptRows(rows)| ==> KeptRows(rows)[j] in StripAll(rows)
  {
    if rows != [] {
      FilterCsvFromInput(rows[1..]);
      StripAllTail(rows);
    }
  }

  /** No input row with a CSV distribution is dropped: each stripped row
      that still has a CSV distribution survives as often as it occurs, and
      no other row survives. */
  lemma {:induction false} FilterCsvKeepsCsv(rows: seq<Dataset>)
    ensures forall x :: multiset(KeptRows(rows))[x] == if CsvDataset(x) then multiset(StripAll(rows))[x] else 0
    ensures forall i :: 0 <= i < |rows| && HasCsvDistribution(rows[i].distribution).Some? ==>
      Strip(rows[i]) in KeptRows(rows)
  {
    if rows != [] {
      FilterCsvKeepsCsv(rows[1..]);
      StripAllTail(rows);
      var s := Strip(rows[0]);
      var head: seq<Dataset> := if CsvDataset(s) then [s] else [];
      assert HasCsvDistribution(rows[0].distribution).Some? <==> CsvDataset(s);
      assert KeptRows(rows) == head + KeptRows(rows[1..]);
    }
    forall i | 0 <= i < |rows| && HasCsvDistribution(rows[i].distribution).Some?
      ensures Strip(rows[i]) in KeptRows(rows)
    {
      assert StripAll(rows)[i] == Strip(rows[i]);
      assert multiset(StripAll(rows))[Strip(rows[i])] > 0;
    }
  }

  /** The survivors keep their relative order. */
  lemma {:induction false} FilterCsvInOrder(rows: seq<Dataset>)
    ensures Subsequence(KeptRows(rows), StripAll(rows))
  {
    if rows != [] {
      FilterCsvInOrder(rows[1..]);
      StripAllTail(rows);
      if HasCsvDistribution(rows[0].distribution).None? {
        var r := KeptRows(rows);
        if r != [] {
          FilterCsvOnlyCsv(rows);
          assert CsvDataset(r[0]);
        }
      }
    }
  }

  /** `identifier.split("@")[0]`: the part of the identifier before the
      first `@`, or all of it when there is no `@`. */
  function IdentifierPrefix(identifier: string): (r: string)
    ensures r <= identifier && '@' !in r
    ensures '@' !in identifier ==> r == identifier
    ensures |r| < |identifier| ==> identifier[|r|] == '@'
  {
    Split(identifier, '@')[0]
  }

  /** The `id_short` sort key: the identifier prefix read as an integer. */
  function IdShort(d: Dataset): nat
  {
    ParseDecimal(IdentifierPrefix(d.identifier))
  }

  /** `astype(int)` succeeds: the prefix is a non-empty run of ASCII digits. */
  predicate NumericPrefix(d: Dataset)
  {
    IsDigits(IdentifierPrefix(d.identifier))
  }

  /** `rows` never decrease in `key`. */
  predicate SortedBy(rows: seq<Dataset>, key: Dataset -> nat)
  {
    forall i, j :: 0 <= i < j < |rows| ==> key(rows[i]) <= key(rows[j])
  }

  predicate SortedByIdShort(rows: seq<Dataset>)
  {
    SortedBy(rows, IdShort)
  }

  /** `d` inserted into `sorted` before the first row with a larger key. */
  function Insert(d: Dataset, sorted: seq<Dataset>, key: Dataset -> nat): (r: seq<Dataset>)
    requires SortedBy(sorted, key)
    ensures SortedBy(r, key)
    ensures multiset(r) == multiset(sorted) + multiset{d}
  {
    if sorted == [] then [d]
    else if key(d) <= key(sorted[0]) then
      assert forall k :: 0 <= k < |sorted| ==> key(d) <= key(sorted[k]);
      [d] + sorted
    else
      var rest := Insert(d, sorted[1..], key);
      assert sorted == [sorted[0]] + sorted[1..];
      InsertLowerBound(sorted[0], rest, sorted[1..], d, key);
      [sorted[0]] + rest
  }

  lemma InsertLowerBound(first: Dataset, rest: seq<Dataset>, tail: seq<Dataset>, d: Dataset, key: Dataset -> nat)
    requires multiset(rest) == multiset(tail) + multiset{d}
    requires key(first) < key(d)
    requires forall k :: 0 <= k < |tail| ==> key(first) <= key(tail[k])
    requires SortedBy(rest, key)
    ensures SortedBy([first] + rest, key)
  {
    forall k | 0 <= k < |rest| ensures key(first) <= key(rest[k]) {
      assert rest[k] in multiset(rest);
      if rest[k] != d {
        assert rest[k] in multiset(tail);
      }
    }
  }

  /** Insertion sort on `key`. */
  function SortRows(rows: seq<Dataset>, key: Dataset -> nat): (r: seq<Dataset>)
    ensures SortedBy(r, key)
    ensures multiset(r) == multiset(rows)
  {
    if rows == [] then []
    else
      assert rows == [rows[0]] + rows[1..];
      Insert(rows[0], SortRows(rows[1..], key), key)
  }

  /** Row `i` is the first whose prefix `astype(int)` rejects. */
  predicate FirstBadRow(rows: seq<Dataset>, i: int)
  {
    0 <= i < |rows| && !NumericPrefix(rows[i]) && forall j :: 0 <= j < i ==> NumericPrefix(rows[j])
  }

  /** The prefix of the first row whose prefix `astype(int)` rejects. */
  function FirstNonNumeric(rows: seq<Dataset>): (r: Option<string>)
    ensures r.None? <==> forall i :: 0 <= i < |rows| ==> NumericPrefix(rows[i])
    ensures r.Some? ==> exists i :: FirstBadRow(rows, i) && r.value == IdentifierPrefix(rows[i].identifier)
  {
    if rows == [] then None
    else if !NumericPrefix(rows[0]) then Some(IdentifierPrefix(rows[0].identifier))
    else
      var r := FirstNonNumeric(rows[1..]);
      if r.Some? then
        var i :| FirstBadRow(rows[1..], i) && r.value == IdentifierPrefix(rows[1..][i].identifier);
        assert FirstBadRow(rows, i + 1) by {
          forall j | 0 <= j < i + 1 ensures NumericPrefix(rows[j]) {
            if j > 0 { assert rows[j] == rows[1..][j - 1]; }
          }
        }
        r
      else
        assert forall i :: 0 <= i < |rows| ==> NumericPrefix(rows[i]) by {
          forall i | 0 <= i < |rows| ensures NumericPrefix(rows[i]) {
            if i > 0 { assert rows[i] == rows[1..][i - 1]; }
          }
        }
        r
  }

  /** The column `sort_data` adds, holding each row's `IdShort`. */
  const IdShortColumn := "id_short"

  /** `sort_data`: the `id_short` column added and the same rows, reordered
      so that `id_short` never decreases; a prefix that is not an integer
      stops the run. */
  function SortData(f: Frame): (r: Result<Frame, Error>)
    ensures r.Err? <==> exists i :: 0 <= i < |f.rows| && !NumericPrefix(f.rows[i])
    ensures r.Err? ==> exists i :: FirstBadRow(f.rows, i) && r.error == NotAnInteger(IdentifierPrefix(f.rows[i].identifier))
    ensures r.Ok? ==> r.value.columns == f.columns + {IdShortColumn}
    ensures r.Ok? ==> multiset(r.value.rows) == multiset(f.rows)
    ensures r.Ok? ==> SortedByIdShort(r.value.rows)
  {
    match FirstNonNumeric(f.rows)
    case Some(prefix) => Err(NotAnInteger(prefix))
    case None => Ok(Frame(f.columns + {IdShortColumn}, SortRows(f.rows, IdShort)))
  }
}
