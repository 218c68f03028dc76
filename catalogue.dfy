/** The records the generator works on: the catalogue's datasets and
    distributions, the DataFrame that holds them, the settings read from
    the configuration file, and the errors that end a run. */
module Catalogue {
  import opened Wrappers

  /** One distribution dict: every field it has, with the text Python
      prints for its value. */
  type Distribution = map<string, string>

  /** One contact object: the values of its fields in insertion order,
      `None` standing for a JSON `null`. */
  datatype ContactPoint = ContactPoint(values: seq<Option<string>>)

  /** One row of the catalogue DataFrame. `contactPoint` is `[]` both for an
      empty list and for `None`; `fields` holds the printed cell of every
      other column this row has a value in. */
  datatype Dataset = Dataset(
    identifier: string,
    title: string,
    description: string,
    contactPoint: seq<ContactPoint>,
    distribution: seq<Distribution>,
    fields: map<string, string>)

  /** A pandas DataFrame: its column labels and its rows in index order. */
  datatype Frame = Frame(columns: set<string>, rows: seq<Dataset>)

  /** The settings the script reads from its configuration file. */
  datatype Config = Config(
    provider: string,
    titleMaxChars: nat,
    baseLinkDatashop: string,
    githubAccount: string,
    repoName: string,
    repoBranch: string,
    rMarkdownOutput: string,
    pythonOutput: string,
    keysDataset: seq<string>,
    keysDistribution: seq<string>)

  /** The exceptions that stop the run: a `ValueError` for an identifier
      prefix that is not an integer, a `KeyError` for a column the frame
      lacks, a `json.JSONDecodeError` for a notebook that does not parse,
      and the `ValueError` of `zip(..., strict=True)`. */
  datatype Error = NotAnInteger(prefix: string) | MissingColumn(name: string) | MalformedNotebook | ArityMismatch

  /** Python's `m.get(k, default)`. */
  function Get(m: map<string, string>, k: string, default: string): (v: string)
    ensures k in m ==> v == m[k]
    ensures k !in m ==> v == default
  {
    if k in m then m[k] else default
  }
}
