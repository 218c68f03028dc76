/** The overview document (`get_header`, `create_overview`): the header
    template with the dataset count and the run's timestamp, then a markdown
    table with one row of links per dataset. */
module Overview {
  import opened Text
  import opened Catalogue
  import opened Filtering

  /** `get_header`: the count first, then the timestamp, which is passed in
      rather than read from the clock. */
  function GetHeader(template: string, datasetCount: nat, now: string): string
  {
    Replace(Replace(template, "{{ DATASET_COUNT }}", NatToString(datasetCount)), "{{ TODAY_DATE }}", now)
  }

  /** With the count and the date tokens absent from what is substituted
      before them, a template `pre + count token + post` gets the decimal
      count in that place. */
  lemma GetHeaderCount(pre: string, post: string, datasetCount: nat, now: string)
    requires !Contains(pre + "{{ DATASET_COUNT }}"[..18], "{{ DATASET_COUNT }}")
    ensures GetHeader(pre + "{{ DATASET_COUNT }}" + post, datasetCount, now) ==
      Replace(pre + NatToString(datasetCount) + Replace(post, "{{ DATASET_COUNT }}", NatToString(datasetCount)),
              "{{ TODAY_DATE }}", now)
  {
    ReplaceFirst(pre, "{{ DATASET_COUNT }}", post, NatToString(datasetCount));
  }

  /** `title.replace("[", " ").replace("]", " ")`. */
  function CleanTitle(title: string): (r: string)
    ensures |r| == |title| && '[' !in r && ']' !in r
    ensures forall i :: 0 <= i < |title| ==>
      r[i] == if title[i] == '[' || title[i] == ']' then ' ' else title[i]
  {
    ReplaceChar(title, '[', ' ');
    var once := Replace(title, "[", " ");
    ReplaceChar(once, ']', ' ');
    Replace(once, "]", " ")
  }

  /** The ellipsis appended to a cut title. */
  const Ellipsis: char := '\U{2026}'

  /** A title longer than `maxChars` is cut to its first `maxChars`
      characters and marked with an ellipsis; a shorter one is kept. */
  function ShortTitle(title: string, maxChars: nat): (r: string)
    ensures |r| <= maxChars + 1
    ensures |title| <= maxChars ==> r == title
    ensures |title| > maxChars ==> |r| == maxChars + 1 && r[..maxChars] == title[..maxChars] && r[maxChars] == Ellipsis
  {
    if |title| > maxChars then title[..maxChars] + [Ellipsis] else title
  }

  /** The title cell of a row. */
  function DisplayTitle(title: string, maxChars: nat): string
  {
    ShortTitle(CleanTitle(title), maxChars)
  }

  /** The title cell never holds a square bracket, and is the cleaned title
      itself or a prefix of it followed by the ellipsis. */
  lemma DisplayTitleShape(title: string, maxChars: nat)
    ensures var r := DisplayTitle(title, maxChars);
      && '[' !in r && ']' !in r
      && |r| <= maxChars + 1
      && (r == CleanTitle(title) || (r[..maxChars] <= CleanTitle(title) && r[maxChars..] == [Ellipsis]))
  {
    var c := CleanTitle(title);
    var r := DisplayTitle(title, maxChars);
    if |c| > maxChars {
      assert r == c[..maxChars] + [Ellipsis];
      assert r[..maxChars] == c[..maxChars];
      forall k | 0 <= k < |r| ensures r[k] != '[' && r[k] != ']' {
        if k < maxChars {
          assert r[k] == c[k];
        }
      }
    }
  }

  /** Shortening a title that is already short changes nothing: a second
      pass leaves the title cell as it is, ellipsis included. */
  lemma DisplayTitleIdempotent(title: string, maxChars: nat)
    ensures DisplayTitle(DisplayTitle(title, maxChars), maxChars) == DisplayTitle(title, maxChars)
  {
    var r := DisplayTitle(title, maxChars);
    DisplayTitleShape(title, maxChars);
    var c := CleanTitle(r);
    assert c == r by {
      assert |c| == |r|;
      forall k | 0 <= k < |r| ensures c[k] == r[k] {
        assert r[k] in r;
      }
    }
    if |r| > maxChars {
      assert r == r[..maxChars] + [Ellipsis];
    }
  }

  /** The three base links of `create_overview`. */
  function RepoLink(host: string, cfg: Config, folder: string): string
  {
    "https://" + host + "/" + cfg.githubAccount + "/" + cfg.repoName + "/blob/" + cfg.repoBranch + "/" + folder
  }

  function RGitHubBase(cfg: Config): string { RepoLink("github.com", cfg, cfg.rMarkdownOutput) }
  function PyGitHubBase(cfg: Config): string { RepoLink("github.com", cfg, cfg.pythonOutput) }
  function PyColabBase(cfg: Config): string { RepoLink("githubtocolab.com", cfg, cfg.pythonOutput) }

  const ColabHost: string := "https://colab.research.google.com"

  /** The "Open In Colab" badge image that the Colab link shows. */
  const ColabBadge: string := "[![Open In Colab](" + ColabHost + "/assets/colab-badge.svg)]"

  /** The table's column heads, naming the configured title length. */
  function TableHead(cfg: Config): string
  {
    "| ID | Title (abbreviated to " + NatToString(cfg.titleMaxChars) + " chars) | Python Colab | Python GitHub | R GitHub |\n"
  }

  const TableRule: string := "| :-- | :-- | :-- | :-- | :-- |\n"

  /** The title cell: the shortened title as a link to the data shop. */
  function TitleLink(title: string, dsLink: string): string
  {
    "[" + title + "](" + dsLink + ")"
  }

  function RGitHubLink(cfg: Config, id: string): string
  {
    "[R GitHub](" + RGitHubBase(cfg) + id + ".Rmd)"
  }

  function PyGitHubLink(cfg: Config, id: string): string
  {
    "[Python GitHub](" + PyGitHubBase(cfg) + id + ".ipynb)"
  }

  function PyColabLink(cfg: Config, id: string): string
  {
    ColabBadge + "(" + PyColabBase(cfg) + id + ".ipynb)"
  }

  /** A table line of five cells. */
  function TableLine(a: string, b: string, c: string, d: string, e: string): string
  {
    "| " + a + " | " + b + " | " + c + " | " + d + " | " + e + " |\n"
  }

  /** The line opens with its first cell and closes with the final bar; it
      has no line break before its end when no cell has one. */
  lemma TableLineShape(a: string, b: string, c: string, d: string, e: string)
    ensures var line := TableLine(a, b, c, d, e);
      && line[..|a| + 5] == "| " + a + " | "
      && line[|line| - 3..] == " |\n"
      && ('\n' !in a + b + c + d + e ==> '\n' !in line[..|line| - 1])
  {
    var line := TableLine(a, b, c, d, e);
    var body := "| " + a + " | " + b + " | " + c + " | " + d + " | " + e + " |";
    assert line == body + "\n";
    assert line[..|line| - 1] == body;
    assert line[..|a| + 5] == ("| " + a + " | ") by {
      assert body == ("| " + a + " | ") + (b + " | " + c + " | " + d + " | " + e + " |");
    }
    if '\n' !in a + b + c + d + e {
      assert '\n' !in a && '\n' !in b && '\n' !in c && '\n' !in d && '\n' !in e;
      assert '\n' !in "| " && '\n' !in " | " && '\n' !in " |";
    }
  }

  /** One table row: the identifier's prefix, the title linked to the data
      shop, and the Colab, notebook and R Markdown links. */
  function OverviewRow(cfg: Config, d: Dataset): string
  {
    var id := d.identifier;
    TableLine(IdentifierPrefix(id), TitleLink(DisplayTitle(d.title, cfg.titleMaxChars), cfg.baseLinkDatashop + id),
              PyColabLink(cfg, id), PyGitHubLink(cfg, id), RGitHubLink(cfg, id))
  }

  /** A row opens with the identifier's prefix as its first cell and ends with
      the closing bar; when neither the identifier, the title nor the
      configured names have a line break, the row is exactly one line of the
      table. */
  lemma OverviewRowShape(cfg: Config, d: Dataset)
    ensures var row := OverviewRow(cfg, d);
      && row[..|IdentifierPrefix(d.identifier)| + 5] == "| " + IdentifierPrefix(d.identifier) + " | "
      && row[|row| - 3..] == " |\n"
    ensures var row := OverviewRow(cfg, d);
      ('\n' !in d.identifier && '\n' !in d.title && '\n' !in cfg.baseLinkDatashop && '\n' !in cfg.githubAccount
       && '\n' !in cfg.repoName && '\n' !in cfg.repoBranch && '\n' !in cfg.rMarkdownOutput && '\n' !in cfg.pythonOutput)
      ==> '\n' !in row[..|row| - 1]
  {
    var id := d.identifier;
    var p := IdentifierPrefix(id);
    var t := DisplayTitle(d.title, cfg.titleMaxChars);
    var b := TitleLink(t, cfg.baseLinkDatashop + id);
    TableLineShape(p, b, PyColabLink(cfg, id), PyGitHubLink(cfg, id), RGitHubLink(cfg, id));
    if '\n' !in d.identifier && '\n' !in d.title && '\n' !in cfg.baseLinkDatashop && '\n' !in cfg.githubAccount
       && '\n' !in cfg.repoName && '\n' !in cfg.repoBranch && '\n' !in cfg.rMarkdownOutput && '\n' !in cfg.pythonOutput {
      assert '\n' !in p by {
        forall k | 0 <= k < |p| ensures p[k] != '\n' { assert p[k] == id[k]; }
      }
      DisplayTitleNoBreak(d.title, cfg.titleMaxChars);
      LinksNoBreak(cfg, id);
      assert '\n' !in b;
      assert '\n' !in p + b + PyColabLink(cfg, id) + PyGitHubLink(cfg, id) + RGitHubLink(cfg, id);
    }
  }

  lemma DisplayTitleNoBreak(title: string, maxChars: nat)
    requires '\n' !in title
    ensures '\n' !in DisplayTitle(title, maxChars)
  {
    var c := CleanTitle(title);
    var t := DisplayTitle(title, maxChars);
    assert '\n' !in c by {
      forall k | 0 <= k < |title| ensures c[k] != '\n' {
        assert title[k] in title;
      }
    }
    forall k | 0 <= k < |t| ensures t[k] != '\n' {
      if |c| > maxChars && k < maxChars {
        assert t[k] == c[k];
      }
    }
  }

  lemma ColabBadgeNoBreak()
    ensures '\n' !in ColabBadge
  {
    assert '\n' !in ColabHost;
  }

  lemma RepoLinkNoBreak(host: string, cfg: Config, folder: string)
    requires '\n' !in host && '\n' !in folder
    requires '\n' !in cfg.githubAccount && '\n' !in cfg.repoName && '\n' !in cfg.repoBranch
    ensures '\n' !in RepoLink(host, cfg, folder)
  {
  }

  lemma LinksNoBreak(cfg: Config, id: string)
    requires '\n' !in id && '\n' !in cfg.githubAccount && '\n' !in cfg.repoName && '\n' !in cfg.repoBranch
    requires '\n' !in cfg.rMarkdownOutput && '\n' !in cfg.pythonOutput
    ensures '\n' !in PyColabLink(cfg, id) && '\n' !in PyGitHubLink(cfg, id) && '\n' !in RGitHubLink(cfg, id)
  {
    ColabBadgeNoBreak();
    RepoLinkNoBreak("github.com", cfg, cfg.rMarkdownOutput);
    RepoLinkNoBreak("github.com", cfg, cfg.pythonOutput);
    RepoLinkNoBreak("githubtocolab.com", cfg, cfg.pythonOutput);
  }

  /** One table row per dataset, in order. */
  function OverviewRows(cfg: Config, rows: seq<Dataset>): (r: seq<string>)
    ensures |r| == |rows| && forall i :: 0 <= i < |rows| ==> r[i] == OverviewRow(cfg, rows[i])
  {
    seq(|rows|, i requires 0 <= i < |rows| => OverviewRow(cfg, rows[i]))
  }

  /** The overview document's pieces: header, the two table lines, then one
      row per dataset in the frame's order. */
  function OverviewLines(cfg: Config, headerTemplate: string, now: string, rows: seq<Dataset>): seq<string>
  {
    [GetHeader(headerTemplate, |rows|, now), TableHead(cfg), TableRule] + OverviewRows(cfg, rows)
  }

  lemma OverviewLinesPointwise(cfg: Config, headerTemplate: string, now: string, rows: seq<Dataset>, mdDoc: seq<string>)
    requires |mdDoc| == 3 + |rows|
    requires mdDoc[0] == GetHeader(headerTemplate, |rows|, now)
    requires mdDoc[1] == TableHead(cfg) && mdDoc[2] == TableRule
    requires forall i :: 0 <= i < |rows| ==> mdDoc[3 + i] == OverviewRow(cfg, rows[i])
    ensures mdDoc == OverviewLines(cfg, headerTemplate, now, rows)
  {
    var tail := mdDoc[3..];
    assert tail == OverviewRows(cfg, rows) by {
      forall k | 0 <= k < |rows| ensures tail[k] == OverviewRows(cfg, rows)[k] {
        assert tail[k] == mdDoc[3 + k];
      }
    }
    assert mdDoc == [mdDoc[0], mdDoc[1], mdDoc[2]] + tail;
  }

  /** `create_overview`: the row loop appending to `md_doc`, and the joined
      text written to `README.md`. */
  method CreateOverview(cfg: Config, headerTemplate: string, now: string, rows: seq<Dataset>)
    returns (mdDoc: seq<string>, doc: string)
    ensures |mdDoc| == 3 + |rows|
    ensures mdDoc[0] == GetHeader(headerTemplate, |rows|, now)
    ensures mdDoc[1] == TableHead(cfg) && mdDoc[2] == TableRule
    ensures forall i :: 0 <= i < |rows| ==> mdDoc[3 + i] == OverviewRow(cfg, rows[i])
    ensures mdDoc == OverviewLines(cfg, headerTemplate, now, rows)
    ensures doc == Concat(mdDoc)
  {
    var header := GetHeader(headerTemplate, |rows|, now);
    mdDoc := [header, TableHead(cfg), TableRule];
    for idx := 0 to |rows|
      invariant |mdDoc| == 3 + idx
      invariant mdDoc[0] == header && mdDoc[1] == TableHead(cfg) && mdDoc[2] == TableRule
      invariant forall i :: 0 <= i < idx ==> mdDoc[3 + i] == OverviewRow(cfg, rows[i])
    {
      var row := BuildRow(cfg, rows[idx]);
      var prev := mdDoc;
      mdDoc := mdDoc + [row];
      assert forall i :: 0 <= i < |prev| ==> mdDoc[i] == prev[i];
    }
    OverviewLinesPointwise(cfg, headerTemplate, now, rows, mdDoc);
    doc := Concat(mdDoc);
  }

  /** The body of the row loop of `create_overview`: the prefix, the title
      cleaned and cut, and the four links of one dataset. */
  method BuildRow(cfg: Config, d: Dataset) returns (row: string)
    ensures row == OverviewRow(cfg, d)
  {
    var identifier := d.identifier;
    var idPrefix := IdentifierPrefix(identifier);
    var titleClean := CleanTitle(d.title);
    if |titleClean| > cfg.titleMaxChars {
      titleClean := titleClean[..cfg.titleMaxChars] + [Ellipsis];
    }
    assert titleClean == DisplayTitle(d.title, cfg.titleMaxChars);
    var dsLink := cfg.baseLinkDatashop + identifier;
    var rGhLink := RGitHubLink(cfg, identifier);
    var pyGhLink := PyGitHubLink(cfg, identifier);
    var pyColabLink := PyColabLink(cfg, identifier);
    row := TableLine(idPrefix, TitleLink(titleClean, dsLink), pyColabLink, pyGhLink, rGhLink);
  }
}
