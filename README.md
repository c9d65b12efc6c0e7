# nf-core/crisprvar software-version scraper, modelled in Dafny

`bin/scrape_software_versions.py` collects the versions of the pipeline and of
the tools it ran (Nextflow, FastQC, MultiQC), and prints them as a MultiQC
custom-content section. That section is a YAML document holding an HTML
description list. For each of four tools, the script opens a fixed file and
runs one regular expression over its text. When the expression matches, the
script replaces that tool's "N/A" placeholder with `v` followed by the
captured token. At the end it prints one `<dt>`/`<dd>` row per tool, in a
fixed order.

The model has five modules:

- `Wrappers` (`wrappers.dfy`): `Option` and `Result`.
- `Patterns` (`patterns.dfy`): the two expression shapes the script uses, the
  bare `(\S+)` and a literal prefix followed by `(\S+)`. Both are written as
  `Pattern(prefix)`. `Search` is `re.search(...).group(1)` for those shapes:
  it takes the leftmost position where the prefix is immediately followed by a
  non-whitespace character, then captures greedily up to the next whitespace
  or the end of the text.
- `OrderedDicts` (`ordered_dict.dfy`): the `OrderedDict` results table as a
  class. Its `items` field is the sequence of (key, value) pairs in insertion
  order, and `Set` is `d[key] = value`. `Assign` states what that assignment
  does.
- `Report` (`report.dfy`): the printed section as a sequence of lines. The
  printed text is each line followed by a newline. The triple-quoted header
  begins and ends with a newline, and `print` adds another, so the header is
  nine lines whose first and last are empty. Then come the rows, then
  `    </dl>`.
- `ScrapeSoftwareVersions` (`scrape.dfy`): the `regexes` table (`Tools`) and
  the results keys and placeholder. `Scan` and `Collected` are the loop as a
  left fold. `Collect` is the loop itself, running over an `OrderedDict`
  object. `Run` is the whole script.

The file system is an input `Files = map<string, string>` from file name to
contents. A name missing from the map is a file that `open` cannot open.

A missing file makes the run fail. The open at
`bin/scrape_software_versions.py:20` is not guarded, so a missing file raises
an exception and ends the script before anything is printed. The model
returns `Err(CannotOpen(file))` for the first such file in processing order.
It never shows the placeholder in that case: a missing file is not treated
like a pattern that does not match.

## Model

| member | source | states |
|---|---|---|
| Patterns.RunEnd | bin/scrape_software_versions.py:7-10 | The greedy `\S+` stops at the end of the maximal run: every character it passes is non-whitespace, and it stops at the end of the text or at a whitespace character |
| Patterns.FirstMatch | bin/scrape_software_versions.py:22 | Returns the leftmost position at or after `i` where the prefix occurs and is followed by a non-whitespace character, or none when no such position exists |
| Patterns.Search | bin/scrape_software_versions.py:22-23 | There is no match exactly when no position matches. A captured token is non-empty and contains no whitespace |
| Patterns.SearchLeftmost | bin/scrape_software_versions.py:9-10 | For a prefix pattern, the captured token comes from the leftmost matching occurrence of the prefix. It is the whole non-whitespace run after that prefix and is followed by whitespace or the end of the text |
| Patterns.AnyTokenNone | bin/scrape_software_versions.py:7-8 | `(\S+)` fails to match exactly when the text is empty or all whitespace |
| Patterns.AnyTokenFirst | bin/scrape_software_versions.py:7-8 | `(\S+)` captures the first whitespace-delimited token: the text is leading whitespace, then the token, then the end of the text or whitespace |
| OrderedDicts.KeysOf | bin/scrape_software_versions.py:36 | Gives the table's keys in iteration order, one per entry |
| OrderedDicts.AssignExisting | bin/scrape_software_versions.py:24 | Assigning to an existing key replaces that entry's value in place. Every other entry and the order stay the same |
| OrderedDicts.AssignNew | bin/scrape_software_versions.py:13-16 | Assigning to a new key appends the entry at the end |
| OrderedDicts.OrderedDict.constructor | bin/scrape_software_versions.py:12 | A new `OrderedDict` is empty |
| OrderedDicts.OrderedDict.Set | bin/scrape_software_versions.py:24 | `d[key] = value` performs `Assign` on the entries |
| Report.Render | bin/scrape_software_versions.py:27-38 | The output is the nine-line header, then exactly one `        <dt>{name}</dt><dd>{value}</dd>` line per entry in table order, then `    </dl>` |
| Report.ReportUnique | bin/scrape_software_versions.py:27-38 | The table fully determines the output, so the same table always gives the same lines |
| ScrapeSoftwareVersions.InitialResultsArePlaceholders | bin/scrape_software_versions.py:12-16 | After the four initial assignments, the table holds the four keys in order, each with the N/A placeholder |
| ScrapeSoftwareVersions.ToolsMatchResultKeys | bin/scrape_software_versions.py:6-16 | The keys of the `regexes` table are the results keys, in the same order and without repeats, so line 24 only overwrites existing keys |
| ScrapeSoftwareVersions.DisplayValueCases | bin/scrape_software_versions.py:22-24 | A tool's value is the placeholder exactly when its pattern does not match. Otherwise it is `v` followed by the non-empty, whitespace-free captured token |
| ScrapeSoftwareVersions.StepOpens | bin/scrape_software_versions.py:19-24 | One loop pass for a tool whose file opens changes only that tool's entry. The entry gets the tool's value |
| ScrapeSoftwareVersions.ScanOpens | bin/scrape_software_versions.py:19-24 | While every file opens, after the first `n` tools those tools' entries hold their values and the rest still hold the placeholder |
| ScrapeSoftwareVersions.ScanStaysFailed | bin/scrape_software_versions.py:20 | Once an `open` has failed, the remaining tools do not change the outcome |
| ScrapeSoftwareVersions.CollectedFailsAtFirstMissing | bin/scrape_software_versions.py:20 | If a tool's file cannot be opened, the run fails with the first such file. No placeholder is substituted for it |
| ScrapeSoftwareVersions.CollectedSpec | bin/scrape_software_versions.py:19-24 | The loop succeeds exactly when all four files open. The result is then the table of every tool's value, in the results order |
| ScrapeSoftwareVersions.CollectedEntries | bin/scrape_software_versions.py:12-24 | A successful table has exactly the keys `nf-core/crisprvar`, `Nextflow`, `FastQC`, `MultiQC`, in that order, whatever matched. Each key holds its tool's value |
| ScrapeSoftwareVersions.CollectedIndependent | bin/scrape_software_versions.py:19-24 | Each entry depends only on the contents of that tool's own file |
| ScrapeSoftwareVersions.Collect | bin/scrape_software_versions.py:12-24 | The loop over the `OrderedDict` computes the table the fold `Collected` specifies, including the failure for a file that cannot be opened |
| ScrapeSoftwareVersions.Run | bin/scrape_software_versions.py:6-38 | The run prints a report exactly when all four files open. A failed run fails with the loop's error. A report is the rendering of the table of every tool's value |
| ScrapeSoftwareVersions.FastQcExample | bin/scrape_software_versions.py:9 | FastQC output `FastQC v0.11.9` shows as `v0.11.9` |
| ScrapeSoftwareVersions.MultiQcExample | bin/scrape_software_versions.py:10 | MultiQC output `multiqc, version 1.7` shows as `v1.7` |

## Left out

- Opening and reading files (lines 20-21): file contents are the `Files` input map. Errors other than "cannot open", such as a read error or a decoding error, are not modelled.
- Writing to standard output (lines 27-38): the report is returned as a sequence of lines.
- Python's general regular-expression engine: only the two shapes the script uses are modelled. These are the bare `(\S+)` and a literal prefix followed by `(\S+)`.
- Patterns.IsWhitespace: this follows Python 3's `\s` on text, the characters for which `str.isspace()` holds. Under Python 2 on byte strings, `\s` covers only space, tab, newline, carriage return, form feed and vertical tab.
- Processing order: the loop goes through `regexes` in the order its entries are written, which is the iteration order of Python 3.7 and later. Under older interpreters, a different order would only change which missing file is reported when several are missing.
