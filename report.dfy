/** The YAML section printed on standard output, as the sequence of its lines
    (the printed text is each line followed by a newline). */
module Report {
  import opened OrderedDicts

  /** The triple-quoted header: it starts and ends with a newline and `print`
      adds one more, hence the empty first and last lines. */
  const Header: seq<string> := [
    "",
    "id: 'nf-core/crisprvar-software-versions'",
    "section_name: 'nf-core/crisprvar Software Versions'",
    "section_href: 'https://github.com/nf-core/crisprvar'",
    "plot_type: 'html'",
    "description: 'are collected at run time from the software output.'",
    "data: |",
    "    <dl class=\"dl-horizontal\">",
    ""
  ]

  const Footer := "    </dl>"

  /** One description-list row: `        <dt>{name}</dt><dd>{value}</dd>`. */
  function Row(name: string, value: string): string
  {
    "        <dt>" + name + "</dt><dd>" + value + "</dd>"
  }

  /** `lines` is the report for `entries`: the header, one row per entry in
      the table's order, then the closing tag. */
  predicate IsReport(lines: seq<string>, entries: seq<Entry>)
  {
    |lines| == |Header| + |entries| + 1
    && lines[..|Header|] == Header
    && (forall i :: 0 <= i < |entries| ==> lines[|Header| + i] == Row(entries[i].0, entries[i].1))
    && lines[|lines| - 1] == Footer
  }

  /** The report is determined by the table: rendering the same table twice
      gives the same lines. */
  lemma ReportUnique(a: seq<string>, b: seq<string>, entries: seq<Entry>)
    requires IsReport(a, entries) && IsReport(b, entries)
    ensures a == b
  {
    forall k | 0 <= k < |a| ensures a[k] == b[k] {
      if k < |Header| {
        assert a[k] == a[..|Header|][k] && b[k] == b[..|Header|][k];
      } else if k < |Header| + |entries| {
        var i := k - |Header|;
        assert a[|Header| + i] == Row(entries[i].0, entries[i].1) == b[|Header| + i];
      }
    }
  }

  /** The header `print` followed by the `for k, v in results.items()` loop
      and the closing `print`. */
  method Render(entries: seq<Entry>) returns (lines: seq<string>)
    ensures IsReport(lines, entries)
  {
    lines := Header;
    for i := 0 to |entries|
      invariant |lines| == |Header| + i
      invariant lines[..|Header|] == Header
      invariant forall j :: 0 <= j < i ==> lines[|Header| + j] == Row(entries[j].0, entries[j].1)
    {
      lines := lines + [Row(entries[i].0, entries[i].1)];
    }
    lines := lines + [Footer];
  }
}
