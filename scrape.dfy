/** The script itself: the tool table, the results table with its N/A
    defaults, the search-and-overwrite loop and the report. File contents are
    an input map; a file name absent from it is a file that cannot be opened. */
module ScrapeSoftwareVersions {
  import opened Wrappers
  import opened Patterns
  import opened OrderedDicts
  import Report

  /** A tool: its name, the file holding its version output, and the pattern
      that extracts the version from that output. */
  datatype Tool = Tool(name: string, file: string, pattern: Pattern)

  /** The `regexes` table, in the order its entries are written. */
  const Tools: seq<Tool> := [
    Tool("nf-core/crisprvar", "v_pipeline.txt", AnyToken),
    Tool("Nextflow", "v_nextflow.txt", AnyToken),
    Tool("FastQC", "v_fastqc.txt", Pattern("FastQC v")),
    Tool("MultiQC", "v_multiqc.txt", Pattern("multiqc, version "))
  ]

  /** The keys the results table is initialised with, in order. */
  const ResultKeys: seq<string> := ["nf-core/crisprvar", "Nextflow", "FastQC", "MultiQC"]

  /** The muted "not available" value every entry starts with. */
  const Placeholder := "<span style=\"color:#999999;\">N/A</span>"

  /** `open` raising because a file cannot be opened; it aborts the run. */
  datatype Failure = CannotOpen(file: string)

  /** The contents of the files that can be opened, by file name. */
  type Files = map<string, string>

  /** The results table after its four initial assignments. */
  function InitialResults(): seq<Entry>
  {
    var d0 := Assign([], ResultKeys[0], Placeholder);
    var d1 := Assign(d0, ResultKeys[1], Placeholder);
    var d2 := Assign(d1, ResultKeys[2], Placeholder);
    Assign(d2, ResultKeys[3], Placeholder)
  }

  /** The value shown for tool `t` whose file holds `content`. */
  function DisplayValue(t: Tool, content: string): string
  {
    match Search(t.pattern, content)
    case None => Placeholder
    case Some(tok) => "v" + tok
  }

  /** One pass of the loop body: open the tool's file, search it, and on a
      match overwrite the tool's entry. An earlier failure is kept. */
  function Step(acc: Result<seq<Entry>, Failure>, t: Tool, files: Files): Result<seq<Entry>, Failure>
  {
    if acc.Err? then acc
    else if t.file !in files then Err(CannotOpen(t.file))
    else match Search(t.pattern, files[t.file])
      case None => acc
      case Some(tok) => Ok(Assign(acc.value, t.name, "v" + tok))
  }

  /** The loop run over the tools `ts`, starting from the initial table. */
  function Scan(ts: seq<Tool>, files: Files): Result<seq<Entry>, Failure>
    decreases |ts|
  {
    if ts == [] then Ok(InitialResults())
    else Step(Scan(ts[..|ts| - 1], files), ts[|ts| - 1], files)
  }

  /** The results table once the loop has run over every tool. */
  function Collected(files: Files): Result<seq<Entry>, Failure>
  {
    Scan(Tools, files)
  }

  /** The files of the first `n` tools can all be opened. */
  predicate Opens(files: Files, n: nat)
    requires n <= |Tools|
  {
    forall j :: 0 <= j < n ==> Tools[j].file in files
  }

  /** The value of entry `i` once the first `n` tools have been processed.
      The `else` branch covers only tools not yet processed: a file that
      cannot be opened never reaches it on a successful run, because the run
      fails instead (see `CollectedSpec`). */
  function ValueAfter(files: Files, n: nat, i: nat): string
    requires i < |Tools|
  {
    if i < n && Tools[i].file in files then DisplayValue(Tools[i], files[Tools[i].file]) else Placeholder
  }

  /** The results table once the first `n` tools have been processed. */
  function TableAfter(files: Files, n: nat): seq<Entry>
  {
    seq(|ResultKeys|, i requires 0 <= i < |ResultKeys| => (ResultKeys[i], ValueAfter(files, n, i)))
  }

  /** The four initial assignments leave every key, in order, holding the placeholder. */
  lemma InitialResultsArePlaceholders()
    ensures InitialResults() == seq(|ResultKeys|, i requires 0 <= i < |ResultKeys| => (ResultKeys[i], Placeholder))
  {
    var d0 := Assign([], ResultKeys[0], Placeholder);
    AssignNew([], ResultKeys[0], Placeholder);
    var d1 := Assign(d0, ResultKeys[1], Placeholder);
    AssignNew(d0, ResultKeys[1], Placeholder);
    var d2 := Assign(d1, ResultKeys[2], Placeholder);
    AssignNew(d1, ResultKeys[2], Placeholder);
    AssignNew(d2, ResultKeys[3], Placeholder);
  }

  /** The tools are keyed exactly like the results table, so the loop only
      overwrites keys that already exist. */
  lemma ToolsMatchResultKeys()
    ensures |Tools| == |ResultKeys| == 4
    ensures forall i :: 0 <= i < |Tools| ==> Tools[i].name == ResultKeys[i]
    ensures forall i, j :: 0 <= i < j < |ResultKeys| ==> ResultKeys[i] != ResultKeys[j]
  {
  }

  /** One pass of the loop for the `n`-th tool, whose file opens, takes the
      table after `n - 1` tools to the table after `n`: the tool's own entry
      gets its value and no other entry changes. */
  lemma StepOpens(files: Files, n: nat)
    requires 0 < n <= |Tools| && Tools[n - 1].file in files
    ensures Step(Ok(TableAfter(files, n - 1)), Tools[n - 1], files) == Ok(TableAfter(files, n))
  {
    ToolsMatchResultKeys();
    var t := Tools[n - 1];
    var before := TableAfter(files, n - 1);
    match Search(t.pattern, files[t.file])
    case None =>
      assert TableAfter(files, n) == before;
    case Some(tok) =>
      AssignExisting(before, t.name, "v" + tok, n - 1);
      assert TableAfter(files, n) == before[n - 1 := (t.name, "v" + tok)];
  }

  /** While every file opens, the loop over the first `n` tools yields the
      table whose first `n` entries hold their tools' values and whose other
      entries still hold the placeholder. */
  lemma {:induction false} ScanOpens(files: Files, n: nat)
    requires n <= |Tools| && Opens(files, n)
    ensures Scan(Tools[..n], files) == Ok(TableAfter(files, n))
  {
    if n == 0 {
      InitialResultsArePlaceholders();
      assert Tools[..0] == [];
      var table := TableAfter(files, 0);
      assert |table| == |InitialResults()|;
      forall i | 0 <= i < |table| ensures table[i] == InitialResults()[i] {
        assert ValueAfter(files, 0, i) == Placeholder;
      }
      assert table == InitialResults();
      assert Scan(Tools[..0], files) == Ok(InitialResults());
    } else {
      ScanOpens(files, n - 1);
      assert Tools[..n][..n - 1] == Tools[..n - 1];
      StepOpens(files, n);
    }
  }

  /** Once the loop has failed, later tools do not change the outcome. */
  lemma {:induction false} ScanStaysFailed(ts: seq<Tool>, n: nat, files: Files)
    requires n <= |ts| && Scan(ts[..n], files).Err?
    ensures Scan(ts, files) == Scan(ts[..n], files)
    decreases |ts|
  {
    if n < |ts| {
      var init := ts[..|ts| - 1];
      assert init[..n] == ts[..n];
      ScanStaysFailed(init, n, files);
    } else {
      assert ts[..n] == ts;
    }
  }

  /** The first tool, in processing order, whose file cannot be opened makes
      the whole run fail with that file; no placeholder stands in for it. */
  lemma CollectedFailsAtFirstMissing(files: Files, k: nat)
    requires k < |Tools| && Opens(files, k) && Tools[k].file !in files
    ensures Collected(files) == Err(CannotOpen(Tools[k].file))
  {
    ScanOpens(files, k);
    assert Tools[..k + 1][..k] == Tools[..k];
    ScanStaysFailed(Tools, k + 1, files);
  }

  /** The run succeeds exactly when all four files open, and then the table
      holds every tool's value in the results table's order. */
  lemma CollectedSpec(files: Files)
    ensures Collected(files).Ok? <==> Opens(files, |Tools|)
    ensures Opens(files, |Tools|) ==> Collected(files) == Ok(TableAfter(files, |Tools|))
  {
    if Opens(files, |Tools|) {
      ScanOpens(files, |Tools|);
      assert Tools[..|Tools|] == Tools;
    } else {
      var k := 0;
      while Tools[k].file in files
        invariant 0 <= k < |Tools| && Opens(files, k)
        decreases |Tools| - k
      {
        k := k + 1;
      }
      CollectedFailsAtFirstMissing(files, k);
    }
  }

  /** A tool shows the placeholder exactly when its pattern does not match;
      otherwise it shows "v" followed by a non-empty token free of whitespace. */
  lemma DisplayValueCases(t: Tool, content: string)
    ensures DisplayValue(t, content) == Placeholder <==> Search(t.pattern, content).None?
    ensures Search(t.pattern, content).Some? ==>
      var v := DisplayValue(t, content);
      |v| >= 2 && v[0] == 'v' && v[1..] == Search(t.pattern, content).value
      && forall k :: 1 <= k < |v| ==> !IsWhitespace(v[k])
  {
    match Search(t.pattern, content)
    case None =>
    case Some(tok) =>
      assert DisplayValue(t, content)[0] == 'v' != Placeholder[0];
  }

  /** Whatever the files hold, a successful run's table has exactly the keys
      `nf-core/crisprvar`, `Nextflow`, `FastQC`, `MultiQC`, in that order, and
      each holds its tool's value. */
  lemma CollectedEntries(files: Files)
    requires Collected(files).Ok?
    ensures KeysOf(Collected(files).value) == ["nf-core/crisprvar", "Nextflow", "FastQC", "MultiQC"]
    ensures |Collected(files).value| == |Tools|
    ensures forall i :: 0 <= i < |Tools| ==>
      Tools[i].file in files && Collected(files).value[i] == (Tools[i].name, DisplayValue(Tools[i], files[Tools[i].file]))
  {
    CollectedSpec(files);
    ToolsMatchResultKeys();
    assert KeysOf(Collected(files).value) == ResultKeys;
  }

  /** The value of each entry depends only on the contents of that tool's own
      file. */
  lemma CollectedIndependent(files1: Files, files2: Files, i: nat)
    requires Collected(files1).Ok? && Collected(files2).Ok? && i < |Tools|
    requires Tools[i].file in files1 && Tools[i].file in files2
    requires files1[Tools[i].file] == files2[Tools[i].file]
    ensures |Collected(files1).value| == |Collected(files2).value| == |Tools|
    ensures Collected(files1).value[i] == Collected(files2).value[i]
  {
    CollectedSpec(files1);
    CollectedSpec(files2);
    var t1, t2 := TableAfter(files1, |Tools|), TableAfter(files2, |Tools|);
    assert t1[i] == (ResultKeys[i], ValueAfter(files1, |Tools|, i));
    assert t2[i] == (ResultKeys[i], ValueAfter(files2, |Tools|, i));
  }

  /** Initialise the results table, then for each tool open its
      file, search it, and overwrite the tool's entry on a match. */
  method Collect(files: Files) returns (r: Result<seq<Entry>, Failure>)
    ensures r == Collected(files)
  {
    var results := new OrderedDict();
    results.Set("nf-core/crisprvar", Placeholder);
    results.Set("Nextflow", Placeholder);
    results.Set("FastQC", Placeholder);
    results.Set("MultiQC", Placeholder);
    assert Tools[..0] == [];
    var i := 0;
    while i < |Tools|
      invariant 0 <= i <= |Tools|
      invariant Scan(Tools[..i], files) == Ok(results.items)
    {
      var t := Tools[i];
      assert Tools[..i + 1][..i] == Tools[..i];
      if t.file !in files {
        ScanStaysFailed(Tools, i + 1, files);
        return Err(CannotOpen(t.file));
      }
      match Search(t.pattern, files[t.file]) {
        case Some(tok) => results.Set(t.name, "v" + tok);
        case None =>
      }
      i := i + 1;
    }
    assert Tools[..i] == Tools;
    r := Ok(results.items);
  }

  /** The whole script: collect the versions, then print the report. A file
      that cannot be opened aborts the run before anything is printed. */
  method Run(files: Files) returns (r: Result<seq<string>, Failure>)
    ensures r.Ok? <==> Opens(files, |Tools|)
    ensures r.Err? ==> Collected(files) == Err(r.error)
    ensures r.Ok? ==> Report.IsReport(r.value, TableAfter(files, |Tools|))
  {
    var table := Collect(files);
    CollectedSpec(files);
    match table
    case Err(e) =>
      r := Err(e);
    case Ok(entries) =>
      var lines := Report.Render(entries);
      r := Ok(lines);
  }

  /** `FastQC v0.11.9` in the FastQC output shows as `v0.11.9`. */
  lemma FastQcExample()
    ensures DisplayValue(Tools[2], "FastQC v0.11.9\n") == "v0.11.9"
  {
    var text := "FastQC v0.11.9\n";
    SearchLeftmost(Tools[2].pattern, text, 0);
    assert RunEnd(text, 8) == 14;
  }

  /** `multiqc, version 1.7` in the MultiQC output shows as `v1.7`. */
  lemma MultiQcExample()
    ensures DisplayValue(Tools[3], "multiqc, version 1.7\n") == "v1.7"
  {
    var text := "multiqc, version 1.7\n";
    SearchLeftmost(Tools[3].pattern, text, 0);
    assert RunEnd(text, 17) == 20;
  }
}
