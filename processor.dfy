/** `unified_processor`: count the lines, clamp the sample size, draw the
    sorted selection, walk the table once with two cursors classifying the
    selected rows, then decide which output files to delete and return the
    counters. The per-year report driver closes the module. */
module Processor {
  import opened Wrappers
  import opened LineCounter
  import opened Sampling
  import opened Lookups
  import opened Manifest
  import opened Classifier

  /** The rows at the first `m` selected positions, in selection order. */
  function SelectedRows(rows: seq<Row>, selection: seq<int>, m: nat): seq<Row>
    requires m <= |selection|
    requires forall j :: 0 <= j < m ==> 0 <= selection[j] < |rows|
  {
    seq(m, j requires 0 <= j < m => rows[selection[j]])
  }

  /** The rows a selection names carry the three columns the classifier reads. */
  predicate SelectedHaveFields(rows: seq<Row>, selection: seq<int>) {
    forall j :: 0 <= j < |selection| && 0 <= selection[j] < |rows| ==> HasFields(rows[selection[j]])
  }

  /** What the row loop computes: the replay of the rows at the selected
      positions that exist in the table, in ascending position order. */
  function Run(rows: seq<Row>, selection: seq<int>, email: string,
               upw: MetadataService, oa: PdfService): RunState
    requires forall j :: 0 <= j < |selection| ==> 1 <= selection[j]
    requires SelectedHaveFields(rows, selection)
  {
    var m := Reachable(selection, |rows|);
    Replay(SelectedRows(rows, selection, m), email, upw, oa)
  }

  /** Classifying the next selected row extends the replay by one step. */
  lemma ReplayNextSelected(rows: seq<Row>, selection: seq<int>, m: nat, email: string,
                           upw: MetadataService, oa: PdfService)
    requires m < |selection|
    requires forall j :: 0 <= j <= m ==> 0 <= selection[j] < |rows|
    requires SelectedHaveFields(rows, selection)
    ensures AllHaveFields(SelectedRows(rows, selection, m + 1))
    ensures HasFields(rows[selection[m]])
    ensures Replay(SelectedRows(rows, selection, m + 1), email, upw, oa)
         == Apply(Replay(SelectedRows(rows, selection, m), email, upw, oa),
                  Route(rows[selection[m]], email, upw, oa))
  {
    var picked := SelectedRows(rows, selection, m + 1);
    assert picked == SelectedRows(rows, selection, m) + [rows[selection[m]]];
    ReplaySnoc(SelectedRows(rows, selection, m), rows[selection[m]], email, upw, oa);
  }

  /** The body of the row loop for one selected row: bump `total`, then take
      the first branch that matches and write to its sink. Its effect on the
      counters, the sinks and the request log is one step of the classifier. */
  method ClassifyRow(row: Row, count: map<Counter, int>, jsonl: seq<JsonObject>, txt: seq<string>,
                     dumpRows: seq<seq<string>>, lookups: seq<Lookup>,
                     email: string, upw: MetadataService, oa: PdfService)
    returns (count': map<Counter, int>, jsonl': seq<JsonObject>, txt': seq<string>,
             dumpRows': seq<seq<string>>, lookups': seq<Lookup>)
    requires HasFields(row)
    requires Keyed(count)
    ensures RunState(count', jsonl', txt', dumpRows', lookups')
         == Apply(RunState(count, jsonl, txt, dumpRows, lookups), Route(row, email, upw, oa))
  {
    count', jsonl', txt', dumpRows', lookups' := count, jsonl, txt, dumpRows, lookups;
    count' := count'[Total := count'[Total] + 1];
    var pmcId, pubmedId, doi := row[8], row[0], row[10];
    if doi != "" {
      lookups' := lookups' + [MetadataLookup(doi, email)];
      var jsonData := UpwRequest(upw(doi, email));
      if jsonData != map[] {
        jsonl' := jsonl' + [jsonData];
        count' := count'[Upw := count'[Upw] + 1];
        return;
      }
    }
    // no PubMed id: nothing to look a PDF up by
    if pubmedId == "" {
      count' := count'[Discard := count'[Discard] + 1];
      return;
    }
    lookups' := lookups' + [PdfLookup(pmcId)];
    var dataOa := oa(pmcId);
    var path: Option<string> := None;
    if !dataOa.OaError? {
      path := Some(dataOa.href);
    }
    // no PDF to download
    if path == None {
      count' := count'[NoPdf := count'[NoPdf] + 1];
      dumpRows' := dumpRows' + [[doi, pmcId]];
      return;
    }
    var subpath := RemovePrefix(path.value, FtpPrefix);
    var outputLine := ManifestLine(subpath, pmcId, pubmedId);
    txt' := txt' + [outputLine];
    count' := count'[Pmc := count'[Pmc] + 1];
  }

  /** The row loop. `position` is the ordinal of the current row (0 is the
      header), `samplePosition` the index of the next unconsumed selection
      entry. The header and every row whose position is not the next selected
      one are skipped; the loop stops once `sampleSize` rows were classified.
      The result is the replay of the selected rows that exist, in ascending
      position order; `total` is the number of selection entries consumed,
      which is `sampleSize` unless the table ran out first. */
  method ProcessRows(rows: seq<Row>, selection: seq<int>, sampleSize: nat, email: string,
                     upw: MetadataService, oa: PdfService)
    returns (state: RunState)
    requires |selection| == sampleSize
    requires StrictlyIncreasing(selection)
    requires forall j :: 0 <= j < |selection| ==> 1 <= selection[j]
    requires SelectedHaveFields(rows, selection)
    ensures state == Run(rows, selection, email, upw, oa)
    ensures state.count[Total] == Reachable(selection, |rows|) <= sampleSize
    ensures state.count[Total] < sampleSize ==> selection[state.count[Total]] >= |rows|
  {
    var count := map[Upw := 0, Pmc := 0, Discard := 0, NoPdf := 0, Total := 0];
    var jsonl: seq<JsonObject> := [];
    var txt: seq<string> := [DatePlaceholder];
    var dumpRows: seq<seq<string>> := [];
    var lookups: seq<Lookup> := [];
    var position: nat := 0;
    var samplePosition: nat := 0;
    for i := 0 to |rows|
      invariant position == i
      invariant samplePosition <= sampleSize
      invariant forall j :: 0 <= j < samplePosition ==> selection[j] < position
      invariant samplePosition < sampleSize ==> selection[samplePosition] >= position
      invariant AllHaveFields(SelectedRows(rows, selection, samplePosition))
      invariant RunState(count, jsonl, txt, dumpRows, lookups)
        == Replay(SelectedRows(rows, selection, samplePosition), email, upw, oa)
      invariant count[Total] == samplePosition
    {
      if samplePosition == sampleSize {
        break;
      }
      // the header
      if position == 0 {
        position := position + 1;
        continue;
      }
      // a row that is not selected
      if position != selection[samplePosition] {
        position := position + 1;
        continue;
      }
      var row := rows[i];
      ReplayNextSelected(rows, selection, samplePosition, email, upw, oa);
      count, jsonl, txt, dumpRows, lookups :=
        ClassifyRow(row, count, jsonl, txt, dumpRows, lookups, email, upw, oa);
      samplePosition := samplePosition + 1;
      position := position + 1;
    }
    state := RunState(count, jsonl, txt, dumpRows, lookups);
    ReachableIs(selection, |rows|, samplePosition);
  }

  /** The cut where the loop stops in a sorted selection, with every entry
      before it naming a row and the entry at it (if any) naming none, is
      the reachable prefix. */
  lemma ReachableIs(selection: seq<int>, rowCount: nat, m: nat)
    requires m <= |selection|
    requires forall j :: 0 <= j < m ==> selection[j] < rowCount
    requires m < |selection| ==> selection[m] >= rowCount
    ensures Reachable(selection, rowCount) == m
  {
  }

  /** `count.values()`: the counters in the dictionary's insertion order
      upw, pmc, discard, no_pdf, total, the order of the report columns
      UPW, PMC, NoPubMed, NoPDF, Total. */
  function CountValues(count: map<Counter, int>): (values: seq<int>)
    requires Keyed(count)
    ensures |values| == |ReportHeader| - 1
    ensures forall i :: 0 <= i < |values| ==>
      exists c :: c in count && Column(c) == ReportHeader[i + 1] && values[i] == count[c]
  {
    assert Column(Upw) == ReportHeader[1] && Column(Pmc) == ReportHeader[2];
    assert Column(Discard) == ReportHeader[3] && Column(NoPdf) == ReportHeader[4];
    assert Column(Total) == ReportHeader[5];
    [count[Upw], count[Pmc], count[Discard], count[NoPdf], count[Total]]
  }

  /** The report column that shows a counter. */
  function Column(c: Counter): string {
    match c
    case Upw => "UPW"
    case Pmc => "PMC"
    case Discard => "NoPubMed"
    case NoPdf => "NoPDF"
    case Total => "Total"
  }

  /** The header of the per-field report. */
  const ReportHeader: seq<string> := ["Year", "UPW", "PMC", "NoPubMed", "NoPDF", "Total"]

  /** In a consistent state the returned `total` is the sum of the four
      buckets, the manifest holds nothing but its placeholder line exactly
      when no row went to `pmc`, and the dump is empty exactly when no row
      went to `no_pdf`. So the removal tests of the source, made on the
      counters, remove exactly the files that hold no row. */
  lemma RemovalDecisions(r: RunState)
    requires Consistent(r)
    ensures var values := CountValues(r.count);
      values[4] == values[0] + values[1] + values[2] + values[3] == r.count[Total]
    ensures r.count[Pmc] == 0 <==> r.manifest == [DatePlaceholder]
    ensures r.count[NoPdf] == 0 <==> r.dump == []
  {
    if r.count[Pmc] == 0 {
      assert r.manifest == [r.manifest[0]];
    }
  }

  /** One finished run: the returned counters, the final state, and whether
      the manifest file and the dump file are removed afterwards. */
  datatype RunResult = RunResult(values: seq<int>, state: RunState, removeManifest: bool, removeDump: bool)

  /** A whole run for one field and year, from the raw table bytes (for the
      line count) and its parsed rows. `selection` stands for the sorted
      random draw: when the draw can happen it is a valid selection of the
      clamped size. The run fails exactly where `random.sample` raises;
      otherwise it classifies the reachable selected rows, removes the
      manifest exactly when it holds nothing but its placeholder line and
      the dump exactly when it is empty, and returns the counters in report
      column order, with `total` the sum of the four buckets and at most the
      clamped sample size. */
  method UnifiedProcessor(file: seq<byte>, rows: seq<Row>, requested: int, selection: seq<int>,
                          email: string, upw: MetadataService, oa: PdfService)
    returns (result: Result<RunResult, SampleError>)
    requires var k := ClampSampleSize(requested, NewlinesIn(file) - 1);
      k >= 0 ==> IsSelection(selection, k, NewlinesIn(file) - 1)
    requires SelectedHaveFields(rows, selection)
    ensures result.Ok? <==> 0 <= requested && 2 <= NewlinesIn(file)
    ensures result.Err? ==> result == Err(NegativeSampleSize(ClampSampleSize(requested, NewlinesIn(file) - 1)))
    ensures result.Ok? ==>
      var run := result.value;
      && |selection| == ClampSampleSize(requested, NewlinesIn(file) - 1)
      && run.state == Run(rows, selection, email, upw, oa)
      && Consistent(run.state)
      && run.values == CountValues(run.state.count)
      && run.values[4] == run.values[0] + run.values[1] + run.values[2] + run.values[3] <= |selection|
      && (run.removeManifest <==> run.state.manifest == [DatePlaceholder])
      && (run.removeDump <==> run.state.dump == [])
  {
    var lineCount := FastLineCount(file, true);
    var plan := PlanSample(requested, lineCount);
    if plan.Err? {
      return Err(plan.error);
    }
    var sampleSize := plan.value;
    var state := ProcessRows(rows, selection, sampleSize, email, upw, oa);
    ReplayConsistent(SelectedRows(rows, selection, Reachable(selection, |rows|)), email, upw, oa);
    assert Consistent(state);
    var removeManifest := state.count[Pmc] == 0;
    var removeDump := state.count[NoPdf] == 0;
    RemovalDecisions(state);
    result := Ok(RunResult(CountValues(state.count), state, removeManifest, removeDump));
  }

  /** What the driver leaves in the report file: the rows written so far
      and, when a year's run raised, its error. */
  datatype ReportFile<E> = ReportFile(rows: seq<seq<int>>, failure: Option<E>)

  /** The driver's report body: one row per year from `start` to `end`
      inclusive, each the year followed by what that year's run returned.
      The rows are written as the years go, and an error in one year ends the
      driver, so the file keeps the rows of the years before it. */
  function ReportRows<E>(start: int, end: int, run: int -> Result<seq<int>, E>): (file: ReportFile<E>)
    ensures forall year :: start <= year < start + |file.rows| ==>
      run(year).Ok? && file.rows[year - start] == [year] + run(year).value
    ensures file.failure.None? ==> |file.rows| == if start <= end then end - start + 1 else 0
    ensures file.failure.Some? ==>
      start + |file.rows| <= end && run(start + |file.rows|) == Err(file.failure.value)
    decreases end - start
  {
    if start > end then ReportFile([], None)
    else if run(start).Err? then ReportFile([], Some(run(start).error))
    else
      var rest := ReportRows(start + 1, end, run);
      var file := ReportFile([[start] + run(start).value] + rest.rows, rest.failure);
      assert forall year :: start + 1 <= year < start + |file.rows| ==>
        run(year).Ok? && file.rows[year - start] == rest.rows[year - (start + 1)] == [year] + run(year).value;
      file
  }
}
