/** The row classifier of `unified_processor`: every selected row lands in
    exactly one of four buckets, and a run is the left-to-right replay of the
    selected rows over the five counters and the three output sinks. */
module Classifier {
  import opened Lookups
  import opened Manifest

  /** A table row as the CSV reader yields it: its fields, by position. */
  type Row = seq<string>

  /** The five keys of the `count` dictionary, in insertion order. */
  datatype Counter = Upw | Pmc | Discard | NoPdf | Total

  predicate HasFields(row: Row) {
    |row| >= 11
  }

  function PubmedId(row: Row): string
    requires HasFields(row)
  {
    row[0]
  }

  function PmcId(row: Row): string
    requires HasFields(row)
  {
    row[8]
  }

  function Doi(row: Row): string
    requires HasFields(row)
  {
    row[10]
  }

  /** Where one row ends up. */
  datatype Outcome =
    | ToMetadata(record: JsonObject)      // a record for the metadata sink
    | Discarded                           // no PubMed id to look a PDF up by
    | ToDump(doi: string, pmcId: string)  // the PDF lookup found no file
    | ToManifest(line: string)            // a manifest line for the PDF

  /** A row's outcome and the requests made while routing it, in order. */
  datatype Routed = Routed(outcome: Outcome, lookups: seq<Lookup>)

  /** The counter an outcome bumps besides `total`. */
  function CounterOf(outcome: Outcome): (c: Counter)
    ensures c != Total
  {
    match outcome
    case ToMetadata(_) => Upw
    case Discarded => Discard
    case ToDump(_, _) => NoPdf
    case ToManifest(_) => Pmc
  }

  /** The branch dispatch for one selected row. The first branch that matches
      wins: a non-empty doi with a non-empty metadata record goes to the
      metadata sink; otherwise an empty PubMed id discards the row; otherwise
      the PDF lookup decides between the dump (error) and the manifest (href).
      The metadata service is asked exactly when the doi is non-empty, the PDF
      service exactly when the row reaches the dump or the manifest, and in
      that order. */
  function Route(row: Row, email: string, upw: MetadataService, oa: PdfService): (r: Routed)
    requires HasFields(row)
    ensures r.outcome.ToMetadata?
      <==> Doi(row) != "" && UpwRequest(upw(Doi(row), email)) != map[]
    ensures r.outcome.ToMetadata? ==> r.outcome.record == UpwRequest(upw(Doi(row), email))
    ensures r.outcome.Discarded? <==> !r.outcome.ToMetadata? && PubmedId(row) == ""
    ensures r.outcome.ToDump?
      <==> !r.outcome.ToMetadata? && PubmedId(row) != "" && oa(PmcId(row)).OaError?
    ensures r.outcome.ToDump? ==> r.outcome == ToDump(Doi(row), PmcId(row))
    ensures r.outcome.ToManifest? ==>
      && oa(PmcId(row)).OaLink?
      && r.outcome.line
         == ManifestLine(RemovePrefix(oa(PmcId(row)).href, FtpPrefix), PmcId(row), PubmedId(row))
    ensures r.lookups
      == (if Doi(row) != "" then [MetadataLookup(Doi(row), email)] else [])
       + (if r.outcome.ToDump? || r.outcome.ToManifest? then [PdfLookup(PmcId(row))] else [])
  {
    var doi, pubmedId, pmcId := Doi(row), PubmedId(row), PmcId(row);
    var asked := if doi != "" then [MetadataLookup(doi, email)] else [];
    if doi != "" && UpwRequest(upw(doi, email)) != map[] then
      Routed(ToMetadata(UpwRequest(upw(doi, email))), asked)
    else if pubmedId == "" then
      Routed(Discarded, asked)
    else
      match oa(pmcId)
      case OaError => Routed(ToDump(doi, pmcId), asked + [PdfLookup(pmcId)])
      case OaLink(href) =>
        Routed(ToManifest(ManifestLine(RemovePrefix(href, FtpPrefix), pmcId, pubmedId)),
               asked + [PdfLookup(pmcId)])
  }

  /** The counters, the three sinks and the requests made so far in one run. */
  datatype RunState = RunState(
    count: map<Counter, int>,
    metadata: seq<JsonObject>,
    manifest: seq<string>,
    dump: seq<seq<string>>,
    lookups: seq<Lookup>)

  /** The dictionary holds exactly the five counters. */
  predicate Keyed(count: map<Counter, int>) {
    count.Keys == {Upw, Pmc, Discard, NoPdf, Total}
  }

  /** The state before the first row: all counters at zero, the manifest
      holding only its placeholder line, the other sinks empty. */
  function Initial(): (r: RunState)
    ensures Consistent(r) && r.count[Total] == 0
    ensures r.lookups == []
  {
    RunState(map[Upw := 0, Pmc := 0, Discard := 0, NoPdf := 0, Total := 0],
           [], [DatePlaceholder], [], [])
  }

  /** One classified row: `total` and the row's bucket go up by one, the
      bucket's sink gets the row's entry. */
  function Apply(r: RunState, routed: Routed): (next: RunState)
    requires Keyed(r.count)
    ensures Keyed(next.count)
    ensures next.count[Total] == r.count[Total] + 1
    ensures next.count[CounterOf(routed.outcome)] == r.count[CounterOf(routed.outcome)] + 1
    ensures forall c :: c in r.count && c != Total && c != CounterOf(routed.outcome) ==>
      next.count[c] == r.count[c]
    ensures next.lookups == r.lookups + routed.lookups
    ensures routed.outcome.ToMetadata? ==>
      next.metadata == r.metadata + [routed.outcome.record] && next.manifest == r.manifest && next.dump == r.dump
    ensures routed.outcome.Discarded? ==>
      next.metadata == r.metadata && next.manifest == r.manifest && next.dump == r.dump
    ensures routed.outcome.ToDump? ==>
      next.metadata == r.metadata && next.manifest == r.manifest
      && next.dump == r.dump + [[routed.outcome.doi, routed.outcome.pmcId]]
    ensures routed.outcome.ToManifest? ==>
      next.metadata == r.metadata && next.manifest == r.manifest + [routed.outcome.line] && next.dump == r.dump
  {
    var count := r.count[Total := r.count[Total] + 1];
    var lookups := r.lookups + routed.lookups;
    match routed.outcome
    case ToMetadata(record) =>
      RunState(count[Upw := count[Upw] + 1], r.metadata + [record], r.manifest, r.dump, lookups)
    case Discarded =>
      RunState(count[Discard := count[Discard] + 1], r.metadata, r.manifest, r.dump, lookups)
    case ToDump(doi, pmcId) =>
      RunState(count[NoPdf := count[NoPdf] + 1], r.metadata, r.manifest, r.dump + [[doi, pmcId]], lookups)
    case ToManifest(line) =>
      RunState(count[Pmc := count[Pmc] + 1], r.metadata, r.manifest + [line], r.dump, lookups)
  }

  predicate AllHaveFields(rows: seq<Row>) {
    forall row :: row in rows ==> HasFields(row)
  }

  /** The state after classifying `rows`, in order, from the initial state. */
  function Replay(rows: seq<Row>, email: string, upw: MetadataService, oa: PdfService): (r: RunState)
    requires AllHaveFields(rows)
    ensures Keyed(r.count)
    decreases |rows|
  {
    if rows == [] then Initial()
    else
      var last := rows[|rows| - 1];
      Apply(Replay(rows[..|rows| - 1], email, upw, oa), Route(last, email, upw, oa))
  }

  /** Classifying one more row is one more step. */
  lemma ReplaySnoc(init: seq<Row>, row: Row, email: string, upw: MetadataService, oa: PdfService)
    requires AllHaveFields(init) && HasFields(row)
    ensures AllHaveFields(init + [row])
    ensures Replay(init + [row], email, upw, oa) == Apply(Replay(init, email, upw, oa), Route(row, email, upw, oa))
  {
    var rows := init + [row];
    assert rows[..|rows| - 1] == init;
  }

  /** What every run keeps: counters never negative, the four buckets adding
      up to `total`, each sink as long as its counter, and the manifest
      starting with its placeholder line. */
  predicate Consistent(r: RunState) {
    && Keyed(r.count)
    && (forall c :: c in r.count ==> r.count[c] >= 0)
    && r.count[Total] == r.count[Upw] + r.count[Pmc] + r.count[Discard] + r.count[NoPdf]
    && |r.metadata| == r.count[Upw]
    && |r.manifest| == r.count[Pmc] + 1
    && r.manifest[0] == DatePlaceholder
    && |r.dump| == r.count[NoPdf]
  }

  /** `before` is a state on the way to `after`: no counter is higher and
      every sink and the request log are prefixes. */
  predicate Below(before: RunState, after: RunState) {
    && Keyed(before.count) && Keyed(after.count)
    && (forall c :: c in before.count ==> before.count[c] <= after.count[c])
    && before.metadata <= after.metadata
    && before.manifest <= after.manifest
    && before.dump <= after.dump
    && before.lookups <= after.lookups
  }

  /** One classified row keeps a consistent state consistent and only adds
      to the counters, the sinks and the log. */
  lemma ApplyStep(r: RunState, routed: Routed)
    requires Keyed(r.count)
    ensures Below(r, Apply(r, routed))
    ensures Consistent(r) ==> Consistent(Apply(r, routed))
  {
  }

  lemma BelowTransitive(a: RunState, b: RunState, c: RunState)
    requires Below(a, b) && Below(b, c)
    ensures Below(a, c)
  {
  }

  /** Every classified row counts once in `total` and once in exactly one
      bucket, and each sink grows in step with its counter. */
  lemma {:induction false} ReplayConsistent(rows: seq<Row>, email: string, upw: MetadataService, oa: PdfService)
    requires AllHaveFields(rows)
    ensures Consistent(Replay(rows, email, upw, oa))
    ensures Replay(rows, email, upw, oa).count[Total] == |rows|
    decreases |rows|
  {
    if rows != [] {
      var init := rows[..|rows| - 1];
      ReplayConsistent(init, email, upw, oa);
      ApplyStep(Replay(init, email, upw, oa), Route(rows[|rows| - 1], email, upw, oa));
    }
  }

  /** Counters never decrease and the sinks and the request log only grow:
      the state after a prefix of the rows is below the state after all of them. */
  lemma {:induction false} ReplayGrows(rows: seq<Row>, n: nat, email: string, upw: MetadataService, oa: PdfService)
    requires AllHaveFields(rows)
    requires n <= |rows|
    ensures Below(Replay(rows[..n], email, upw, oa), Replay(rows, email, upw, oa))
    decreases |rows|
  {
    if n < |rows| {
      var init := rows[..|rows| - 1];
      assert rows[..n] == init[..n];
      ReplayGrows(init, n, email, upw, oa);
      var mid := Replay(init, email, upw, oa);
      ApplyStep(mid, Route(rows[|rows| - 1], email, upw, oa));
      BelowTransitive(Replay(rows[..n], email, upw, oa), mid, Replay(rows, email, upw, oa));
    } else {
      assert rows[..n] == rows;
    }
  }

  /** The outcomes of `rows`, one per row, in order. */
  function Outcomes(rows: seq<Row>, email: string, upw: MetadataService, oa: PdfService): seq<Outcome>
    requires AllHaveFields(rows)
  {
    seq(|rows|, i requires 0 <= i < |rows| => Route(rows[i], email, upw, oa).outcome)
  }

  lemma OutcomesLast(rows: seq<Row>, email: string, upw: MetadataService, oa: PdfService)
    requires AllHaveFields(rows) && rows != []
    ensures Outcomes(rows, email, upw, oa)
         == Outcomes(rows[..|rows| - 1], email, upw, oa) + [Route(rows[|rows| - 1], email, upw, oa).outcome]
  {
    var init := rows[..|rows| - 1];
    assert forall i :: 0 <= i < |init| ==> init[i] == rows[i];
  }

  /** The metadata records among some outcomes, in order. */
  function Records(outcomes: seq<Outcome>): seq<JsonObject> {
    if outcomes == [] then []
    else (if outcomes[0].ToMetadata? then [outcomes[0].record] else []) + Records(outcomes[1..])
  }

  /** The manifest lines among some outcomes, in order. */
  function Lines(outcomes: seq<Outcome>): seq<string> {
    if outcomes == [] then []
    else (if outcomes[0].ToManifest? then [outcomes[0].line] else []) + Lines(outcomes[1..])
  }

  /** The dump rows `[doi, pmc_id]` among some outcomes, in order. */
  function DumpRows(outcomes: seq<Outcome>): seq<seq<string>> {
    if outcomes == [] then []
    else (if outcomes[0].ToDump? then [[outcomes[0].doi, outcomes[0].pmcId]] else []) + DumpRows(outcomes[1..])
  }

  lemma {:induction false} RecordsAppend(a: seq<Outcome>, b: seq<Outcome>)
    ensures Records(a + b) == Records(a) + Records(b)
  {
    if a == [] {
      assert a + b == b;
    } else {
      assert (a + b)[0] == a[0] && (a + b)[1..] == a[1..] + b;
      RecordsAppend(a[1..], b);
    }
  }

  lemma {:induction false} LinesAppend(a: seq<Outcome>, b: seq<Outcome>)
    ensures Lines(a + b) == Lines(a) + Lines(b)
  {
    if a == [] {
      assert a + b == b;
    } else {
      assert (a + b)[0] == a[0] && (a + b)[1..] == a[1..] + b;
      LinesAppend(a[1..], b);
    }
  }

  lemma {:induction false} DumpRowsAppend(a: seq<Outcome>, b: seq<Outcome>)
    ensures DumpRows(a + b) == DumpRows(a) + DumpRows(b)
  {
    if a == [] {
      assert a + b == b;
    } else {
      assert (a + b)[0] == a[0] && (a + b)[1..] == a[1..] + b;
      DumpRowsAppend(a[1..], b);
    }
  }

  /** One step appends to each sink what the row's outcome holds for it, so a
      state whose sinks are the filters of some outcomes moves to the filters
      of those outcomes and the new one. */
  lemma SinksStep(r: RunState, routed: Routed, before: seq<Outcome>)
    requires Keyed(r.count)
    requires r.metadata == Records(before) && r.manifest == [DatePlaceholder] + Lines(before)
    requires r.dump == DumpRows(before)
    ensures var next, after := Apply(r, routed), before + [routed.outcome];
      && next.metadata == Records(after)
      && next.manifest == [DatePlaceholder] + Lines(after)
      && next.dump == DumpRows(after)
  {
    RecordsAppend(before, [routed.outcome]);
    LinesAppend(before, [routed.outcome]);
    DumpRowsAppend(before, [routed.outcome]);
    ApplySinks(r, routed);
  }

  lemma ApplySinks(r: RunState, routed: Routed)
    requires Keyed(r.count)
    ensures Apply(r, routed).metadata == r.metadata + Records([routed.outcome])
    ensures Apply(r, routed).manifest == r.manifest + Lines([routed.outcome])
    ensures Apply(r, routed).dump == r.dump + DumpRows([routed.outcome])
  {
    var o := routed.outcome;
    assert [o][1..] == [];
  }

  /** What each sink holds after a run: the metadata sink the records of the
      rows routed to it, the manifest its placeholder line followed by the
      lines of the rows routed to it, and the dump the `[doi, pmc_id]` pairs
      of the rows routed to it, each in row order. */
  lemma {:induction false} ReplaySinks(rows: seq<Row>, email: string, upw: MetadataService, oa: PdfService)
    requires AllHaveFields(rows)
    ensures var r, outcomes := Replay(rows, email, upw, oa), Outcomes(rows, email, upw, oa);
      && r.metadata == Records(outcomes)
      && r.manifest == [DatePlaceholder] + Lines(outcomes)
      && r.dump == DumpRows(outcomes)
    decreases |rows|
  {
    if rows != [] {
      var init, last := rows[..|rows| - 1], rows[|rows| - 1];
      ReplaySinks(init, email, upw, oa);
      OutcomesLast(rows, email, upw, oa);
      SinksStep(Replay(init, email, upw, oa), Route(last, email, upw, oa), Outcomes(init, email, upw, oa));
    }
  }

  /** The request log is faithful: two services that agree on every request
      the run made produce the same run. So a service is never consulted
      outside the requests the log records. */
  lemma {:induction false} ReplayDependsOnlyOnLoggedLookups(
    rows: seq<Row>, email: string,
    upw1: MetadataService, oa1: PdfService, upw2: MetadataService, oa2: PdfService)
    requires AllHaveFields(rows)
    requires forall d, e :: MetadataLookup(d, e) in Replay(rows, email, upw1, oa1).lookups ==> upw1(d, e) == upw2(d, e)
    requires forall p :: PdfLookup(p) in Replay(rows, email, upw1, oa1).lookups ==> oa1(p) == oa2(p)
    ensures Replay(rows, email, upw1, oa1) == Replay(rows, email, upw2, oa2)
    decreases |rows|
  {
    if rows != [] {
      var init, last := rows[..|rows| - 1], rows[|rows| - 1];
      ReplayGrows(rows, |rows| - 1, email, upw1, oa1);
      assert rows[..|rows| - 1] == init;
      ReplayDependsOnlyOnLoggedLookups(init, email, upw1, oa1, upw2, oa2);
      var step := Route(last, email, upw1, oa1);
      assert forall l :: l in step.lookups ==> l in Replay(rows, email, upw1, oa1).lookups;
      if Doi(last) != "" {
        assert MetadataLookup(Doi(last), email) in step.lookups;
      }
      if step.outcome.ToDump? || step.outcome.ToManifest? {
        assert PdfLookup(PmcId(last)) in step.lookups;
      }
      assert step == Route(last, email, upw2, oa2);
    }
  }
}
