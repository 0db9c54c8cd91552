# unified-csv-processor: sampling and classification core in Dafny

This project models the harvesting pipeline of `unifiedprocessor.py`. For
one field and year it counts the lines of a bibliography CSV export. It
clamps the requested sample size and takes a sorted selection of row
positions. It then reads the table once and routes each selected row to one
of four buckets:

- `upw`: a metadata record for the JSON-lines sink;
- `discard`: the row has no PubMed id;
- `no_pdf`: a `(doi, pmc_id)` pair goes to the dump CSV;
- `pmc`: a tab-separated line goes to the PDF manifest.

After the run it decides which empty output files to remove and returns the
five counters.

Modules, one per component:

- `Wrappers` (`wrappers.dfy`): Option and Result.
- `LineCounter` (`line_counter.dfy`): `fast_line_count` as a chunked loop
  over bytes. It is proved equal to the number of newline bytes in the file.
- `Sampling` (`sampling.dfy`): the sample-size clamp and the size check of
  `random.sample`. Also the conditions a selection meets and how much of a
  selection the row loop can reach.
- `Lookups` (`lookups.dfy`): the two remote services as oracle functions,
  the error filter of `upw_request`, and the request log.
- `Manifest` (`manifest.dfy`): `removeprefix` and the five-field manifest
  line. The line is proved to split back into its fields.
- `Classifier` (`classifier.dfy`): branch dispatch for one row (`Route`).
  One step over the counters and sinks (`Apply`). A run as the replay of the
  selected rows (`Replay`), with its invariants.
- `Processor` (`processor.dfy`): the two-cursor row loop (`ProcessRows`) and
  its body (`ClassifyRow`). Also the whole run with its deletion decisions
  and return order (`UnifiedProcessor`), and the per-year report rows of the
  driver.

The metadata service, the PDF-location service and the random draw are
inputs. The metadata service is a function from `(doi, email)` to the
parsed JSON body. The PDF-location service is a function from a PMC id to
the parsed `OA` element, which is either an error or a link href. The draw
is a selection sequence that meets the conditions of `Sampling.IsSelection`.
Every request a row makes is appended to a request log. This lets the
contracts say which rows consult which service.

Four edge cases follow the code rather than the intent its comments and
names suggest:

- An `OA` element with no error and no link is not "no path found". Line
  178 raises `KeyError` and aborts the run. The model's PDF response type
  cannot express that case (see "Left out").
- A table whose line count with the header removed is 0 or less does not
  give an empty run. The clamp yields a negative size (line_count - 1, or
  the negative request) and `random.sample` raises `ValueError`. `Sampling.PlanSample` and `Processor.UnifiedProcessor`
  return `Err` there.
- A run can classify fewer rows than the clamped size. Line 108 draws
  from 1 .. line_count + 1, but a table with a header and line_count data
  rows has no row at position line_count + 1. When that position is drawn,
  the reader runs out before the last entry of the selection and `total`
  is one short. With ten rows (nine counted lines) and a sample of five,
  the valid draw [1, 2, 3, 4, 10] classifies four rows
  (`Sampling.ShortfallExample`). When every row is one line of the file,
  it can be at most one short (`Sampling.ShortfallAtMostOne`).
- The dump row is modelled as the pair `[doi, pmc_id]`. Its CSV quoting
  is not modelled.

## Model

| member | source | states |
|---|---|---|
| `LineCounter.CountNewlines` | unifiedprocessor.py:34 | the count of one buffer is at most its length, and is zero exactly when the buffer has no newline byte |
| `LineCounter.CountNewlinesIsReference` | unifiedprocessor.py:34 | counting a buffer left to right gives how often the newline byte occurs in it |
| `LineCounter.FastLineCount` | unifiedprocessor.py:20-37 | summing the newline counts of the 8 MB chunks gives the newline count of the whole file; with a header the result is one less, and -1 for a file with no newline |
| `Sampling.ClampSampleSize` | unifiedprocessor.py:107 | the clamped size is min(requested, line_count - 1), so it is always below line_count |
| `Sampling.PlanSample` | unifiedprocessor.py:107-108 | the draw succeeds exactly when the request is non-negative and line_count is at least 1; the size is then exactly the clamped size min(requested, line_count - 1), at most the request and below the population size of range(1, line_count + 2); the error carries exactly that clamped size, which is negative |
| `Sampling.IncreasingSpread` | unifiedprocessor.py:109 | in the sorted selection the i-th position is at least i above the first |
| `Sampling.SelectionIsDistinctSubset` | unifiedprocessor.py:108-109 | a sorted selection of size k holds k distinct positions, and k never exceeds the population size |
| `Sampling.ShortfallAtMostOne` | unifiedprocessor.py:107-146 | when the table has the header and line_count data rows, the loop reaches all of a valid selection of size k but possibly its last entry, and it reaches all k exactly when position line_count + 1 was not drawn |
| `Sampling.ShortfallExample` | unifiedprocessor.py:107-146 | with ten rows, nine counted lines and a request of five, the draw [1, 2, 3, 4, 10] is valid for the clamped size five, yet only four of its entries name a row |
| `Sampling.Reachable` | unifiedprocessor.py:136-146 | the entries the row loop can reach are the prefix of the selection that names existing rows; the first entry after it names no row |
| `Lookups.UpwRequest` | unifiedprocessor.py:52-54 | the record is non-empty exactly when the body is non-empty and has no `error` member; a non-empty record is the body unchanged |
| `Manifest.RemovePrefix` | unifiedprocessor.py:189 | when the href starts with the prefix, prefix + result == href, so stripping the FTP prefix from prefix + subpath gives back subpath; otherwise the href comes back unchanged |
| `Manifest.ManifestLine` | unifiedprocessor.py:192-198 | the manifest line starts with the relative path and a tab and ends with a newline |
| `Manifest.ManifestLineFields` | unifiedprocessor.py:192-198 | without the newline, the line splits at tabs into exactly subpath, `CitationPlaceholder`, pmc_id, `PMID:` + pubmed_id, `LicensePlaceholder` when none of the three values holds a tab |
| `Classifier.CounterOf` | unifiedprocessor.py:161-201 | every outcome bumps one of the four buckets, never `total` |
| `Classifier.Route` | unifiedprocessor.py:150-201 | branch precedence, each case an if-and-only-if: a non-empty doi with a non-empty record goes to `upw`; otherwise an empty PubMed id goes to `discard`; otherwise an error response goes to `no_pdf` with the dump pair (doi, pmc_id); otherwise `pmc` with the manifest line of the stripped href. The metadata service is asked exactly when the doi is non-empty. The PDF service is asked exactly for `no_pdf` and `pmc` rows, after the metadata service |
| `Classifier.Initial` | unifiedprocessor.py:120-129 | the run starts in a consistent state with `total` zero, hence every counter zero, the manifest holding only `DatePlaceholder` and no request made |
| `Classifier.Apply` | unifiedprocessor.py:147-201 | one classified row raises `total` by one and its own bucket by one, and leaves the other buckets unchanged; its requests are appended to the log. An `upw` row appends its record to the metadata sink, a `pmc` row its line to the manifest and a `no_pdf` row its pair (doi, pmc_id) to the dump; every other sink, and all three for a `discard` row, stay unchanged |
| `Classifier.ApplyStep` | unifiedprocessor.py:147-201 | one classified row never lowers a counter and only appends to the sinks and the log; it keeps the counters non-negative, the buckets summing to `total` and each sink in step with its counter |
| `Classifier.ReplayConsistent` | unifiedprocessor.py:120-203 | after any run, total == upw + pmc + discard + no_pdf == number of rows classified. The manifest is the placeholder line followed by exactly `pmc` lines. The metadata sink holds exactly `upw` records and the dump exactly `no_pdf` rows |
| `Classifier.ReplaySinks` | unifiedprocessor.py:120-203 | after any run, the metadata sink holds the records of the rows routed to `upw`, the manifest holds the `DatePlaceholder` line followed by the lines of the rows routed to `pmc`, and the dump holds the pairs of the rows routed to `no_pdf`, each in row order |
| `Classifier.ReplayGrows` | unifiedprocessor.py:123-203 | counters never decrease and sinks and log are append-only: the state after a prefix of the rows is below the final state |
| `Classifier.ReplayDependsOnlyOnLoggedLookups` | unifiedprocessor.py:156-178 | two pairs of services that agree on every logged request give the same run, so no service is consulted outside the logged requests |
| `Processor.ClassifyRow` | unifiedprocessor.py:147-203 | the imperative body for one selected row has exactly the effect of one classifier step on the counters, the three sinks and the log |
| `Processor.ProcessRows` | unifiedprocessor.py:131-204 | the two-cursor loop skips the header and the unselected rows and classifies the selected rows that exist, in ascending position order; `total` equals the number of selection entries consumed, at most `sample_size`, and it falls short only when the table ran out first |
| `Processor.ReachableIs` | unifiedprocessor.py:136-146 | where the loop stops in the selection is exactly the reachable prefix |
| `Processor.CountValues` | unifiedprocessor.py:235 | there is one returned value per report column after `Year`, and each is the counter that column shows (`UPW`, `PMC`, `NoPubMed`, `NoPDF`, `Total`) |
| `Processor.RemovalDecisions` | unifiedprocessor.py:227-235 | in any consistent state the returned `total` is the sum of the four buckets, the manifest holds only its placeholder line exactly when pmc == 0, and the dump is empty exactly when no_pdf == 0, so the counter tests remove exactly the files that hold no row |
| `Processor.UnifiedProcessor` | unifiedprocessor.py:102-235 | the run fails exactly where `random.sample` raises. Otherwise it returns the counters in report order, with total the sum of the buckets and at most the clamped size. The manifest file is removed exactly when it holds only its placeholder line (pmc == 0), and the dump exactly when it is empty (no_pdf == 0) |
| `Processor.ReportRows` | unifiedprocessor.py:259-273 | each written row is its year followed by that year's returned counters, in year order from start; with no error there is one row per year from start to end inclusive; an error in one year leaves the rows of the years before it and ends the driver with that year's error |

## Left out

- `upw_request` and `pmc_request` (unifiedprocessor.py:40-75): HTTP, JSON and XML parsing become the two oracle functions. The model keeps only the `error` filter of `upw_request`. A transport failure or a body that is not JSON raises an exception that nothing catches (lines 47-50) and aborts the run; the metadata oracle always answers, so that case is not modelled.
- The indefinite `MaxRetryError` retry loop in `pmc_request` (lines 68-74): it is about liveness over a network, and the oracle always answers.
- A PDF response whose `OA` element has neither an `error` member nor a `records/record/link/@href` path, or that has no `OA` element: the source raises `KeyError` (lines 177-178). The response type holds only the error and link cases, so these crashes are not modelled. A record with several links, where xmltodict gives a list and the lookup fails, is left out for the same reason.
- The uniformity of `random.sample` (line 108): it is a probabilistic property. The selection is an input that meets the sortedness, range and size conditions.
- CSV parsing (line 136): rows are given as sequences of fields. The model does not relate these rows to the bytes the line counter reads. A selected row with fewer than 11 fields, where the source raises `IndexError`, is excluded by a precondition.
- Serialisation of the sinks: JSON-lines encoding, the unix-dialect CSV quoting of dump and report rows, and the ASCII encoding of the manifest file. A non-ASCII id would make the source raise `UnicodeEncodeError`; this is not modelled.
- Directory creation, file opening, gzip compression, removal of the `.jsonl` file and the `os.remove` calls themselves (lines 91-100, 114-118, 219-233): the model keeps only the decision to remove the manifest and the dump.
- `perf_counter` timing and all console output (lines 104, 111-112, 154, 205-217, 223).
- `argparse` (lines 238-252): only the per-year report rows are modelled, by `Processor.ReportRows`.
- The check `selection is not None` (line 144) is always true in the source and is dropped.
