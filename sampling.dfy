/** The sample-size clamp and the sorted selection of row positions that
    `unified_processor` draws before it reads the table. */
module Sampling {
  import opened Wrappers

  /** `random.sample` raises ValueError when asked for a negative number of values. */
  datatype SampleError = NegativeSampleSize(size: int)

  function Min(a: int, b: int): int {
    if a <= b then a else b
  }

  /** The clamp: the requested size when it is below the counted line number,
      otherwise one less than that number. */
  function ClampSampleSize(requested: int, lineCount: int): (k: int)
    ensures k == Min(requested, lineCount - 1)
    ensures k < lineCount
  {
    if requested < lineCount then requested else lineCount - 1
  }

  /** `len(range(1, lineCount + 2))`: the positions 1 .. lineCount + 1. */
  function PopulationSize(lineCount: int): nat {
    if lineCount + 1 > 0 then lineCount + 1 else 0
  }

  /** The clamp followed by the size check of `random.sample`, which refuses a
      sample size outside [0, population]. The draw goes ahead exactly when the
      request is non-negative and at least one data line was counted, and then
      never asks for more positions than the range holds. */
  function PlanSample(requested: int, lineCount: int): (r: Result<nat, SampleError>)
    ensures r.Ok? <==> 0 <= requested && 1 <= lineCount
    ensures r.Ok? ==> r.value <= requested && r.value < PopulationSize(lineCount)
    ensures r.Ok? && requested < lineCount ==> r.value == requested
    ensures r.Ok? ==> r.value == ClampSampleSize(requested, lineCount)
    ensures r.Err? ==> r.error == NegativeSampleSize(ClampSampleSize(requested, lineCount)) && r.error.size < 0
  {
    var k := ClampSampleSize(requested, lineCount);
    if 0 <= k <= PopulationSize(lineCount) then Ok(k) else Err(NegativeSampleSize(k))
  }

  predicate StrictlyIncreasing(s: seq<int>) {
    forall i, j :: 0 <= i < j < |s| ==> s[i] < s[j]
  }

  /** What `sorted(random.sample(range(1, lineCount + 2), k))` returns: k values
      from [1, lineCount + 1], sorted strictly ascending. */
  predicate IsSelection(selection: seq<int>, k: nat, lineCount: int) {
    && |selection| == k
    && (forall i :: 0 <= i < |selection| ==> 1 <= selection[i] <= lineCount + 1)
    && StrictlyIncreasing(selection)
  }

  /** In a strictly increasing sequence of integers the i-th value is at least i
      above the first. */
  lemma {:induction false} IncreasingSpread(s: seq<int>, i: nat)
    requires StrictlyIncreasing(s)
    requires i < |s|
    ensures s[i] >= s[0] + i
  {
    if i > 0 {
      IncreasingSpread(s, i - 1);
    }
  }

  /** A selection holds exactly k distinct positions, and k never exceeds the
      population it was drawn from. */
  lemma {:induction false} SelectionIsDistinctSubset(selection: seq<int>, k: nat, lineCount: int)
    requires IsSelection(selection, k, lineCount)
    ensures |set p | p in selection| == k
    ensures k <= PopulationSize(lineCount)
  {
    if k > 0 {
      IncreasingSpread(selection, k - 1);
      var rest := selection[1..];
      assert IsSelection(rest, k - 1, lineCount);
      SelectionIsDistinctSubset(rest, k - 1, lineCount);
      assert selection[0] !in rest;
      assert (set p | p in selection) == {selection[0]} + (set p | p in rest) by {
        assert selection == [selection[0]] + rest;
      }
    }
  }

  /** How many entries of a sorted selection name a row of a table with
      `rowCount` rows (positions 0 .. rowCount - 1): the length of its prefix
      below rowCount. */
  function Reachable(selection: seq<int>, rowCount: nat): (m: nat)
    ensures m <= |selection|
    ensures forall j :: 0 <= j < m ==> selection[j] < rowCount
    ensures m < |selection| ==> selection[m] >= rowCount
  {
    if selection == [] || selection[0] >= rowCount then 0
    else 1 + Reachable(selection[1..], rowCount)
  }

  /** With a header and `lineCount` data rows the table has `lineCount + 1`
      rows, while the draw ranges over 1 .. lineCount + 1. Only the top
      position can name a missing row, so the loop reaches every selected
      position but possibly the last, and reaches them all exactly when the
      top position was not drawn. */
  lemma ShortfallAtMostOne(selection: seq<int>, k: nat, lineCount: int)
    requires 1 <= lineCount && IsSelection(selection, k, lineCount)
    ensures Reachable(selection, lineCount + 1) + 1 >= k
    ensures Reachable(selection, lineCount + 1) == k <==> k == 0 || selection[k - 1] <= lineCount
  {
  }

  /** A concrete draw that falls short: ten rows (the header and nine data
      rows), nine counted lines and a sample of five. The draw may hold
      position 10, past the last row, so the run classifies only four. */
  lemma ShortfallExample()
    ensures IsSelection([1, 2, 3, 4, 10], 5, 9)
    ensures ClampSampleSize(5, 9) == 5
    ensures Reachable([1, 2, 3, 4, 10], 10) == 4
  {
    var s := [1, 2, 3, 4, 10];
    assert s[1..] == [2, 3, 4, 10] && s[1..][1..] == [3, 4, 10];
    assert s[1..][1..][1..] == [4, 10] && s[1..][1..][1..][1..] == [10];
  }
}
