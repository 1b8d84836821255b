/** Pruning the graph capture sizes of Ascend 950 to four, and the validator the pruned list goes through. */
module CaptureSizes {
  import opened Prelude
  import opened Sorting

  const MAX_SIZES := 4

  /** `round(i * (n - 1) / 3)`; the quotient is never half-way between two integers. */
  function Nearest(i: nat, n: nat): nat
    requires n > 0
  {
    (2 * i * (n - 1) + 3) / 6
  }

  lemma NearestBounds(i: nat, n: nat)
    requires n > 0
    ensures -1 <= 3 * Nearest(i, n) - i * (n - 1) <= 1
  {
    var x := i * (n - 1);
    assert 2 * i * (n - 1) == 2 * x;
    var q := (2 * x + 3) / 6;
    assert 6 * q <= 2 * x + 3 < 6 * q + 6;
  }

  /** The sampled positions, both ends fixed. */
  function Indices(n: nat): (r: seq<nat>)
    requires n > MAX_SIZES
    ensures |r| == MAX_SIZES && r[0] == 0 && r[3] == n - 1
  {
    [0, Nearest(1, n), Nearest(2, n), n - 1]
  }

  lemma IndicesAscend(n: nat)
    requires n > MAX_SIZES
    ensures StrictlyAscending(Indices(n)) && forall i :: 0 <= i < MAX_SIZES ==> Indices(n)[i] < n
  {
    NearestBounds(1, n);
    NearestBounds(2, n);
  }

  function Sample(sizes: seq<nat>): (r: seq<nat>)
    requires |sizes| > MAX_SIZES
    ensures |r| == MAX_SIZES && forall i :: 0 <= i < MAX_SIZES ==> r[i] in sizes
  {
    IndicesAscend(|sizes|);
    seq(MAX_SIZES, i requires 0 <= i < MAX_SIZES => sizes[Indices(|sizes|)[i]])
  }

  /** Sample i is the size whose position is nearest to i thirds of the way from the first to the last. */
  lemma SampleIsSpread(sizes: seq<nat>, i: nat) returns (p: nat)
    requires |sizes| > MAX_SIZES && i < 4
    ensures |Sample(sizes)| == 4 && p < |sizes| && Sample(sizes)[i] == sizes[p]
    ensures -1 <= 3 * p - i * (|sizes| - 1) <= 1
  {
    p := Indices(|sizes|)[i];
    IndicesAscend(|sizes|);
    NearestBounds(i, |sizes|);
  }

  /** Four sizes of an ascending list stay ascending and keep its smallest and its largest. */
  lemma SampleAscends(sizes: seq<nat>)
    requires |sizes| > MAX_SIZES && StrictlyAscending(sizes)
    ensures StrictlyAscending(Sample(sizes))
    ensures Sample(sizes)[0] == sizes[0] && Sample(sizes)[3] == sizes[|sizes| - 1]
  {
    IndicesAscend(|sizes|);
  }

  datatype Error = InconsistentMax | UnknownCompileSize | LargestNotLast

  function Last(sizes: seq<nat>): nat {
    if sizes == [] then 0 else sizes[|sizes| - 1]
  }

  lemma SampleSorted(sizes: seq<nat>)
    requires |sizes| > MAX_SIZES && StrictlyAscending(sizes)
    ensures Sorted(Sample(sizes)) == Sample(sizes) && Last(Sample(sizes)) == Last(sizes)
  {
    SampleAscends(sizes);
    AscendingUnique(Sample(sizes), Sorted(Sample(sizes)));
  }

  // ---- compile sizes

  const CAPTURE_SIZES := "cudagraph_capture_sizes"

  datatype CompileSize = Size(n: nat) | Text(text: string)

  predicate Known(x: CompileSize) {
    x.Size? || x.text == CAPTURE_SIZES
  }

  predicate AllKnown(list: seq<CompileSize>) {
    forall x :: x in list ==> Known(x)
  }

  /** The compile sizes with the capture sizes put in for their name. */
  function Expand(list: seq<CompileSize>, sizes: seq<nat>): seq<nat> {
    if list == [] then []
    else
      var last := list[|list| - 1];
      Expand(list[..|list| - 1], sizes) + if last.Size? then [last.n] else sizes
  }

  /** They are the listed sizes, and the capture sizes if these are named. */
  lemma {:induction false} ExpandMembers(list: seq<CompileSize>, sizes: seq<nat>, n: nat)
    requires AllKnown(list)
    ensures n in Expand(list, sizes) <==> Size(n) in list || (Text(CAPTURE_SIZES) in list && n in sizes)
  {
    if list != [] {
      SplitLast(list);
      assert Known(list[|list| - 1]);
      ExpandMembers(list[..|list| - 1], sizes, n);
    }
  }

  function AsCompileSizes(sizes: seq<nat>): seq<CompileSize> {
    seq(|sizes|, i requires 0 <= i < |sizes| => Size(sizes[i]))
  }

  /** order lists what list holds, once each: what Python's `list(set(..))` may give. */
  ghost predicate Deduplicates(order: seq<CompileSize>, list: seq<CompileSize>) {
    NoDup(order) && forall x :: x in order <==> x in list
  }

  lemma DeduplicatesKnown(order: seq<CompileSize>, list: seq<CompileSize>)
    requires Deduplicates(order, list)
    ensures AllKnown(order) <==> AllKnown(list)
  {
  }

  // ---- the validator

  /** What the validator says of new sizes, given the configured ones. */
  function Checked(captureSizes: Option<seq<nat>>, maxCaptureSize: Option<nat>,
                   compileSizes: Option<seq<CompileSize>>, sizes: seq<nat>): Outcome<(), Error>
  {
    if captureSizes.Some? && maxCaptureSize.Some? && maxCaptureSize.value != Last(sizes) then Raised(InconsistentMax)
    else if compileSizes.Some? && !AllKnown(compileSizes.value) then Raised(UnknownCompileSize)
    else if Last(Sorted(sizes)) != Last(sizes) then Raised(LargestNotLast)
    else Ok(())
  }

  class CompilationConfig {
    var captureSizes: Option<seq<nat>>
    var maxCaptureSize: Option<nat>
    var compileSizes: Option<seq<CompileSize>>

    /** The loop over the compile sizes, which gives None on a text it does not know. */
    method ExpandAll(list: seq<CompileSize>, sizes: seq<nat>) returns (r: Option<seq<nat>>)
      ensures r == if AllKnown(list) then Some(Expand(list, sizes)) else None
    {
      var computed: seq<nat> := [];
      for i := 0 to |list|
        invariant computed == Expand(list[..i], sizes) && AllKnown(list[..i])
      {
        assert list[..i + 1][..i] == list[..i] && list[..i + 1][i] == list[i];
        SplitLast(list[..i + 1]);
        if list[i].Text? {
          if list[i].text != CAPTURE_SIZES {
            assert !Known(list[i]);
            return None;
          }
          computed := computed + sizes;
        } else {
          computed := computed + [list[i].n];
        }
      }
      assert list[..|list|] == list;
      return Some(computed);
    }

    /** `post_init_cudagraph_sizes`, for any order in which the compile sizes are deduplicated. */
    method PostInit(order: seq<CompileSize>) returns (r: Outcome<(), Error>)
      requires captureSizes.Some? && maxCaptureSize.Some?
      requires compileSizes.Some? ==> Deduplicates(order, compileSizes.value)
      modifies this`captureSizes, this`compileSizes
      ensures var sizes := old(captureSizes).value;
              if old(compileSizes).Some? && !AllKnown(old(compileSizes).value)
              then r == Raised(UnknownCompileSize) && captureSizes == Some(sizes) && compileSizes == Some(order)
              else
                && r == (if sizes != [] && Last(Sorted(sizes)) != maxCaptureSize.value then Raised(LargestNotLast)
                         else Ok(()))
                && captureSizes == Some(Sorted(sizes))
                && compileSizes
                   == Some(if old(compileSizes).None? then [] else AsCompileSizes(Expand(order, sizes)))
    {
      var sizes := captureSizes.value;
      var computed: seq<nat> := [];
      if compileSizes.Some? {
        DeduplicatesKnown(order, compileSizes.value);
        compileSizes := Some(order);
        var expanded := ExpandAll(order, sizes);
        if expanded.None? {
          return Raised(UnknownCompileSize);
        }
        computed := expanded.value;
      }
      assert AsCompileSizes([]) == [];
      compileSizes := Some(AsCompileSizes(computed));
      var sorted := Sorted(sizes);
      captureSizes := Some(sorted);
      if sorted != [] && sorted[|sorted| - 1] != maxCaptureSize.value {
        return Raised(LargestNotLast);
      }
      return Ok(());
    }

    /**
     `update_cudagraph_capture_sizes`. Only InconsistentMax leaves the old values; the other two are
     raised after the new ones were stored.
     */
    method Update(sizes: seq<nat>, order: seq<CompileSize>) returns (r: Outcome<(), Error>)
      requires compileSizes.Some? ==> Deduplicates(order, compileSizes.value)
      modifies this
      ensures r == Checked(old(captureSizes), old(maxCaptureSize), old(compileSizes), sizes)
      ensures r == Raised(InconsistentMax) ==>
                && captureSizes == old(captureSizes) && maxCaptureSize == old(maxCaptureSize)
                && compileSizes == old(compileSizes)
      ensures r == Raised(UnknownCompileSize) ==>
                captureSizes == Some(sizes) && maxCaptureSize == Some(Last(sizes)) && compileSizes == Some(order)
      ensures r.Ok? || r == Raised(LargestNotLast) ==>
                && captureSizes == Some(Sorted(sizes)) && maxCaptureSize == Some(Last(sizes))
                && compileSizes
                   == Some(if old(compileSizes).None? then [] else AsCompileSizes(Expand(order, sizes)))
    {
      var validMax := Last(sizes);
      if maxCaptureSize.Some? && maxCaptureSize.value != validMax && captureSizes.Some? {
        return Raised(InconsistentMax);
      }
      maxCaptureSize := Some(validMax);
      captureSizes := Some(sizes);
      r := PostInit(order);
    }

    /**
     On an ascending list of more than four sizes the call raises exactly when a maximum was configured
     that is not the largest size, or a compile size is an unknown text; otherwise four of the sizes
     remain, with the smallest and the largest. On any other long list the validator decides about the
     sampled sizes.
     */
    method Prune(order: seq<CompileSize>) returns (r: Outcome<(), Error>)
      requires compileSizes.Some? ==> Deduplicates(order, compileSizes.value)
      modifies this
      ensures old(captureSizes).None? || |old(captureSizes).value| <= 4 ==>
                && r == Ok(()) && captureSizes == old(captureSizes) && maxCaptureSize == old(maxCaptureSize)
                && compileSizes == old(compileSizes)
      ensures old(captureSizes).Some? && |old(captureSizes).value| > 4 ==>
                var sizes := old(captureSizes).value;
                && r == Checked(old(captureSizes), old(maxCaptureSize), old(compileSizes), Sample(sizes))
                && (r.Ok? ==>
                      && captureSizes == Some(Sorted(Sample(sizes))) && maxCaptureSize == Some(Last(sizes))
                      && compileSizes
                         == Some(if old(compileSizes).None? then []
                                 else AsCompileSizes(Expand(order, Sample(sizes)))))
      ensures old(captureSizes).Some? && |old(captureSizes).value| > 4
              && StrictlyAscending(old(captureSizes).value) ==>
                var sizes := old(captureSizes).value;
                var inconsistent := old(maxCaptureSize).Some? && old(maxCaptureSize).value != Last(sizes);
                && (r.Raised? <==> inconsistent || (old(compileSizes).Some? && !AllKnown(old(compileSizes).value)))
                && (inconsistent ==>
                      && captureSizes == old(captureSizes) && maxCaptureSize == old(maxCaptureSize)
                      && compileSizes == old(compileSizes))
                && (!inconsistent ==> captureSizes == Some(Sample(sizes)))
    {
      if captureSizes.None? || |captureSizes.value| <= MAX_SIZES {
        return Ok(());
      }
      var sizes := captureSizes.value;
      IndicesAscend(|sizes|);
      assert Last(Sample(sizes)) == Sample(sizes)[3] == Last(sizes);
      if StrictlyAscending(sizes) {
        SampleSorted(sizes);
      }
      r := Update(Sample(sizes), order);
    }
  }
}
