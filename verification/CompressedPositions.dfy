/**
 Compressed KV positions: the vectorised arange/repeat/cumsum form, the per-request loop it stands
 for, and what a request is given over all the scheduler steps of its life.
 */
module CompressedPositions {
  import opened Prelude
  import opened Arithmetic

  // ---- the array operations the vectorised form is written with

  function Range(lo: int, hi: int): (r: seq<int>)
    ensures |r| == Max(hi - lo, 0)
  {
    seq(Max(hi - lo, 0), i requires 0 <= i => lo + i)
  }

  function Sum(s: seq<nat>): nat {
    if s == [] then 0 else Sum(s[..|s| - 1]) + s[|s| - 1]
  }

  function Cumsum(s: seq<nat>): (r: seq<nat>)
    ensures |r| == |s|
  {
    if s == [] then [] else Cumsum(s[..|s| - 1]) + [Sum(s)]
  }

  /** `a - b`, a one-element array standing for a constant one. */
  function Subtract(a: seq<int>, b: seq<int>): seq<int>
    requires |a| == |b| || |b| == 1
  {
    if |a| == |b| then seq(|a|, i requires 0 <= i < |a| => a[i] - b[i])
    else seq(|a|, i requires 0 <= i < |a| => a[i] - b[0])
  }

  function Add(a: seq<int>, b: seq<int>): seq<int>
    requires |a| == |b|
  {
    seq(|a|, i requires 0 <= i < |a| => a[i] + b[i])
  }

  function Copies(x: int, n: nat): seq<int> {
    seq(n, _ => x)
  }

  function Repeat(values: seq<int>, counts: seq<nat>): (r: seq<int>)
    requires |values| == |counts|
    ensures |r| == Sum(counts)
  {
    if counts == [] then []
    else
      var k := |counts| - 1;
      Repeat(values[..k], counts[..k]) + Copies(values[k], counts[k])
  }

  // ---- compressed lengths

  /** A ratio of 0 or 1 means no compression. */
  function Compressed(n: nat, ratio: int): nat {
    if ratio > 1 then n / ratio else n
  }

  /** k full windows of ratio tokens are in n tokens and one more is not; without compression, k is n. */
  ghost predicate FullWindows(n: nat, ratio: int, k: nat) {
    if ratio > 1 then k * ratio <= n < (k + 1) * ratio else k == n
  }

  lemma CompressedIsFull(n: nat, ratio: int)
    ensures FullWindows(n, ratio, Compressed(n, ratio))
  {
    if ratio > 1 {
      var q := n / ratio;
      assert n == q * ratio + n % ratio && (q + 1) * ratio == q * ratio + ratio;
    }
  }

  lemma CompressedMonotone(m: nat, n: nat, ratio: int)
    requires m <= n
    ensures Compressed(m, ratio) <= Compressed(n, ratio)
  {
    if ratio > 1 {
      DivMonotone(m, n, ratio);
    }
  }

  lemma DivMonotone(m: nat, n: nat, d: nat)
    requires m <= n && d > 0
    ensures m / d <= n / d
  {
    if m / d > n / d {
      MulLe(n / d + 1, m / d, d);
    }
  }

  function Starts(computed: seq<nat>, ratio: int): (r: seq<nat>)
    ensures |r| == |computed|
  {
    seq(|computed|, i requires 0 <= i < |computed| => Compressed(computed[i], ratio))
  }

  function NewPositions(done: nat, tokens: nat, ratio: int): (r: nat)
    ensures Compressed(done, ratio) + r == Compressed(done + tokens, ratio)
  {
    CompressedMonotone(done, done + tokens, ratio);
    Compressed(done + tokens, ratio) - Compressed(done, ratio)
  }

  /** How many new positions each request gets. */
  function Counts(computed: seq<nat>, scheduled: seq<nat>, ratio: int): (r: seq<nat>)
    requires |computed| == |scheduled|
    ensures |r| == |computed|
  {
    seq(|computed|, i requires 0 <= i < |computed| => NewPositions(computed[i], scheduled[i], ratio))
  }

  // ---- the vectorised form and the loop it stands for

  function Init<T>(s: seq<T>): seq<T> {
    if s == [] then [] else s[..|s| - 1]
  }

  function Vectorised(starts: seq<nat>, counts: seq<nat>): (r: seq<int>)
    requires |starts| == |counts|
    ensures |r| == Sum(counts)
  {
    Add(Range(0, Sum(counts)), Repeat(Subtract(starts, Offsets(counts)), counts))
  }

  /** Where the positions of each request begin in the flat array. */
  function Offsets(counts: seq<nat>): (r: seq<int>)
    ensures |r| == if counts == [] then 1 else |counts|
  {
    [0] + Cumsum(Init(counts))
  }

  function PerRequest(starts: seq<nat>, counts: seq<nat>): (r: seq<int>)
    requires |starts| == |counts|
    ensures |r| == Sum(counts)
  {
    if counts == [] then []
    else
      var k := |counts| - 1;
      PerRequest(starts[..k], counts[..k]) + Range(starts[k], starts[k] + counts[k])
  }

  lemma OffsetsInit(starts: seq<nat>, counts: seq<nat>, k: nat)
    requires |starts| == |counts| == k + 1
    ensures Subtract(starts, Offsets(counts))[..k] == Subtract(starts[..k], Offsets(counts[..k]))
    ensures Subtract(starts, Offsets(counts))[k] == starts[k] - Sum(counts[..k])
  {
    if k > 0 {
      assert Init(counts) == counts[..k];
      assert Offsets(counts) == Offsets(counts[..k]) + [Sum(counts[..k])];
    }
  }

  lemma AddSplit(a: seq<int>, b: seq<int>, c: seq<int>, d: seq<int>)
    requires |a| == |c| && |b| == |d|
    ensures Add(a + b, c + d) == Add(a, c) + Add(b, d)
  {
  }

  lemma RangeSplit(a: int, b: int, c: int)
    requires a <= b <= c
    ensures Range(a, c) == Range(a, b) + Range(b, c)
  {
  }

  lemma ShiftRange(lo: int, n: nat, x: int)
    ensures Add(Range(lo, lo + n), Copies(x, n)) == Range(lo + x, lo + x + n)
  {
  }

  /** The vectorised form is the concatenation of each request's own range. */
  lemma {:induction false} VectorisedIsPerRequest(starts: seq<nat>, counts: seq<nat>)
    requires |starts| == |counts|
    ensures Vectorised(starts, counts) == PerRequest(starts, counts)
  {
    if counts == [] {
    } else {
      var k := |counts| - 1;
      VectorisedIsPerRequest(starts[..k], counts[..k]);
      OffsetsInit(starts, counts, k);
      var before := Sum(counts[..k]);
      var shifts := Subtract(starts, Offsets(counts));
      RangeSplit(0, before, before + counts[k]);
      AddSplit(Range(0, before), Range(before, before + counts[k]), Repeat(shifts[..k], counts[..k]),
               Copies(shifts[k], counts[k]));
      ShiftRange(before, counts[k], shifts[k]);
    }
  }

  lemma SumNext(counts: seq<nat>, i: nat, k: nat)
    requires i < k < |counts|
    ensures counts[..k][..i] == counts[..i] && Sum(counts[..i]) + counts[i] <= Sum(counts[..k])
  {
    assert counts[..k][..i] == counts[..i];
    SumGrows(counts, i + 1, k);
    assert counts[..i + 1][..i] == counts[..i];
  }

  lemma {:induction false} SumGrows(counts: seq<nat>, i: nat, k: nat)
    requires i <= k <= |counts|
    ensures Sum(counts[..i]) <= Sum(counts[..k])
  {
    if i < k {
      assert counts[..k][..k - 1] == counts[..k - 1];
      SumGrows(counts, i, k - 1);
    }
  }

  /** Where entry j of request i stands in the flat arrays, and what the arrays hold there. */
  lemma {:induction false} FlatEntry(starts: seq<nat>, counts: seq<nat>, values: seq<int>, i: nat, j: nat)
    requires |starts| == |counts| == |values| && i < |counts| && j < counts[i]
    ensures Sum(counts[..i]) + j < Sum(counts)
    ensures PerRequest(starts, counts)[Sum(counts[..i]) + j] == starts[i] + j
    ensures Repeat(values, counts)[Sum(counts[..i]) + j] == values[i]
    decreases |counts|
  {
    var k := |counts| - 1;
    if i < k {
      SumNext(counts, i, k);
      FlatEntry(starts[..k], counts[..k], values[..k], i, j);
    }
  }

  // ---- get_compressed_pos_and_indices

  datatype Error = ShapeMismatch | NegativeCount | RepeatMismatch

  /** Per cache group: positions, request index of each position, positions per request. */
  datatype Batch = Batch(positions: seq<seq<int>>, requests: seq<seq<int>>, lengths: seq<seq<nat>>)

  /** `np.repeat`: one count per value, or one count for all values. */
  function NpRepeat(values: seq<int>, counts: seq<nat>): Option<seq<int>> {
    if |values| == |counts| then Some(Repeat(values, counts))
    else if |counts| == 1 then Some(Repeat(values, seq(|values|, _ => counts[0])))
    else None
  }

  /** Request i has the positions from starts[i], one for each window that becomes full with its new tokens. */
  ghost predicate NewWindows(computed: seq<nat>, scheduled: seq<nat>, ratio: int, starts: seq<nat>, lengths: seq<nat>)
    requires |computed| == |scheduled|
  {
    && |starts| == |lengths| == |computed|
    && forall i :: 0 <= i < |computed| ==>
         && FullWindows(computed[i], ratio, starts[i])
         && FullWindows(computed[i] + scheduled[i], ratio, starts[i] + lengths[i])
  }

  lemma CountsAreNewWindows(computed: seq<nat>, scheduled: seq<nat>, ratio: int)
    requires |computed| == |scheduled|
    ensures NewWindows(computed, scheduled, ratio, Starts(computed, ratio), Counts(computed, scheduled, ratio))
  {
    forall i | 0 <= i < |computed|
      ensures FullWindows(computed[i], ratio, Starts(computed, ratio)[i])
      ensures FullWindows(computed[i] + scheduled[i], ratio,
                          Starts(computed, ratio)[i] + Counts(computed, scheduled, ratio)[i])
    {
      CompressedIsFull(computed[i], ratio);
      CompressedIsFull(computed[i] + scheduled[i], ratio);
    }
  }

  ghost predicate IsGroup(computed: seq<nat>, scheduled: seq<nat>, labels: seq<int>, ratio: int,
                          positions: seq<int>, requests: seq<int>, lengths: seq<nat>)
    requires |computed| == |scheduled|
  {
    && Some(requests) == NpRepeat(labels, lengths)
    && exists starts ::
         NewWindows(computed, scheduled, ratio, starts, lengths) && positions == PerRequest(starts, lengths)
  }

  /** In the arrays of a group, position j of request i comes after those of the requests before, with its label. */
  lemma GroupEntries(computed: seq<nat>, scheduled: seq<nat>, labels: seq<int>, ratio: int, positions: seq<int>,
                     requests: seq<int>, lengths: seq<nat>, i: nat, j: nat) returns (start: nat)
    requires |computed| == |scheduled| == |labels| && i < |computed|
    requires IsGroup(computed, scheduled, labels, ratio, positions, requests, lengths)
    ensures |lengths| == |computed| && |positions| == |requests| == Sum(lengths)
    ensures FullWindows(computed[i], ratio, start) && FullWindows(computed[i] + scheduled[i], ratio, start + lengths[i])
    ensures j < lengths[i] ==>
              && Sum(lengths[..i]) + j < Sum(lengths)
              && positions[Sum(lengths[..i]) + j] == start + j && requests[Sum(lengths[..i]) + j] == labels[i]
  {
    var starts :| NewWindows(computed, scheduled, ratio, starts, lengths) && positions == PerRequest(starts, lengths);
    start := starts[i];
    if j < lengths[i] {
      FlatEntry(starts, lengths, labels, i, j);
    }
  }

  lemma {:induction false} SumOfEqual(n: nat, c: nat)
    ensures Sum(seq(n, _ => c)) == n * c
  {
    if n > 0 {
      assert seq(n, _ => c)[..n - 1] == seq(n - 1, _ => c);
      SumOfEqual(n - 1, c);
    }
  }

  /** With one request and any number of labels, every label is repeated for all of its positions. */
  lemma OneCountForAll(labels: seq<int>, count: nat, requests: seq<int>, i: nat, j: nat)
    requires NpRepeat(labels, [count]) == Some(requests) && i < |labels| && j < count
    ensures |requests| == |labels| * count && 0 <= i * count + j < |requests| && requests[i * count + j] == labels[i]
  {
    var counts := seq(|labels|, _ => count);
    assert |labels| == 1 ==> counts == [count];
    SumOfEqual(|labels|, count);
    SumOfEqual(i, count);
    assert counts[..i] == seq(i, _ => count);
    FlatEntry(seq(|labels|, _ => 0), counts, labels, i, j);
  }

  predicate Negative(s: seq<int>) {
    exists i :: 0 <= i < |s| && s[i] < 0
  }

  /** The arrays of one cache group, without request indices if there is neither one label nor one count for each. */
  method CompressGroup(computed: seq<nat>, scheduled: seq<nat>, labels: seq<int>, ratio: int)
    returns (ids: seq<int>, indices: Option<seq<int>>, counts: seq<nat>)
    requires |computed| == |scheduled|
    ensures indices.Some? <==> |labels| == |computed| || |computed| == 1
    ensures indices.Some? ==> IsGroup(computed, scheduled, labels, ratio, ids, indices.value, counts)
  {
    var starts := Starts(computed, ratio);
    counts := Counts(computed, scheduled, ratio);
    ids := Vectorised(starts, counts);
    VectorisedIsPerRequest(starts, counts);
    CountsAreNewWindows(computed, scheduled, ratio);
    indices := NpRepeat(labels, counts);
  }

  /** One flat array of positions per cache group, each request's own range after the other. */
  method GetCompressedPosAndIndices(computed: seq<int>, scheduled: seq<int>, labels: seq<int>, useCompress: bool,
                                    ratios: seq<int>)
    returns (r: Outcome<Option<Batch>, Error>)
    ensures !useCompress ==> r == Ok(None)
    ensures useCompress ==>
              (r == Raised(ShapeMismatch) <==> |computed| != |scheduled|)
    ensures useCompress && |computed| == |scheduled| ==>
              (r == Raised(NegativeCount) <==> Negative(computed) || Negative(scheduled))
    ensures useCompress && |computed| == |scheduled| && !Negative(computed) && !Negative(scheduled) ==>
              (r == Raised(RepeatMismatch) <==> ratios != [] && |labels| != |computed| && |computed| != 1)
    ensures r.Ok? && useCompress ==>
              && |computed| == |scheduled| && !Negative(computed) && !Negative(scheduled) && r.value.Some?
              && var b := r.value.value;
                 && |b.positions| == |b.requests| == |b.lengths| == |ratios|
                 && forall g :: 0 <= g < |ratios| ==>
                      IsGroup(computed, scheduled, labels, ratios[g], b.positions[g], b.requests[g], b.lengths[g])
  {
    if !useCompress {
      return Ok(None);
    }
    if |computed| != |scheduled| {
      return Raised(ShapeMismatch);
    }
    if Negative(computed) || Negative(scheduled) {
      return Raised(NegativeCount);
    }
    var positions: seq<seq<int>>, requests: seq<seq<int>>, lengths: seq<seq<nat>> := [], [], [];
    for g := 0 to |ratios|
      invariant |positions| == |requests| == |lengths| == g
      invariant g > 0 ==> |labels| == |computed| || |computed| == 1
      invariant forall k :: 0 <= k < g ==>
                  IsGroup(computed, scheduled, labels, ratios[k], positions[k], requests[k], lengths[k])
    {
      var ids, indices, counts := CompressGroup(computed, scheduled, labels, ratios[g]);
      if indices.None? {
        return Raised(RepeatMismatch);
      }
      requests := requests + [indices.value];
      positions := positions + [ids];
      lengths := lengths + [counts];
    }
    return Ok(Some(Batch(positions, requests, lengths)));
  }
}
