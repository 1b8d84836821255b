/** Compressed positions over a whole run: the scheduler's chunking does not show in them. */
module CompressedRuns {
  import opened Prelude
  import opened CompressedPositions

  /** One row of a scheduler step: so many new tokens for this request. */
  datatype Work = Work(request: nat, tokens: nat)

  type Step = seq<Work>

  /** A step schedules a request in at most one row. */
  ghost predicate ValidStep(step: Step) {
    forall i, j :: 0 <= i < j < |step| ==> step[i].request != step[j].request
  }

  function TokensIn(step: Step, q: nat): nat {
    if step == [] then 0
    else TokensIn(step[..|step| - 1], q) + if step[|step| - 1].request == q then step[|step| - 1].tokens else 0
  }

  /** The tokens of request q computed by the given steps. */
  function Done(steps: seq<Step>, q: nat): nat {
    if steps == [] then 0 else Done(steps[..|steps| - 1], q) + TokensIn(steps[|steps| - 1], q)
  }

  /** The values whose label is x. */
  function Select(values: seq<int>, labels: seq<int>, x: int): seq<int>
    requires |values| == |labels|
  {
    if values == [] then []
    else
      var k := |values| - 1;
      Select(values[..k], labels[..k], x) + if labels[k] == x then [values[k]] else []
  }

  lemma {:induction false} SelectConcat(a: seq<int>, b: seq<int>, c: seq<int>, d: seq<int>, x: int)
    requires |a| == |c| && |b| == |d|
    ensures Select(a + b, c + d, x) == Select(a, c, x) + Select(b, d, x)
  {
    if b == [] {
      assert a + b == a && c + d == c;
    } else {
      var k := |b| - 1;
      SelectConcat(a, b[..k], c, d[..k], x);
      assert (a + b)[..|a| + k] == a + b[..k] && (c + d)[..|c| + k] == c + d[..k];
    }
  }

  lemma {:induction false} SelectCopies(values: seq<int>, y: int, x: int)
    ensures Select(values, Copies(y, |values|), x) == if x == y then values else []
  {
    if values != [] {
      var k := |values| - 1;
      assert Copies(y, |values|)[..k] == Copies(y, k);
      SelectCopies(values[..k], y, x);
      SplitLast(values);
    }
  }

  /** One more request at the end of the arrays. */
  lemma RowsNext(starts: seq<nat>, counts: seq<nat>, k: nat)
    requires |starts| == |counts| == k + 1
    ensures PerRequest(starts, counts) == PerRequest(starts[..k], counts[..k]) + Range(starts[k], starts[k] + counts[k])
    ensures Repeat(Range(0, k + 1), counts) == Repeat(Range(0, k), counts[..k]) + Copies(k, counts[k])
  {
    assert Range(0, k + 1)[..k] == Range(0, k);
  }

  /** The request-index array labels the positions of each request, and no others, with its row. */
  lemma {:induction false} SelectRow(starts: seq<nat>, counts: seq<nat>, row: nat)
    requires |starts| == |counts|
    ensures Select(PerRequest(starts, counts), Repeat(Range(0, |counts|), counts), row) ==
            if row < |counts| then Range(starts[row], starts[row] + counts[row]) else []
  {
    if counts != [] {
      var k := |counts| - 1;
      SelectRow(starts[..k], counts[..k], row);
      RowsNext(starts, counts, k);
      var last := Range(starts[k], starts[k] + counts[k]);
      SelectConcat(PerRequest(starts[..k], counts[..k]), last, Repeat(Range(0, k), counts[..k]), Copies(k, counts[k]),
                   row);
      SelectCopies(last, k, row);
    }
  }

  // ---- what one step emits

  function Computed(before: seq<Step>, step: Step): (r: seq<nat>)
    ensures |r| == |step|
  {
    seq(|step|, i requires 0 <= i < |step| => Done(before, step[i].request))
  }

  function Scheduled(step: Step): (r: seq<nat>)
    ensures |r| == |step|
  {
    seq(|step|, i requires 0 <= i < |step| => step[i].tokens)
  }

  /** The positions that the arrays of one step give to row i. */
  function LabelledRow(starts: seq<nat>, counts: seq<nat>, i: nat): seq<int>
    requires |starts| == |counts|
  {
    Select(Vectorised(starts, counts), Repeat(Range(0, |counts|), counts), i)
  }

  function RowPositions(before: seq<Step>, step: Step, ratio: int, i: nat): seq<int> {
    LabelledRow(Starts(Computed(before, step), ratio), Counts(Computed(before, step), Scheduled(step), ratio), i)
  }

  /** The positions one step gives to request q: those of its rows. */
  function EmittedIn(before: seq<Step>, step: Step, ratio: int, q: nat, rows: nat): seq<int>
    requires rows <= |step|
  {
    if rows == 0 then []
    else
      EmittedIn(before, step, ratio, q, rows - 1) +
      if step[rows - 1].request == q then RowPositions(before, step, ratio, rows - 1) else []
  }

  /** Everything request q is given over the run. */
  function Emitted(steps: seq<Step>, ratio: int, q: nat): seq<int> {
    if steps == [] then []
    else
      var before, step := steps[..|steps| - 1], steps[|steps| - 1];
      Emitted(before, ratio, q) + EmittedIn(before, step, ratio, q, |step|)
  }

  lemma LabelledRowIs(starts: seq<nat>, counts: seq<nat>, i: nat)
    requires |starts| == |counts| && i < |counts|
    ensures LabelledRow(starts, counts, i) == Range(starts[i], starts[i] + counts[i])
  {
    VectorisedIsPerRequest(starts, counts);
    SelectRow(starts, counts, i);
  }

  lemma RowPositionsAre(before: seq<Step>, step: Step, ratio: int, i: nat)
    requires i < |step|
    ensures RowPositions(before, step, ratio, i) == NewRange(Done(before, step[i].request), step[i].tokens, ratio)
  {
    RowRange(Computed(before, step), Scheduled(step), ratio, i);
  }

  lemma RowRange(computed: seq<nat>, scheduled: seq<nat>, ratio: int, i: nat)
    requires |computed| == |scheduled| && i < |computed|
    ensures LabelledRow(Starts(computed, ratio), Counts(computed, scheduled, ratio), i)
         == NewRange(computed[i], scheduled[i], ratio)
  {
    LabelledRowIs(Starts(computed, ratio), Counts(computed, scheduled, ratio), i);
  }

  lemma {:induction false} NoRowNoTokens(step: Step, q: nat)
    requires forall i :: 0 <= i < |step| ==> step[i].request != q
    ensures TokensIn(step, q) == 0
  {
    if step != [] {
      NoRowNoTokens(step[..|step| - 1], q);
    }
  }

  lemma TokensStep(step: Step, q: nat, k: nat)
    requires k < |step|
    ensures TokensIn(step[..k + 1], q) == TokensIn(step[..k], q) + if step[k].request == q then step[k].tokens else 0
  {
    TakeNext(step, k);
  }

  /** The positions of done..done + tokens. */
  function NewRange(done: nat, tokens: nat, ratio: int): seq<int> {
    Range(Compressed(done, ratio), Compressed(done + tokens, ratio))
  }

  lemma {:induction false} EmittedInAre(before: seq<Step>, step: Step, ratio: int, q: nat, rows: nat)
    requires rows <= |step| && ValidStep(step)
    ensures EmittedIn(before, step, ratio, q, rows) == NewRange(Done(before, q), TokensIn(step[..rows], q), ratio)
  {
    if rows > 0 {
      var k := rows - 1;
      TokensStep(step, q, k);
      EmittedInAre(before, step, ratio, q, k);
      if step[k].request == q {
        NoRowNoTokens(step[..k], q);
        assert EmittedIn(before, step, ratio, q, k) == [];
        RowPositionsAre(before, step, ratio, k);
      }
    }
  }

  lemma {:induction false} EmittedIsRange(steps: seq<Step>, ratio: int, q: nat)
    requires forall k :: 0 <= k < |steps| ==> ValidStep(steps[k])
    ensures Emitted(steps, ratio, q) == Range(0, Compressed(Done(steps, q), ratio))
  {
    if steps != [] {
      var before, step := steps[..|steps| - 1], steps[|steps| - 1];
      EmittedIsRange(before, ratio, q);
      EmittedInAre(before, step, ratio, q, |step|);
      assert step[..|step|] == step;
      CompressedMonotone(Done(before, q), Done(steps, q), ratio);
      RangeSplit(0, Compressed(Done(before, q), ratio), Compressed(Done(steps, q), ratio));
    }
  }

  /**
   However the tokens of a request are split over steps, and whatever else shares those steps, it is
   given the positions 0, 1, 2, .. in order, one for each window of ratio tokens that is full by now.
   */
  lemma ChunkInvariance(steps: seq<Step>, ratio: int, q: nat)
    requires forall k :: 0 <= k < |steps| ==> ValidStep(steps[k])
    ensures var positions := Emitted(steps, ratio, q);
            && FullWindows(Done(steps, q), ratio, |positions|)
            && forall i :: 0 <= i < |positions| ==> positions[i] == i
  {
    EmittedIsRange(steps, ratio, q);
    CompressedIsFull(Done(steps, q), ratio);
  }

  /** Two ways to cut the tokens of a request into steps give it the same positions. */
  lemma SameTotalSamePositions(steps: seq<Step>, others: seq<Step>, ratio: int, q: nat)
    requires forall k :: 0 <= k < |steps| ==> ValidStep(steps[k])
    requires forall k :: 0 <= k < |others| ==> ValidStep(others[k])
    requires Done(steps, q) == Done(others, q)
    ensures Emitted(steps, ratio, q) == Emitted(others, ratio, q)
  {
    EmittedIsRange(steps, ratio, q);
    EmittedIsRange(others, ratio, q);
  }
}
