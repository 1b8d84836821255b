/** Padding and the shared MC2 mask of `set_ascend_forward_context`, and the write-once globals it reads. */
module ForwardContext {
  import opened Prelude
  import opened Arithmetic
  import opened MoeComm

  /** What one forward is told. `acrossDp` is the token count of every data-parallel rank. */
  datatype Forward = Forward(
    numTokens: Option<nat>,
    attentionTokens: Option<nat>,
    acrossDp: Option<seq<nat>>,
    numActual: Option<nat>,
    contextIsMoe: bool,
    draft: bool,
    sequenceParallel: bool,
    flashComm2: bool)

  ghost predicate ValidForward(f: Forward) {
    f.acrossDp.Some? ==> f.acrossDp.value != []
  }

  /** Sequence parallelism is on for this forward: always in a MoE context, and for large batches of a dense model. */
  predicate FlashComm1(f: Forward) {
    if f.contextIsMoe then f.sequenceParallel && f.numTokens.Some?
    else if f.draft then false
    else f.sequenceParallel && f.numTokens.Some? && f.numTokens.value > 1000
  }

  /** Either form of flash communication is on. */
  predicate FlashComm(f: Forward, tp: nat) {
    FlashComm1(f) || (f.flashComm2 && tp > 1 && f.numTokens.Some?)
  }

  datatype Padding = Padding(padSize: int, paddedLength: Option<nat>, maxAcrossDp: Option<nat>,
                             paddedTokens: Option<nat>)

  function TokensOf(f: Forward): Option<nat> {
    if f.numTokens.Some? then f.numTokens else f.attentionTokens
  }

  /** The padding fields; dpSize is the size of the data-parallel group. */
  function Pads(f: Forward, tp: nat, dpSize: nat): Padding
    requires tp > 0 && ValidForward(f)
  {
    var tokens := TokensOf(f);
    var alone := if FlashComm(f, tp) then (tp - f.numTokens.value % tp) % tp else 0;
    if dpSize > 1 && f.acrossDp.Some? then
      var most := Maximum(f.acrossDp.value);
      var padded := RoundUp(most, tp);
      Padding(if FlashComm(f, tp) then padded - f.numTokens.value else alone,
              if FlashComm(f, tp) then Some(padded) else None,
              Some(most),
              if tokens.Some? then Some(padded) else None)
    else
      Padding(alone, None, tokens, if tokens.Some? then Some(RoundUp(tokens.value, tp)) else None)
  }

  lemma ModSmall(x: nat, d: nat)
    requires x < d
    ensures x % d == x
  {
  }

  /** What the modulo form adds to n tokens. */
  lemma PadAlone(n: nat, tp: nat)
    requires tp > 0
    ensures 0 <= (tp - n % tp) % tp < tp && n + (tp - n % tp) % tp == RoundUp(n, tp)
  {
    var q, r := n / tp, n % tp;
    assert n == q * tp + r && (q + 1) * tp == q * tp + tp;
    if r == 0 {
      assert tp % tp == 0;
      RoundUpIs(n, tp, q);
    } else {
      ModSmall(tp - r, tp);
      RoundUpIs(n, tp, q + 1);
    }
  }

  /** The least multiple of tp that holds n tokens. */
  ghost predicate LeastMultiple(p: nat, n: nat, tp: nat)
    requires tp > 0
  {
    p % tp == 0 && n <= p && forall m: nat :: m % tp == 0 && n <= m ==> p <= m
  }

  lemma RoundUpIsLeast(n: nat, tp: nat)
    requires tp > 0
    ensures LeastMultiple(RoundUp(n, tp), n, tp)
  {
    forall m: nat | m % tp == 0 && n <= m
      ensures RoundUp(n, tp) <= m
    {
      assert m == m / tp * tp;
      RoundUpLeast(n, tp, m / tp);
    }
  }

  /** The forward of a rank that is alone, or was not told the counts of the others. */
  predicate Alone(f: Forward, dpSize: nat) {
    dpSize <= 1 || f.acrossDp.None?
  }

  /**
   A forward that is alone is padded, under flash communication only, by less than tp to the least
   multiple of tp that holds its tokens. Its mask has that length in any case.
   */
  lemma AlonePads(f: Forward, tp: nat, dpSize: nat)
    requires tp > 0 && ValidForward(f) && Alone(f, dpSize)
    ensures var p := Pads(f, tp, dpSize);
            && p.paddedLength == None && p.maxAcrossDp == TokensOf(f) && 0 <= p.padSize < tp
            && (p.paddedTokens.Some? <==> f.numTokens.Some? || f.attentionTokens.Some?)
            && (p.paddedTokens.Some? ==> LeastMultiple(p.paddedTokens.value, TokensOf(f).value, tp))
            && if FlashComm(f, tp) then LeastMultiple(f.numTokens.value + p.padSize, f.numTokens.value, tp)
               else p.padSize == 0
  {
    if TokensOf(f).Some? {
      RoundUpIsLeast(TokensOf(f).value, tp);
      PadAlone(TokensOf(f).value, tp);
    }
  }

  /** Among other ranks the least multiple of tp for the largest count takes its place, for all of them. */
  lemma AmongPads(f: Forward, tp: nat, dpSize: nat)
    requires tp > 0 && ValidForward(f) && !Alone(f, dpSize)
    ensures var p, most := Pads(f, tp, dpSize), Maximum(f.acrossDp.value);
            && p.maxAcrossDp == Some(most)
            && (p.paddedTokens.Some? <==> f.numTokens.Some? || f.attentionTokens.Some?)
            && (p.paddedTokens.Some? ==> LeastMultiple(p.paddedTokens.value, most, tp))
            && if FlashComm(f, tp)
               then
                 && p.paddedLength.Some? && LeastMultiple(p.paddedLength.value, most, tp)
                 && f.numTokens.value + p.padSize == p.paddedLength.value
               else p.padSize == 0 && p.paddedLength == None
  {
    RoundUpIsLeast(Maximum(f.acrossDp.value), tp);
  }

  /** When flash communication is on, for each kind of context. */
  lemma FlashCommIff(f: Forward, tp: nat)
    ensures FlashComm(f, tp) <==>
            && f.numTokens.Some?
            && (|| (f.flashComm2 && tp >= 2)
                || (f.sequenceParallel && (f.contextIsMoe || (!f.draft && f.numTokens.value >= 1001))))
  {
  }

  /** f is the forward of a rank, given the token counts of all ranks. */
  ghost predicate IsForwardOf(f: Forward, counts: seq<nat>, rank: nat, skip: bool, padAll: bool)
    requires rank < |counts|
  {
    var across := AcrossDp(counts, rank, skip, padAll);
    && f.acrossDp == across
    && f.numTokens == Some(if across.Some? then across.value[rank] else counts[rank])
  }

  /** Under flash communication a rank pads to the least multiple of tp that holds what it chooses by. */
  lemma PaddedLengthIs(f: Forward, counts: seq<nat>, rank: nat, skip: bool, padAll: bool, tp: nat)
    requires tp > 0 && rank < |counts| && |counts| > 1 && IsForwardOf(f, counts, rank, skip, padAll) && FlashComm(f, tp)
    ensures ValidForward(f)
    ensures var p := Pads(f, tp, |counts|);
            var most := if skip then counts[rank] else Maximum(counts);
            && f.numTokens == Some(if padAll then most else counts[rank])
            && p.paddedLength == p.paddedTokens == Some(RoundUp(most, tp))
            && p.padSize >= 0 && f.numTokens.value + p.padSize == RoundUp(most, tp)
  {
    ChoosesByIs(counts, rank, skip, padAll);
  }

  /**
   Two ranks under flash communication pad to the same length exactly when the all-reduce was not
   skipped or their own counts round up to the same multiple of tp.
   */
  lemma PaddedLengthsAgreeIff(f: Forward, g: Forward, counts: seq<nat>, r: nat, s: nat, skip: bool, padAll: bool,
                              tp: nat)
    requires tp > 0 && r < |counts| && s < |counts| && |counts| > 1
    requires IsForwardOf(f, counts, r, skip, padAll) && FlashComm(f, tp)
    requires IsForwardOf(g, counts, s, skip, padAll) && FlashComm(g, tp)
    ensures ValidForward(f) && ValidForward(g)
    ensures Pads(f, tp, |counts|).paddedLength == Pads(g, tp, |counts|).paddedLength
            <==> !skip || RoundUp(counts[r], tp) == RoundUp(counts[s], tp)
  {
    PaddedLengthIs(f, counts, r, skip, padAll, tp);
    PaddedLengthIs(g, counts, s, skip, padAll, tp);
  }

  lemma MultiplesStay(n: nat, tp: nat)
    requires tp > 0 && n % tp == 0
    ensures RoundUp(n, tp) == n && RoundUp(n + tp, tp) == n + tp
  {
    var q := n / tp;
    assert n == q * tp && (q + 1) * tp == q * tp + tp;
    RoundUpIs(n, tp, q);
    RoundUpIs(n + tp, tp, q + 1);
  }

  /**
   Where the configuration skips the all-reduce, a rank that is one multiple of tp ahead of another pads
   to a sequence that is longer by tp.
   */
  lemma SkippedLengthsDiffer(cfg: Config, tp: nat, n: nat, padAll: bool, f: Forward, g: Forward)
    requires ValidConfig(cfg) && tp > 0 && Skips(cfg, false, tp) == Ok(true)
    requires n % tp == 0 && n + tp <= cfg.maxBatchedTokens && FlashComm(f, tp) && FlashComm(g, tp)
    requires IsForwardOf(f, [n, n + tp], 0, Skips(cfg, false, tp).value, padAll)
    requires IsForwardOf(g, [n, n + tp], 1, Skips(cfg, false, tp).value, padAll)
    ensures ValidForward(f) && ValidForward(g)
    ensures Pads(f, tp, 2).paddedLength == Some(n) && Pads(g, tp, 2).paddedLength == Some(n + tp)
  {
    PaddedLengthIs(f, [n, n + tp], 0, true, padAll, tp);
    PaddedLengthIs(g, [n, n + tp], 1, true, padAll, tp);
    MultiplesStay(n, tp);
  }

  /** The recomputing decode server does so for every tensor-parallel size of its 16 ranks. */
  lemma RecomputingLengthsDiffer(tp: nat, n: nat, f: Forward, g: Forward)
    requires 1 <= tp <= 16 && n % tp == 0 && n + tp <= 8192 && FlashComm(f, tp) && FlashComm(g, tp)
    requires IsForwardOf(f, [n, n + tp], 0, true, false) && IsForwardOf(g, [n, n + tp], 1, true, false)
    ensures ValidForward(f) && ValidForward(g) && Skips(RECOMPUTING, false, tp) == Ok(true)
    ensures Pads(f, tp, 2).paddedLength != Pads(g, tp, 2).paddedLength
  {
    RecomputingIsDecodeOnly(tp);
    SkippedLengthsDiffer(RECOMPUTING, tp, n, false, f, g);
  }

  /** The view has the full padded length for every batch the scheduler allows exactly when tp divides its limit. */
  lemma FullViewIff(maxBatched: nat, tp: nat)
    requires tp > 0
    ensures (forall n: nat :: n <= maxBatched ==> RoundUp(n, tp) <= maxBatched) <==> maxBatched % tp == 0
  {
    if maxBatched % tp == 0 {
      var k := maxBatched / tp;
      assert maxBatched == k * tp;
      forall n: nat | n <= maxBatched
        ensures RoundUp(n, tp) <= maxBatched
      {
        RoundUpLeast(n, tp, k);
      }
    } else {
      assert RoundUp(maxBatched, tp) != maxBatched;
    }
  }

  /** The first count entries of a mask of the given length. */
  function MaskOf(length: nat, count: nat): seq<bool> {
    seq(length, i => i < count)
  }

  /** The write-once capacity and decode maximum, and the one reserved mask buffer. */
  class Globals {
    var capacity: Option<nat>
    var potential: Option<nat>
    var mask: array?<bool>

    constructor ()
      ensures capacity == None && potential == None && mask == null
    {
      capacity, potential, mask := None, None, null;
    }

    method SetCapacity(cfg: Config, tp: nat, maxReqs: nat, queryLen: nat)
      requires tp > 0
      modifies this`capacity
      ensures old(capacity).Some? ==> capacity == old(capacity)
      ensures old(capacity).None? ==>
                capacity == Some(CapacityFor(CapacityTokens(cfg, maxReqs * queryLen), tp))
    {
      if capacity.Some? {
        return;
      }
      var maxTokens;
      if cfg.prefillMc2 {
        maxTokens := cfg.maxBatchedTokens;
      } else if cfg.hasCaptureSizes {
        maxTokens := cfg.maxCaptureSize;
      } else {
        maxTokens := maxReqs * queryLen;
      }
      var perRank := (maxTokens + tp - 1) / tp;
      perRank := Min(perRank, 512);
      capacity := Some(perRank * tp);
    }

    method SetPotential(cfg: Config)
      modifies this`potential
      ensures potential == if old(potential).Some? then old(potential) else Some(PotentialMaxTokens(cfg))
    {
      if potential.None? {
        potential := Some(PotentialMaxTokens(cfg));
      }
    }

    /** Reserves the mask of a MoE model once; a dense model has none. */
    method SetMask(cfg: Config)
      modifies this`mask
      ensures old(mask) != null ==> mask == old(mask)
      ensures old(mask) == null && !cfg.moeModel ==> mask == null
      ensures old(mask) == null && cfg.moeModel ==>
                mask != null && fresh(mask) && mask[..] == MaskOf(cfg.maxBatchedTokens, 0)
    {
      if mask != null {
        return;
      }
      if cfg.moeModel {
        mask := new bool[cfg.maxBatchedTokens](_ => false);
      } else {
        mask := null;
      }
    }

    /**
     The mask part of one forward. The view is the front of the reserved buffer; whatever earlier
     forwards left there, exactly its first `actual` entries are set, and the rest of the buffer stays.
     */
    method Enter(f: Forward, tp: nat, dpSize: nat) returns (view: Option<nat>)
      requires tp > 0 && ValidForward(f)
      modifies mask
      ensures var padded := Pads(f, tp, dpSize).paddedTokens;
              view == if padded.Some? && mask != null then Some(Min(padded.value, mask.Length)) else None
      ensures view.Some? ==>
                && mask != null && view.value <= mask.Length
                && mask[..view.value] == MaskOf(view.value, if f.numActual.Some? then f.numActual.value
                     else TokensOf(f).value)
                && mask[view.value..] == old(mask[view.value..])
      ensures view.None? && mask != null ==> mask[..] == old(mask[..])
    {
      var padded := Pads(f, tp, dpSize).paddedTokens;
      if padded.None? || mask == null {
        return None;
      }
      var buffer := mask;
      var length := Min(padded.value, buffer.Length);
      var actual := if f.numActual.Some? then f.numActual.value else TokensOf(f).value;
      for i := 0 to Min(actual, length)
        invariant forall k :: 0 <= k < i ==> buffer[k]
        invariant buffer[length..] == old(buffer[length..])
      {
        buffer[i] := true;
      }
      for i := Min(actual, length) to length
        invariant forall k :: 0 <= k < Min(actual, length) ==> buffer[k]
        invariant forall k :: Min(actual, length) <= k < i ==> !buffer[k]
        invariant buffer[length..] == old(buffer[length..])
      {
        buffer[i] := false;
      }
      return Some(length);
    }

    /** Over any run of forwards on the one buffer, each view is what its own forward asked for. */
    method Run(fs: seq<Forward>, tp: nat, dpSize: nat) returns (views: seq<Option<seq<bool>>>)
      requires tp > 0 && mask != null && forall i :: 0 <= i < |fs| ==> ValidForward(fs[i])
      modifies mask
      ensures |views| == |fs|
      ensures forall i :: 0 <= i < |fs| ==>
                views[i] == if TokensOf(fs[i]).Some? then Some(ViewOf(fs[i], tp, dpSize, mask.Length)) else None
    {
      views := [];
      for i := 0 to |fs|
        invariant |views| == i
        invariant forall k :: 0 <= k < i ==>
                    views[k] == if TokensOf(fs[k]).Some? then Some(ViewOf(fs[k], tp, dpSize, mask.Length)) else None
      {
        var view := Enter(fs[i], tp, dpSize);
        views := views + [if view.Some? then Some(mask[..view.value]) else None];
      }
    }
  }

  /** The mask a forward with a token count sees in a buffer of the given capacity. */
  function ViewOf(f: Forward, tp: nat, dpSize: nat, bufferLength: nat): seq<bool>
    requires tp > 0 && ValidForward(f) && TokensOf(f).Some?
  {
    MaskOf(Min(Pads(f, tp, dpSize).paddedTokens.value, bufferLength),
           if f.numActual.Some? then f.numActual.value else TokensOf(f).value)
  }

  /** A view has exactly its first `actual` entries set, and its full padded length when tp divides the buffer. */
  lemma ViewsCountActual(f: Forward, tp: nat, dpSize: nat, bufferLength: nat, i: nat)
    requires tp > 0 && ValidForward(f) && TokensOf(f).Some? && i < |ViewOf(f, tp, dpSize, bufferLength)|
    ensures ViewOf(f, tp, dpSize, bufferLength)[i] <==>
            i < if f.numActual.Some? then f.numActual.value else TokensOf(f).value
    ensures bufferLength % tp == 0 && Pads(f, tp, dpSize).maxAcrossDp.value <= bufferLength ==>
              |ViewOf(f, tp, dpSize, bufferLength)| == Pads(f, tp, dpSize).paddedTokens.value
  {
    FullViewIff(bufferLength, tp);
  }
}
