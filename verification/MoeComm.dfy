/**
 Choosing the MoE collective. Data-parallel ranks choose on their own, and a collective only works
 when all of them choose the same one.
 */
module MoeComm {
  import opened Prelude
  import opened Arithmetic
  import opened Devices

  datatype CommType = AllGather | MC2 | AllToAll | FusedMC2

  datatype Error = CapacityNotSet | PotentialNotSet

  /** The settings the choice reads; all ranks of one deployment share them. */
  datatype Config = Config(
    device: DeviceType,
    moeModel: bool,
    drafterMoeModel: bool,
    expertParallel: bool,
    epGroupSize: nat,
    numExperts: nat,
    worldAcrossDp: nat,
    pipelineSize: nat,
    expertsPerToken: nat,
    enableFusedMc2: int,
    gmmCombineDecode: bool,
    w8a8Dynamic: bool,
    hierarchicalComm: bool,
    kvConsumer: bool,
    recomputeScheduler: bool,
    prefillMc2: bool,
    hasCaptureSizes: bool,
    maxCaptureSize: nat,
    maxBatchedTokens: nat,
    maxNumSeqs: nat,
    speculativeTokens: Option<nat>)

  ghost predicate ValidConfig(cfg: Config) {
    0 < cfg.pipelineSize <= cfg.worldAcrossDp && (cfg.worldAcrossDp / cfg.pipelineSize) > 0
  }

  /** `n <= capacity`, which raises while the capacity is not set. */
  function Fits(n: nat, capacity: Option<nat>): Outcome<bool, Error> {
    if capacity.None? then Raised(CapacityNotSet) else Ok(n <= capacity.value)
  }

  function SelectA2(n: nat, cfg: Config, capacity: Option<nat>): Outcome<CommType, Error>
    requires ValidConfig(cfg)
  {
    var epSize := cfg.worldAcrossDp / cfg.pipelineSize;
    if cfg.numExperts / epSize <= 24 && epSize >= 16 then
      match Fits(n, capacity)
      case Raised(e) => Raised(e)
      case Ok(fits) => Ok(if fits then MC2 else AllGather)
    else Ok(AllGather)
  }

  /** Whether a flag value of `enable_fused_mc2` turns fusion on for a batch within the capacity. */
  function FusedDecode(cfg: Config): bool {
    if cfg.enableFusedMc2 == 1 then cfg.epGroupSize <= 32
    else if cfg.enableFusedMc2 == 2 then cfg.gmmCombineDecode && cfg.w8a8Dynamic
    else cfg.enableFusedMc2 != 0
  }

  function FusedPrefill(cfg: Config): bool {
    if cfg.enableFusedMc2 == 1 then cfg.epGroupSize <= 32
    else if cfg.enableFusedMc2 == 2 then false
    else cfg.enableFusedMc2 != 0
  }

  function SelectA3(n: nat, cfg: Config, capacity: Option<nat>): Outcome<CommType, Error> {
    match Fits(n, capacity)
    case Raised(e) => Raised(e)
    case Ok(fits) =>
      if fits then Ok(if FusedDecode(cfg) then FusedMC2 else MC2)
      else Ok(if FusedPrefill(cfg) then FusedMC2 else AllToAll)
  }

  function SelectA5(n: nat, cfg: Config, capacity: Option<nat>): Outcome<CommType, Error> {
    match Fits(n, capacity)
    case Raised(e) => Raised(e)
    case Ok(fits) =>
      if fits && cfg.worldAcrossDp > 1 then Ok(MC2)
      else if cfg.worldAcrossDp <= cfg.expertsPerToken then Ok(AllGather)
      else Ok(AllToAll)
  }

  /** `select_moe_comm_method`; a dense model has no MoE collective. */
  function Select(n: nat, cfg: Config, capacity: Option<nat>): Outcome<Option<CommType>, Error>
    requires ValidConfig(cfg)
  {
    if !cfg.moeModel then Ok(None)
    else
      var method_ :=
        if !cfg.expertParallel || cfg.epGroupSize == 1 then Ok(AllGather)
        else
          match cfg.device
          case A2 => SelectA2(n, cfg, capacity)
          case A3 => SelectA3(n, cfg, capacity)
          case A5 => SelectA5(n, cfg, capacity)
          case A310P => Ok(AllGather);
      match method_
      case Raised(e) => Raised(e)
      case Ok(c) => Ok(Some(c))
  }

  // ---- what each choice needs

  /** A MoE model with its experts spread over several ranks. */
  predicate Spread(cfg: Config) {
    cfg.moeModel && cfg.expertParallel && cfg.epGroupSize != 1
  }

  /** At most 24 experts a rank and at least 16 ranks, which MC2 needs on A2. */
  predicate ThinlySpread(cfg: Config)
    requires ValidConfig(cfg)
  {
    var ranks := cfg.worldAcrossDp / cfg.pipelineSize;
    ranks >= 16 && cfg.numExperts / ranks <= 24
  }

  /** Only a dense model has no collective, and only a missing capacity that is looked at raises. */
  lemma SelectsNoneIff(n: nat, cfg: Config, capacity: Option<nat>)
    requires ValidConfig(cfg)
    ensures Select(n, cfg, capacity) == Ok(None) <==> !cfg.moeModel
    ensures Select(n, cfg, capacity).Raised? <==>
            && Spread(cfg) && capacity.None?
            && (cfg.device.A3? || cfg.device.A5? || (cfg.device.A2? && ThinlySpread(cfg)))
    ensures Select(n, cfg, capacity).Raised? ==> Select(n, cfg, capacity).error == CapacityNotSet
  {
  }

  /**
   Fused MC2 is for A3: for all batches with flag 1 and at most 32 ranks, for batches within the capacity
   with flag 2, dynamic w8a8 and the combined decode, for all batches with any other flag but 0.
   */
  lemma SelectsFusedIff(n: nat, cfg: Config, capacity: Option<nat>)
    requires ValidConfig(cfg)
    ensures Select(n, cfg, capacity) == Ok(Some(FusedMC2)) <==>
            && Spread(cfg) && cfg.device.A3? && capacity.Some?
            && (|| (cfg.enableFusedMc2 == 1 && cfg.epGroupSize <= 32)
                || (cfg.enableFusedMc2 == 2 && cfg.w8a8Dynamic && cfg.gmmCombineDecode && n <= capacity.value)
                || cfg.enableFusedMc2 < 0 || cfg.enableFusedMc2 > 2)
  {
  }

  /** MC2 is for batches within the capacity, where A2 spreads thinly, A3 does not fuse or A5 has two ranks or more. */
  lemma SelectsMc2Iff(n: nat, cfg: Config, capacity: Option<nat>)
    requires ValidConfig(cfg)
    ensures Select(n, cfg, capacity) == Ok(Some(MC2)) <==>
            && Spread(cfg) && capacity.Some? && n <= capacity.value
            && match cfg.device
               case A2 => ThinlySpread(cfg)
               case A3 =>
                 || cfg.enableFusedMc2 == 0 || (cfg.enableFusedMc2 == 1 && cfg.epGroupSize > 32)
                 || (cfg.enableFusedMc2 == 2 && !(cfg.w8a8Dynamic && cfg.gmmCombineDecode))
               case A5 => cfg.worldAcrossDp > 1
               case A310P => false
  {
  }

  /** All-to-all is for batches above the capacity on A3 without fused prefill, and for A5 with many ranks. */
  lemma SelectsAllToAllIff(n: nat, cfg: Config, capacity: Option<nat>)
    requires ValidConfig(cfg)
    ensures Select(n, cfg, capacity) == Ok(Some(AllToAll)) <==>
            && Spread(cfg) && capacity.Some?
            && match cfg.device
               case A3 =>
                 && n > capacity.value
                 && (cfg.enableFusedMc2 == 0 || cfg.enableFusedMc2 == 2
                     || (cfg.enableFusedMc2 == 1 && cfg.epGroupSize > 32))
               case A5 =>
                 && (n > capacity.value || cfg.worldAcrossDp == 1) && cfg.worldAcrossDp > cfg.expertsPerToken
               case _ => false
  {
  }

  /** All-gather is for models that are not spread, for A310P, and for what MC2 does not serve on A2 and small A5. */
  lemma SelectsAllGatherIff(n: nat, cfg: Config, capacity: Option<nat>)
    requires ValidConfig(cfg)
    ensures Select(n, cfg, capacity) == Ok(Some(AllGather)) <==>
            && cfg.moeModel
            && (Spread(cfg) ==>
                  match cfg.device
                  case A2 => ThinlySpread(cfg) ==> capacity.Some? && n > capacity.value
                  case A3 => false
                  case A5 =>
                    && capacity.Some? && (n > capacity.value || cfg.worldAcrossDp == 1)
                    && cfg.worldAcrossDp <= cfg.expertsPerToken
                  case A310P => true)
  {
  }

  /** Choosing for n tokens gives MC2 or its fused form. */
  predicate PicksMc2(n: nat, cfg: Config, capacity: Option<nat>)
    requires ValidConfig(cfg)
  {
    var c := Select(n, cfg, capacity);
    c == Ok(Some(MC2)) || c == Ok(Some(FusedMC2))
  }

  /** On every device, a choice of MC2 or fused MC2 is the choice for every smaller batch too. */
  lemma Mc2ForSmaller(n: nat, m: nat, cfg: Config, capacity: Option<nat>)
    requires ValidConfig(cfg) && n <= m && PicksMc2(m, cfg, capacity)
    ensures Select(n, cfg, capacity) == Select(m, cfg, capacity)
  {
    match cfg.device
    case A2 =>
    case A3 =>
      assert FusedPrefill(cfg) ==> FusedDecode(cfg);
    case A5 =>
    case A310P =>
  }

  // ---- skipping the all-reduce over the data-parallel group

  function ContextIsMoe(cfg: Config, draft: bool): bool {
    if draft then cfg.drafterMoeModel else cfg.moeModel
  }

  /** The tokens of a decode step in which every sequence has its full query. */
  function Decodes(cfg: Config): nat {
    cfg.maxNumSeqs * (if cfg.speculativeTokens.None? then 1 else 1 + cfg.speculativeTokens.value)
  }

  /** `_compute_potential_max_tokens`. */
  function PotentialMaxTokens(cfg: Config): nat {
    if cfg.hasCaptureSizes then Max(cfg.maxCaptureSize, Min(cfg.maxBatchedTokens, Decodes(cfg)))
    else Min(Decodes(cfg), 512)
  }

  /** A decode batch that the scheduler can form: a token for each sequence, and its speculative tokens. */
  predicate DecodeBatch(cfg: Config, n: nat) {
    var spec := if cfg.speculativeTokens.Some? then cfg.speculativeTokens.value else 0;
    n <= cfg.maxBatchedTokens && n <= cfg.maxNumSeqs + cfg.maxNumSeqs * spec
  }

  lemma DecodeBatchIff(cfg: Config, n: nat)
    ensures DecodeBatch(cfg, n) <==> n <= cfg.maxBatchedTokens && n <= Decodes(cfg)
  {
    if cfg.speculativeTokens.Some? {
      var a, b := cfg.maxNumSeqs, cfg.speculativeTokens.value;
      assert a * (1 + b) == a + a * b;
    }
  }

  /**
   It covers every decode batch that the scheduler can form exactly when there are capture sizes or no
   such batch is above 512. With capture sizes it is the least number that does so and covers these too;
   without, it is the largest that is within 512 and a full decode step.
   */
  lemma PotentialCoversIff(cfg: Config, m: nat)
    ensures (forall n: nat :: DecodeBatch(cfg, n) ==> n <= PotentialMaxTokens(cfg))
            <==> cfg.hasCaptureSizes || !DecodeBatch(cfg, 513)
    ensures cfg.hasCaptureSizes ==>
              (PotentialMaxTokens(cfg) <= m <==>
               cfg.maxCaptureSize <= m && forall n: nat :: DecodeBatch(cfg, n) ==> n <= m)
    ensures !cfg.hasCaptureSizes && m <= cfg.maxBatchedTokens ==>
              (m <= PotentialMaxTokens(cfg) <==> m <= 512 && DecodeBatch(cfg, m))
  {
    forall n: nat
      ensures DecodeBatch(cfg, n) <==> n <= cfg.maxBatchedTokens && n <= Decodes(cfg)
    {
      DecodeBatchIff(cfg, n);
    }
    assert DecodeBatch(cfg, Min(cfg.maxBatchedTokens, Decodes(cfg)));
  }

  function NeedsMc2(n: nat, cfg: Config, capacity: Option<nat>): Outcome<bool, Error>
    requires ValidConfig(cfg)
  {
    match Select(n, cfg, capacity)
    case Raised(e) => Raised(e)
    case Ok(_) => Ok(PicksMc2(n, cfg, capacity))
  }

  /** `should_skip_allreduce_across_dp_group`. */
  function ShouldSkip(cfg: Config, draft: bool, capacity: Option<nat>, potential: Option<nat>): Outcome<bool, Error>
    requires ValidConfig(cfg)
  {
    if cfg.hierarchicalComm then Ok(false)
    else if !ContextIsMoe(cfg, draft) then Ok(true)
    else if !cfg.kvConsumer then Ok(false)
    else if potential.None? then Raised(PotentialNotSet)
    else
      match NeedsMc2(potential.value, cfg, capacity)
      case Raised(e) => Raised(e)
      case Ok(decode) =>
        match NeedsMc2(cfg.maxBatchedTokens, cfg, capacity)
        case Raised(e) => Raised(e)
        case Ok(prefill) => Ok(decode && (prefill || cfg.recomputeScheduler))
  }

  /**
   The all-reduce is skipped exactly without hierarchical communication, for a dense model, or on a
   consumer of KV caches that uses MC2 for decode, and uses it for prefill too or recomputes instead.
   */
  lemma ShouldSkipIff(cfg: Config, draft: bool, capacity: Option<nat>, potential: Option<nat>)
    requires ValidConfig(cfg)
    ensures ShouldSkip(cfg, draft, capacity, potential) == Ok(true) <==>
            && !cfg.hierarchicalComm
            && (|| !(if draft then cfg.drafterMoeModel else cfg.moeModel)
                || (&& cfg.kvConsumer && potential.Some? && PicksMc2(potential.value, cfg, capacity)
                    && (cfg.recomputeScheduler || PicksMc2(cfg.maxBatchedTokens, cfg, capacity))))
    ensures ShouldSkip(cfg, draft, capacity, potential).Raised? <==>
            && !cfg.hierarchicalComm && (if draft then cfg.drafterMoeModel else cfg.moeModel) && cfg.kvConsumer
            && (potential.None? || Select(potential.value, cfg, capacity).Raised?)
  {
    if potential.Some? {
      SelectsNoneIff(potential.value, cfg, capacity);
      SelectsNoneIff(cfg.maxBatchedTokens, cfg, capacity);
    }
  }

  /** The largest batch for which the skip decision has established MC2. */
  function TestedMax(cfg: Config, capacity: Option<nat>, potential: nat): nat
    requires ValidConfig(cfg)
  {
    if PicksMc2(cfg.maxBatchedTokens, cfg, capacity) then Max(potential, cfg.maxBatchedTokens) else potential
  }

  lemma SkipMeansMc2(cfg: Config, draft: bool, capacity: Option<nat>, potential: Option<nat>, n: nat)
    requires ValidConfig(cfg) && ShouldSkip(cfg, draft, capacity, potential) == Ok(true) && ContextIsMoe(cfg, draft)
    requires potential.Some? ==> n <= TestedMax(cfg, capacity, potential.value)
    ensures potential.Some? && PicksMc2(n, cfg, capacity)
    ensures Select(n, cfg, capacity) == Select(potential.value, cfg, capacity)
  {
    var p, b := potential.value, cfg.maxBatchedTokens;
    assert PicksMc2(p, cfg, capacity);
    if n <= p {
      Mc2ForSmaller(n, p, cfg, capacity);
    } else {
      Mc2ForSmaller(n, b, cfg, capacity);
      Mc2ForSmaller(p, b, cfg, capacity);
    }
  }

  /** The guards that let MC2 serve n tokens once it serves the decode maximum. */
  predicate StaysMc2(n: nat, cfg: Config, capacity: nat) {
    n <= capacity || (cfg.device.A3? && FusedPrefill(cfg))
  }

  /**
   When the all-reduce is skipped, ranks choose the same collective for all batches up to a bound
   exactly when the bound is within the capacity, or the device is an A3 whose fused MC2 covers prefill.
   */
  lemma SkipAgreesIff(cfg: Config, draft: bool, capacity: Option<nat>, potential: Option<nat>, bound: nat)
    requires ValidConfig(cfg) && ShouldSkip(cfg, draft, capacity, potential) == Ok(true) && ContextIsMoe(cfg, draft)
    ensures capacity.Some?
    ensures (forall m: nat, n: nat :: m <= bound && n <= bound ==> Select(m, cfg, capacity) == Select(n, cfg, capacity))
            <==> StaysMc2(bound, cfg, capacity.value)
  {
    var p := potential.value;
    assert PicksMc2(p, cfg, capacity);
    Mc2Guards(p, p, cfg, capacity);
    if bound <= p {
      Mc2ForSmaller(bound, p, cfg, capacity);
    } else {
      Mc2Guards(p, bound, cfg, capacity);
    }
    if PicksMc2(bound, cfg, capacity) {
      forall m: nat, n: nat | m <= bound && n <= bound
        ensures Select(m, cfg, capacity) == Select(n, cfg, capacity)
      {
        Mc2ForSmaller(m, bound, cfg, capacity);
        Mc2ForSmaller(n, bound, cfg, capacity);
      }
    }
  }

  lemma Mc2Guards(p: nat, n: nat, cfg: Config, capacity: Option<nat>)
    requires ValidConfig(cfg) && p <= n && PicksMc2(p, cfg, capacity)
    ensures capacity.Some? && (PicksMc2(n, cfg, capacity) <==> StaysMc2(n, cfg, capacity.value))
  {
  }

  // ---- one data-parallel step

  function Maximum(s: seq<nat>): (m: nat)
    requires s != []
    ensures m in s && forall i :: 0 <= i < |s| ==> s[i] <= m
  {
    if |s| == 1 then s[0]
    else
      var m := Maximum(s[..|s| - 1]);
      assert forall i :: 0 <= i < |s| - 1 ==> s[..|s| - 1][i] == s[i];
      Max(m, s[|s| - 1])
  }

  function Copies(n: nat, x: nat): seq<nat> {
    seq(n, _ => x)
  }

  lemma CopiesMaximum(n: nat, x: nat)
    requires n > 0
    ensures Maximum(Copies(n, x)) == x
  {
  }

  /**
   The token counts that a rank passes on, from `_sync_metadata_across_dp`: none when it is alone; its
   own count for every rank when the all-reduce is skipped; otherwise the counts of all ranks, or their
   maximum for every rank when the batches are padded to it.
   */
  function AcrossDp(counts: seq<nat>, rank: nat, skip: bool, padAll: bool): (r: Option<seq<nat>>)
    requires rank < |counts|
    ensures r.Some? ==> |r.value| == |counts|
  {
    if |counts| == 1 then None
    else if skip then Some(Copies(|counts|, counts[rank]))
    else if padAll then Some(Copies(|counts|, Maximum(counts)))
    else Some(counts)
  }

  /** The token count a rank chooses its collective by. */
  function ChoosesBy(counts: seq<nat>, rank: nat, skip: bool, padAll: bool): nat
    requires rank < |counts|
  {
    var across := AcrossDp(counts, rank, skip, padAll);
    if across.Some? then Maximum(across.value) else counts[rank]
  }

  /** Its own count when it is alone or skips, and otherwise the maximum over all ranks. */
  lemma ChoosesByIs(counts: seq<nat>, rank: nat, skip: bool, padAll: bool)
    requires rank < |counts|
    ensures ChoosesBy(counts, rank, skip, padAll) == if |counts| == 1 || skip then counts[rank] else Maximum(counts)
  {
    CopiesMaximum(|counts|, counts[rank]);
    CopiesMaximum(|counts|, Maximum(counts));
  }

  /** Whatever the batches of the ranks, and skipped or not, all ranks enter the same collective. */
  lemma RanksAgree(cfg: Config, draft: bool, capacity: Option<nat>, potential: Option<nat>, counts: seq<nat>,
                   padAll: bool, r: nat, s: nat)
    requires ValidConfig(cfg) && r < |counts| && s < |counts| && ContextIsMoe(cfg, draft)
    requires ShouldSkip(cfg, draft, capacity, potential).Ok?
    requires ShouldSkip(cfg, draft, capacity, potential).value && potential.Some? ==>
               forall i :: 0 <= i < |counts| ==> counts[i] <= TestedMax(cfg, capacity, potential.value)
    ensures var skip := ShouldSkip(cfg, draft, capacity, potential).value;
            Select(ChoosesBy(counts, r, skip, padAll), cfg, capacity)
            == Select(ChoosesBy(counts, s, skip, padAll), cfg, capacity)
  {
    var skip := ShouldSkip(cfg, draft, capacity, potential).value;
    ChoosesByIs(counts, r, skip, padAll);
    ChoosesByIs(counts, s, skip, padAll);
    if |counts| > 1 && skip {
      SkipMeansMc2(cfg, draft, capacity, potential, counts[r]);
      SkipMeansMc2(cfg, draft, capacity, potential, counts[s]);
    }
  }

  // ---- the MC2 capacity

  function CapacityFor(maxTokens: nat, tp: nat): nat
    requires tp > 0
  {
    Min((maxTokens + tp - 1) / tp, 512) * tp
  }

  /** A multiple of tp that holds every batch up to maxTokens, as far as 512 tokens a rank allow. */
  lemma CapacityBounds(maxTokens: nat, tp: nat)
    requires tp > 0
    ensures CapacityFor(maxTokens, tp) % tp == 0
    ensures Min(maxTokens, 512 * tp) <= CapacityFor(maxTokens, tp) <= 512 * tp
    ensures CapacityFor(maxTokens, tp) < maxTokens + tp
  {
    var q := (maxTokens + tp - 1) / tp;
    assert q * tp <= maxTokens + tp - 1 < q * tp + tp;
    var c := Min(q, 512);
    DivOfMultiple(c, tp);
    if q >= 512 {
      MulLe(512, q, tp);
    } else {
      MulLe(q, 512, tp);
    }
  }

  // ---- what one configuration decides

  /** The largest batch the capacity is meant for: `max_num_tokens` of `set_mc2_tokens_capacity`. */
  function CapacityTokens(cfg: Config, decodes: nat): nat {
    if cfg.prefillMc2 then cfg.maxBatchedTokens
    else if cfg.hasCaptureSizes then cfg.maxCaptureSize
    else decodes
  }

  /** The capacity that the model runner sets. */
  function Capacity(cfg: Config, tp: nat): nat
    requires tp > 0
  {
    CapacityFor(CapacityTokens(cfg, Decodes(cfg)), tp)
  }

  /** The skip decision with the capacity and the potential maximum that the configuration gives. */
  function Skips(cfg: Config, draft: bool, tp: nat): Outcome<bool, Error>
    requires ValidConfig(cfg) && tp > 0
  {
    ShouldSkip(cfg, draft, Some(Capacity(cfg, tp)), Some(PotentialMaxTokens(cfg)))
  }

  /** The capacity is the least multiple of tp that holds maxTokens, cut off at 512 tokens a rank. */
  lemma CapacityIs(maxTokens: nat, tp: nat)
    requires tp > 0
    ensures CapacityFor(maxTokens, tp) == Min(RoundUp(maxTokens, tp), 512 * tp)
  {
    var q := (maxTokens + tp - 1) / tp;
    CapacityBounds(maxTokens, tp);
    assert q * tp <= maxTokens + tp - 1 < q * tp + tp;
    RoundUpIs(maxTokens, tp, q);
    if q >= 512 {
      MulLe(512, q, tp);
    } else {
      MulLe(q, 512, tp);
    }
  }

  /**
   With the all-reduce skipped, ranks choose the same collective for all batches up to a bound exactly
   when the bound is within 512 tokens a rank and within the rounded size the capacity is meant for, or
   an A3 fuses prefill.
   */
  lemma ConfigAgreesIff(cfg: Config, draft: bool, tp: nat, bound: nat)
    requires ValidConfig(cfg) && tp > 0 && Skips(cfg, draft, tp) == Ok(true) && ContextIsMoe(cfg, draft)
    ensures var capacity := Some(Capacity(cfg, tp));
            (forall m: nat, n: nat :: m <= bound && n <= bound ==>
               Select(m, cfg, capacity) == Select(n, cfg, capacity))
            <==> || (bound <= 512 * tp && bound <= RoundUp(CapacityTokens(cfg, Decodes(cfg)), tp))
                 || (cfg.device.A3? && FusedPrefill(cfg))
  {
    SkipAgreesIff(cfg, draft, Some(Capacity(cfg, tp)), Some(PotentialMaxTokens(cfg)), bound);
    CapacityIs(CapacityTokens(cfg, Decodes(cfg)), tp);
  }

  /**
   A capacity meant for prefill makes the skip right for every batch the scheduler allows exactly when
   the scheduler's limit is within 512 tokens a rank, or an A3 fuses prefill.
   */
  lemma PrefillCapacityAgreesIff(cfg: Config, draft: bool, tp: nat)
    requires ValidConfig(cfg) && tp > 0 && Skips(cfg, draft, tp) == Ok(true) && ContextIsMoe(cfg, draft)
    requires cfg.prefillMc2
    ensures var capacity, bound := Some(Capacity(cfg, tp)), cfg.maxBatchedTokens;
            (forall m: nat, n: nat :: m <= bound && n <= bound ==>
               Select(m, cfg, capacity) == Select(n, cfg, capacity))
            <==> bound <= 512 * tp || (cfg.device.A3? && FusedPrefill(cfg))
  {
    SkipAgreesIff(cfg, draft, Some(Capacity(cfg, tp)), Some(PotentialMaxTokens(cfg)), cfg.maxBatchedTokens);
    CapacityBounds(cfg.maxBatchedTokens, tp);
  }

  /**
   A decode server on an A3 with the recompute scheduler and no fused prefill, whose capacity holds the
   potential decode maximum and not the largest batch of the scheduler.
   */
  predicate DecodeOnly(cfg: Config, tp: nat)
    requires tp > 0
  {
    && cfg.device.A3? && cfg.moeModel && cfg.expertParallel && cfg.epGroupSize != 1 && !FusedPrefill(cfg)
    && cfg.kvConsumer && cfg.recomputeScheduler && !cfg.hierarchicalComm
    && PotentialMaxTokens(cfg) <= Capacity(cfg, tp) < cfg.maxBatchedTokens
  }

  /** On all of them the all-reduce is skipped, and a rank above the capacity leaves the collective of the others. */
  lemma SkippedRanksMayDisagree(cfg: Config, tp: nat, m: nat, n: nat, padAll: bool)
    requires ValidConfig(cfg) && tp > 0 && DecodeOnly(cfg, tp)
    requires m <= Capacity(cfg, tp) < n <= cfg.maxBatchedTokens
    ensures Skips(cfg, false, tp) == Ok(true)
    ensures var capacity := Some(Capacity(cfg, tp));
            && PicksMc2(ChoosesBy([m, n], 0, true, padAll), cfg, capacity)
            && Select(ChoosesBy([m, n], 1, true, padAll), cfg, capacity) == Ok(Some(AllToAll))
  {
    ChoosesByIs([m, n], 0, true, padAll);
    ChoosesByIs([m, n], 1, true, padAll);
  }

  /** One of them: graphs for up to 256 tokens, and a scheduler that allows 8192. */
  const RECOMPUTING := Config(
    device := A3, moeModel := true, drafterMoeModel := false, hierarchicalComm := false, kvConsumer := true,
    recomputeScheduler := true, expertParallel := true, epGroupSize := 16, worldAcrossDp := 16, pipelineSize := 1,
    numExperts := 64, expertsPerToken := 8, enableFusedMc2 := 0, gmmCombineDecode := false, w8a8Dynamic := false,
    prefillMc2 := false, hasCaptureSizes := true, maxCaptureSize := 256, maxBatchedTokens := 8192, maxNumSeqs := 256,
    speculativeTokens := None)

  /** For every tensor-parallel size of its 16 ranks the capacity is 256 to 271 tokens, and it skips. */
  lemma RecomputingIsDecodeOnly(tp: nat)
    requires 1 <= tp <= 16
    ensures ValidConfig(RECOMPUTING) && DecodeOnly(RECOMPUTING, tp)
    ensures 256 <= Capacity(RECOMPUTING, tp) <= 271 && Skips(RECOMPUTING, false, tp) == Ok(true)
  {
    CapacityBounds(256, tp);
    SkippedRanksMayDisagree(RECOMPUTING, tp, 0, 8192, false);
  }
}
