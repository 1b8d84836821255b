/**
 Which CPUs an NPU gets, told by counting: a CPU goes to an NPU according to how many usable CPUs and how
 many competing NPUs have smaller numbers. No list and no builder is needed to say so.
 */
module CpuPlaces {
  import opened Prelude
  import opened Devices
  import opened Sorting
  import opened Dictionaries
  import opened CpuPlan
  import opened CpuSlices
  import opened CpuGroups
  import opened CpuClusters
  import opened CpuReach

  // ---- counting

  ghost function Smaller(s: set<nat>, x: nat): set<nat> {
    set y | y in s && y < x
  }

  /** How many members of s are smaller than x. */
  ghost function Below(s: set<nat>, x: nat): nat {
    |Smaller(s, x)|
  }

  ghost function Members(s: seq<nat>): set<nat> {
    set y | y in s
  }

  lemma {:induction false} Cardinality(s: seq<nat>)
    requires NoDup(s)
    ensures |Members(s)| == |s|
  {
    if s != [] {
      var k := |s| - 1;
      Cardinality(s[..k]);
      SplitLast(s);
      assert s[k] !in s[..k];
      assert Members(s) == Members(s[..k]) + {s[k]};
    }
  }

  lemma AscendingBelow(s: seq<nat>, i: nat)
    requires StrictlyAscending(s) && i < |s|
    ensures Below(Members(s), s[i]) == i
  {
    forall y: nat
      ensures y in Smaller(Members(s), s[i]) <==> y in Members(s[..i])
    {
      if y in Smaller(Members(s), s[i]) {
        assert s[..i][IndexOf(s, y)] == y;
      }
    }
    assert Smaller(Members(s), s[i]) == Members(s[..i]);
    Cardinality(s[..i]);
  }

  /** A part of an ascending list holds exactly those of its members that have as many below them. */
  lemma InPart(s: seq<nat>, lo: nat, hi: nat, c: nat)
    requires StrictlyAscending(s) && lo <= hi <= |s|
    ensures c in s[lo..hi] <==> c in s && lo <= Below(Members(s), c) < hi
  {
    if c in s {
      var i := IndexOf(s, c);
      AscendingBelow(s, i);
      if lo <= i < hi {
        assert s[lo..hi][i - lo] == c;
      }
    }
  }

  // ---- slices of the cpuset

  /** The number of NPUs a host is sliced for: the logical ones, or those with affinity, or the visible ones. */
  ghost predicate SlicedFor(info: DeviceInfo, total: nat) {
    || (info.allLogicNpus != [] && total == |info.allLogicNpus|)
    || (info.allLogicNpus == [] && info.npuAffinity != map[] && total == |info.npuAffinity|)
    || (info.allLogicNpus == [] && info.npuAffinity == map[] && total == |info.runningNpus|)
  }

  /** Where slice i begins: the first `count % total` slices are one longer than the others. */
  ghost function Begins(count: nat, total: nat, i: nat): nat
    requires total > 0
  {
    i * (count / total) + if i < count % total then i else count % total
  }

  lemma SortedCpus(cpus: Cpus)
    ensures Members(SortedSet(cpus)) == Members(cpus) && |SortedSet(cpus)| == |Members(cpus)|
  {
    AscendingNoDup(SortedSet(cpus));
    Cardinality(SortedSet(cpus));
    assert Members(SortedSet(cpus)) == Members(cpus);
  }

  lemma MinTimes(count: nat, total: nat, least: nat)
    requires total > 0
    ensures count / total < least <==> count < least * total
  {
    var q, r := count / total, count % total;
    assert count == q * total + r;
    if q < least {
      assert (q + 1) * total <= least * total;
    } else {
      assert least * total <= q * total;
    }
  }

  /**
   Slicing succeeds exactly with nothing to bind, or with at least 5 allowed CPUs (3 on A5) for each NPU
   that is sliced for and every visible id below their number. Too few CPUs are noticed first.
   */
  lemma GlobalPlanBuiltIff(info: DeviceInfo, device: DeviceType, total: nat)
    requires SlicedFor(info, total)
    ensures var few := |Members(info.allowedCpus)| < (if device.A5? then 3 else 5) * total;
            var idle := info.runningNpus == [] || info.allowedCpus == [];
            && (GlobalPlan(info, device).Built? <==> idle || (!few && forall n :: n in info.runningNpus ==> n < total))
            && (GlobalPlan(info, device) == Failed(InsufficientCpus) <==> !idle && few)
            && (GlobalPlan(info, device).Built? ==>
                  GlobalPlan(info, device).pools.keys == if idle then [] else info.runningNpus)
  {
    SortedCpus(info.allowedCpus);
    assert info.allowedCpus != [] ==> info.allowedCpus[0] in SortedSet(info.allowedCpus);
    assert SortedSet(info.allowedCpus) != [] ==> SortedSet(info.allowedCpus)[0] in info.allowedCpus;
    if total > 0 {
      MinTimes(|Members(info.allowedCpus)|, total, if device.A5? then 3 else 5);
    }
  }

  /** A3 is sliced, and so is every other device but A5 without affinity. */
  predicate Slices(info: DeviceInfo, device: DeviceType) {
    device.A3? || (!device.A5? && info.npuAffinity == map[])
  }

  /** The whole build of a sliced host: when it succeeds, and for which NPUs. */
  lemma SlicedBuiltIff(info: DeviceInfo, device: DeviceType, rows: seq<Row>, threadsPerCore: Option<nat>, total: nat)
    requires ValidInfo(info) && SlicedFor(info, total) && Slices(info, device)
    ensures var plan := Plan(info, device, rows, threadsPerCore);
            var idle := info.runningNpus == [] || info.allowedCpus == [];
            && (plan.Built? <==>
                && rows != []
                && (|| idle
                    || (5 * total <= |Members(info.allowedCpus)| && forall n :: n in info.runningNpus ==> n < total)))
            && (plan.Built? ==> plan.pools == GlobalPlan(info, device).pools)
  {
    GlobalPlanBuiltIff(info, device, total);
  }

  /** The whole build of a host with affinity, on the devices that are neither sliced nor A5. */
  lemma TopoBuiltIff(info: DeviceInfo, device: DeviceType, rows: seq<Row>, threadsPerCore: Option<nat>)
    requires ValidInfo(info) && !Slices(info, device) && !device.A5?
    ensures NumaCpus(rows) == map[] <==> rows == []
    ensures var plan := Plan(info, device, rows, threadsPerCore);
            if rows == [] then plan == Failed(NoNumaNode)
            else
              && (plan.Built? <==> TopoPlan(info, device, CpuNodes(rows), NumaCpus(rows)).Built?)
              && (plan.Built? ==> plan.pools == TopoPlan(info, device, CpuNodes(rows), NumaCpus(rows)).pools)
  {
    NumaNonEmpty(rows);
  }

  /** A CPU goes to NPU n exactly when it is allowed and as many allowed CPUs are below it as slice n says. */
  lemma GlobalPlaces(info: DeviceInfo, device: DeviceType, total: nat, n: nat, c: nat)
    requires SlicedFor(info, total) && GlobalPlan(info, device).Built? && GlobalPlan(info, device).pools.Has(n)
    ensures total > 0
    ensures var pool, count := GlobalPlan(info, device).pools.At(n), |Members(info.allowedCpus)|;
            && StrictlyAscending(pool)
            && (c in pool <==>
                && c in info.allowedCpus
                && Begins(count, total, n) <= Below(Members(info.allowedCpus), c) < Begins(count, total, n + 1))
  {
    var cpus := SortedSet(info.allowedCpus);
    SortedCpus(info.allowedCpus);
    SlicePart(cpus, total, n);
    InPart(cpus, Begins(|cpus|, total, n), Begins(|cpus|, total, n + 1), c);
  }

  lemma SlicePart(cpus: Cpus, total: nat, n: nat)
    requires n < total
    ensures Begins(|cpus|, total, n) <= Begins(|cpus|, total, n + 1) <= |cpus|
    ensures GlobalSlice(cpus, total, n) == cpus[Begins(|cpus|, total, n)..Begins(|cpus|, total, n + 1)]
  {
    SliceInRange(cpus, total, n);
    SliceStep(|cpus| / total, |cpus| % total, n);
  }

  // ---- clusters of Ascend 950

  /** The allowed CPUs of a node; of node 0 only CPU 0, since the others are kept for UVB threads. */
  ghost function FreeCpus(info: DeviceInfo, rows: seq<Row>, k: nat): set<nat> {
    set c | c in CpuNodes(rows) && CpuNodes(rows)[c] == k && c in info.allowedCpus && (k == 0 ==> c == 0)
  }

  /** The logical NPUs whose allowed affinity is on the node. */
  ghost function NodeNpus(info: DeviceInfo, rows: seq<Row>, k: nat): set<nat> {
    set n | n in info.allLogicNpus && OnNode(info, rows, n, k)
  }

  /** Some allowed CPU is near the NPU, and all of them are on node k. */
  ghost predicate OnNode(info: DeviceInfo, rows: seq<Row>, n: nat, k: nat) {
    && n in info.npuAffinity
    && (exists c :: c in info.npuAffinity[n] && c in info.allowedCpus)
    && (forall c :: c in info.npuAffinity[n] && c in info.allowedCpus ==>
          c in CpuNodes(rows) && CpuNodes(rows)[c] == k)
  }

  lemma OnNodeIff(info: DeviceInfo, rows: seq<Row>, n: nat, k: nat)
    ensures OnNode(info, rows, n, k) <==> NpuNode(info, CpuNodes(rows), n) == Ok(Some(k))
  {
    var base := BaseCpus(info, n);
    assert n in info.npuAffinity ==> forall c :: c in base <==> c in info.npuAffinity[n] && c in info.allowedCpus;
    if base != [] {
      assert base[0] in base;
    }
  }

  lemma ClusterCpusAre(info: DeviceInfo, rows: seq<Row>, k: nat)
    requires DistinctCpus(rows)
    ensures var cpus := ClusterCpus(info.allowedCpus, NumaCpus(rows), UvbPool(info, NumaCpus(rows)), k);
            StrictlyAscending(cpus) && Members(cpus) == FreeCpus(info, rows, k)
  {
    var numa := NumaCpus(rows);
    NumaMembers(rows, k);
    NumaMembers(rows, 0);
    SortedAscends(Get(numa, k));
    FilterAscends(Usable(info.allowedCpus, UvbPool(info, numa)), Sorted(Get(numa, k)));
  }

  lemma RivalsAre(info: DeviceInfo, rows: seq<Row>, h: ClusterInput, k: nat)
    requires ValidInfo(info) && h.npus == Candidates(info) && forall n :: n in h.node <==> n in Candidates(info)
    requires forall n :: n in h.node ==> NpuNode(info, CpuNodes(rows), n) == Ok(Some(h.node[n]))
    ensures StrictlyAscending(h.On(k)) && Members(h.On(k)) == NodeNpus(info, rows, k)
  {
    AscendingNoDup(info.allLogicNpus);
    SortedAscends(NpusOn(h.node, h.npus, k));
    forall n: nat
      ensures n in h.On(k) <==> n in NodeNpus(info, rows, k)
    {
      OnNodeIff(info, rows, n, k);
      OverlapsIff(info, n);
    }
  }

  /** The cluster of an NPU by the counts of CPUs and NPUs below. */
  ghost predicate PlacedBy(pool: Cpus, free: set<nat>, npus: set<nat>, size: nat, n: nat) {
    var rank := Below(npus, n);
    && StrictlyAscending(pool)
    && forall c :: c in pool <==> c in free && rank * size <= Below(free, c) < (rank + 1) * size
  }

  lemma ChunkPlaced(cpus: Cpus, on: seq<nat>, size: nat, n: nat)
    requires StrictlyAscending(cpus) && StrictlyAscending(on) && n in on && size > 0 && |on| <= |cpus| / size
    ensures PlacedBy(Chunk(cpus, size, IndexOf(on, n)), Members(cpus), Members(on), size, n)
  {
    var i := IndexOf(on, n);
    AscendingBelow(on, i);
    ChunkBounds(|cpus|, size, i);
    forall c: nat
      ensures c in cpus[i * size..(i + 1) * size] <==>
              c in Members(cpus) && i * size <= Below(Members(cpus), c) < (i + 1) * size
    {
      InPart(cpus, i * size, (i + 1) * size, c);
    }
  }

  lemma HolderPlaces(info: DeviceInfo, rows: seq<Row>, h: ClusterInput, n: nat, k: nat)
    requires ValidInfo(info) && h.Valid() && h.npus == Candidates(info) && n in h.node && k == h.node[n] && h.Enough(k)
    requires forall m :: m in h.node ==> NpuNode(info, CpuNodes(rows), m) == Ok(Some(h.node[m]))
    requires StrictlyAscending(h.cpus[k]) && Members(h.cpus[k]) == FreeCpus(info, rows, k)
    ensures PlacedBy(h.Cluster(n), FreeCpus(info, rows, k), NodeNpus(info, rows, k), h.size, n)
  {
    RankInRange(h, n);
    RivalsAre(info, rows, h, k);
    ChunkPlaced(h.cpus[k], h.On(k), h.size, n);
  }

  lemma InputIs(info: DeviceInfo, rows: seq<Row>, node: map<nat, nat>, size: nat, n: nat)
    requires ValidInfo(info) && size > 0 && n in node && forall m :: m in node <==> m in Candidates(info)
    ensures var h := InputOf(info, node, NumaCpus(rows), UvbPool(info, NumaCpus(rows)), size);
            && h.size == size && h.npus == Candidates(info) && h.node == node && node[n] in h.cpus
            && h.cpus[node[n]] == ClusterCpus(info.allowedCpus, NumaCpus(rows), UvbPool(info, NumaCpus(rows)), node[n])
  {
    assert node[n] in node.Values;
  }

  lemma BuiltNodes(info: DeviceInfo, rows: seq<Row>, node: map<nat, nat>)
    requires NodeMap(info, CpuNodes(rows), Candidates(info)) == Ok(Some(node))
    ensures forall m :: m in node ==> NpuNode(info, CpuNodes(rows), m) == Ok(Some(node[m]))
  {
  }

  lemma BuiltPlaces(info: DeviceInfo, rows: seq<Row>, node: map<nat, nat>, size: nat, n: nat, h: ClusterInput)
    requires DistinctCpus(rows) && BuiltFrom(info, rows, node, size) && n in node
    requires h == InputOf(info, node, NumaCpus(rows), UvbPool(info, NumaCpus(rows)), size)
    ensures h.AllEnough()
    ensures PlacedBy(h.Cluster(n), FreeCpus(info, rows, node[n]), NodeNpus(info, rows, node[n]), size, n)
  {
    InputIs(info, rows, node, size, n);
    ClusterCpusAre(info, rows, node[n]);
    BuiltNodes(info, rows, node);
    HolderPlaces(info, rows, h, n, node[n]);
  }

  /**
   In a built plan the NPUs of a node get its usable CPUs in ascending order, all threads of eight cores
   each, the NPU with the smallest number first.
   */
  lemma ClusterPlaces(info: DeviceInfo, rows: seq<Row>, threadsPerCore: Option<nat>, n: nat) returns (k: nat)
    requires ValidInfo(info) && DistinctCpus(rows) && n in info.runningNpus
    requires Plan(info, A5, rows, threadsPerCore).Built?
    ensures OnNode(info, rows, n, k) && threadsPerCore.Some? && Plan(info, A5, rows, threadsPerCore).pools.Has(n)
    ensures PlacedBy(Plan(info, A5, rows, threadsPerCore).pools.At(n), FreeCpus(info, rows, k), NodeNpus(info, rows, k),
                     8 * threadsPerCore.value, n)
  {
    var node, size := PlanBuiltFrom(info, rows, threadsPerCore);
    k := node[n];
    OnNodeIff(info, rows, n, k);
    BuiltPlaces(info, rows, node, size, n, InputOf(info, node, NumaCpus(rows), UvbPool(info, NumaCpus(rows)), size));
  }

  // ---- shares of a topology group

  /** The allowed CPUs near an NPU and, if all of them are on node k, those of the node after k. */
  ghost function Reached(info: DeviceInfo, rows: seq<Row>, n: nat): set<nat> {
    set c | c in info.allowedCpus &&
      (|| (n in info.npuAffinity && c in info.npuAffinity[n])
       || (c in CpuNodes(rows) && BeforeNode(info, rows, n, CpuNodes(rows)[c])))
  }

  /** The NPU is on the node before j, counting in a circle. */
  ghost predicate BeforeNode(info: DeviceInfo, rows: seq<Row>, n: nat, j: nat) {
    exists k: nat :: OnNode(info, rows, n, k) && |NumaCpus(rows)| > 0 && j == (k + 1) % |NumaCpus(rows)|
  }

  lemma NodeUnique(info: DeviceInfo, rows: seq<Row>, n: nat, k: nat, l: nat)
    requires OnNode(info, rows, n, k) && OnNode(info, rows, n, l)
    ensures k == l
  {
  }

  lemma BeforeIs(info: DeviceInfo, rows: seq<Row>, n: nat, k: nat, j: nat)
    requires NumaCpus(rows) != map[] && OnNode(info, rows, n, k)
    ensures BeforeNode(info, rows, n, j) <==> j == (k + 1) % |NumaCpus(rows)|
  {
    if BeforeNode(info, rows, n, j) {
      var l: nat :| OnNode(info, rows, n, l) && j == (l + 1) % |NumaCpus(rows)|;
      NodeUnique(info, rows, n, k, l);
    }
  }

  lemma ReachedOnNode(info: DeviceInfo, rows: seq<Row>, n: nat, k: nat, c: nat)
    requires DistinctCpus(rows) && NumaCpus(rows) != map[] && HasBase(info, CpuNodes(rows), n)
    requires NpuNode(info, CpuNodes(rows), n) == Ok(Some(k))
    ensures c in Reach(info, CpuNodes(rows), NumaCpus(rows), n) <==> c in Reached(info, rows, n)
  {
    var next := (k + 1) % |NumaCpus(rows)|;
    OnNodeIff(info, rows, n, k);
    ReachMembers(info, CpuNodes(rows), NumaCpus(rows), n, k, next, c);
    NumaMembers(rows, next);
    if c in CpuNodes(rows) {
      BeforeIs(info, rows, n, k, CpuNodes(rows)[c]);
    }
  }

  lemma ReachedSpread(info: DeviceInfo, rows: seq<Row>, n: nat, c: nat)
    requires NumaCpus(rows) != map[] && HasBase(info, CpuNodes(rows), n)
    requires NpuNode(info, CpuNodes(rows), n) == Ok(None)
    ensures c in Reach(info, CpuNodes(rows), NumaCpus(rows), n) <==> c in Reached(info, rows, n)
  {
    forall l: nat
      ensures !OnNode(info, rows, n, l)
    {
      OnNodeIff(info, rows, n, l);
    }
  }

  lemma ReachedIs(info: DeviceInfo, rows: seq<Row>, n: nat)
    requires DistinctCpus(rows) && NumaCpus(rows) != map[] && HasBase(info, CpuNodes(rows), n)
    ensures Members(Reach(info, CpuNodes(rows), NumaCpus(rows), n)) == Reached(info, rows, n)
  {
    var single := NpuNode(info, CpuNodes(rows), n);
    forall c: nat
      ensures c in Reach(info, CpuNodes(rows), NumaCpus(rows), n) <==> c in Reached(info, rows, n)
    {
      if single.value.Some? {
        ReachedOnNode(info, rows, n, single.value.value, c);
      } else {
        ReachedSpread(info, rows, n, c);
      }
    }
  }

  lemma {:induction false} PoolKeys(info: DeviceInfo, cpuNode: map<nat, nat>, t: Topo, npus: seq<nat>)
    requires t.numa != map[] && t.pools == Empty() && t.error.None? && NoDup(npus)
    requires TopoPools(info, cpuNode, t, npus).error.None?
    ensures TopoPools(info, cpuNode, t, npus).pools.keys == npus
  {
    if npus != [] {
      var init, last := npus[..|npus| - 1], npus[|npus| - 1];
      PoolKeys(info, cpuNode, t, init);
      SplitLast(npus);
      assert last !in init;
    }
  }

  /** The part of rank r of g equal parts of the pool, the last one taking what is left. */
  ghost predicate InShare(pool: set<nat>, parts: nat, rank: nat, c: nat)
    requires parts > 0
  {
    && c in pool && rank * (|pool| / parts) <= Below(pool, c)
    && (rank == parts - 1 || Below(pool, c) < (rank + 1) * (|pool| / parts))
  }

  lemma BelowAll(s: seq<nat>, c: nat)
    requires StrictlyAscending(s) && c in s
    ensures Below(Members(s), c) < |s|
  {
    AscendingBelow(s, IndexOf(s, c));
  }

  lemma SharePlaces(cpus: Cpus, parts: nat, i: nat, c: nat)
    requires StrictlyAscending(cpus) && i < parts
    ensures c in Share(cpus, parts, i) <==> InShare(Members(cpus), parts, i, c)
  {
    var per := |cpus| / parts;
    ShareBounds(|cpus|, parts, i);
    AscendingNoDup(cpus);
    Cardinality(cpus);
    if i < parts - 1 {
      InPart(cpus, i * per, (i + 1) * per, c);
    } else {
      InPart(cpus, i * per, |cpus|, c);
      if c in cpus {
        BelowAll(cpus, c);
      }
    }
  }

  lemma GroupPlaces(cpus: Cpus, group: seq<nat>, n: nat, c: nat)
    requires NoDup(cpus) && StrictlyAscending(group) && n in group
    ensures |Members(group)| > 0
    ensures c in GroupShare(cpus, group, n) <==>
            InShare(Members(cpus), |Members(group)|, Below(Members(group), n), c)
  {
    AscendingNoDup(group);
    Cardinality(group);
    AscendingBelow(group, IndexOf(group, n));
    SortedAscends(cpus);
    assert Members(Sorted(cpus)) == Members(cpus);
    SharePlaces(Sorted(cpus), |group|, IndexOf(group, n), c);
    if |group| == 1 {
      assert IndexOf(group, n) == 0;
    }
  }

  /** The candidates with the same list of reached CPUs. */
  ghost function Peers(info: DeviceInfo, cpuNode: map<nat, nat>, numa: map<nat, Cpus>, n: nat): set<nat>
    requires numa != map[] && HasBase(info, cpuNode, n)
  {
    set m | m in Candidates(info) && HasBase(info, cpuNode, m) &&
      Reach(info, cpuNode, numa, m) == Reach(info, cpuNode, numa, n)
  }

  lemma CandidatesAscend(info: DeviceInfo)
    requires ValidInfo(info)
    ensures StrictlyAscending(Candidates(info))
  {
    FilterAscends(IsCandidate(info), info.allLogicNpus);
  }

  lemma GroupAscends(items: map<nat, Cpus>, npus: seq<nat>, cpus: Cpus)
    requires StrictlyAscending(npus)
    ensures StrictlyAscending(GroupOf(items, npus, cpus))
  {
    FilterAscends(HasPool(items, cpus), npus);
  }

  lemma PeersAre(info: DeviceInfo, cpuNode: map<nat, nat>, numa: map<nat, Cpus>, n: nat)
    requires ValidInfo(info) && NodesInOrder(numa) && n in Candidates(info)
    requires forall k :: k in Candidates(info) ==> HasBase(info, cpuNode, k)
    ensures var pools := CandidatePools(info, cpuNode, numa).pools;
            && pools.Valid() && pools.Has(n) && pools.At(n) == Reach(info, cpuNode, numa, n)
            && var group := GroupOf(pools.items, pools.keys, pools.At(n));
               n in group && StrictlyAscending(group) && Members(group) == Peers(info, cpuNode, numa, n)
  {
    var pools := CandidatePools(info, cpuNode, numa).pools;
    forall m: nat
      ensures pools.Has(m) <==> m in Candidates(info)
      ensures pools.Has(m) ==> pools.At(m) == Reach(info, cpuNode, numa, m)
    {
      PoolsOf(info, cpuNode, numa, m);
    }
    CandidatesAscend(info);
    AscendingNoDup(Candidates(info));
    TopoPoolsOkIff(info, cpuNode, Topo(Empty(), numa, None), Candidates(info));
    PoolKeys(info, cpuNode, Topo(Empty(), numa, None), Candidates(info));
    GroupAscends(pools.items, pools.keys, pools.At(n));
  }

  /**
   In a built topology plan an NPU gets, of the CPUs it reaches in ascending order, the part of its rank
   among the candidates with the same reach.
   */
  lemma TopoPlaces(info: DeviceInfo, device: DeviceType, rows: seq<Row>, n: nat, c: nat)
    requires ValidInfo(info) && rows != [] && DistinctCpus(rows) && NodesInOrder(NumaCpus(rows))
    requires info.npuAffinity != map[] && n in info.runningNpus && n in info.allLogicNpus
    requires forall k :: NoDup(Get(info.npuAffinity, k))
    requires TopoPlan(info, device, CpuNodes(rows), NumaCpus(rows)).Built?
    ensures var p := TopoPlan(info, device, CpuNodes(rows), NumaCpus(rows)).pools;
            && p.Has(n) && HasBase(info, CpuNodes(rows), n)
            && var peers := Peers(info, CpuNodes(rows), NumaCpus(rows), n);
               && |peers| > 0
               && (c in p.At(n) <==> InShare(Reached(info, rows, n), |peers|, Below(peers, n), c))
  {
    var numa, cpuNode := NumaCpus(rows), CpuNodes(rows);
    TopoPoolsOkIff(info, cpuNode, Topo(Empty(), numa, None), Candidates(info));
    TopoPlanShares(info, device, cpuNode, numa, n);
    PeersAre(info, cpuNode, numa, n);
    ReachedIs(info, rows, n);
    TopoPoolsNoDup(info, cpuNode, Topo(Empty(), numa, None), Candidates(info));
    var pools := CandidatePools(info, cpuNode, numa).pools;
    GroupPlaces(pools.At(n), GroupOf(pools.items, pools.keys, pools.At(n)), n, c);
  }
}
