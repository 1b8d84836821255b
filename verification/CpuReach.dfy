/** What a topology build depends on: the CPUs each candidate can reach, read off the host alone. */
module CpuReach {
  import opened Prelude
  import opened Arithmetic
  import opened Devices
  import opened Sorting
  import opened Dictionaries
  import opened CpuPlan
  import opened CpuGroups
  import opened CpuClusters

  // ---- when the build succeeds

  /** The candidate has allowed CPUs of its own, and the host lists the node of each. */
  predicate HasBase(info: DeviceInfo, cpuNode: map<nat, nat>, npu: nat) {
    BaseCpus(info, npu) != [] && FirstUnlisted(cpuNode, BaseCpus(info, npu)).None?
  }

  lemma {:induction false} TopoPoolsOkIff(info: DeviceInfo, cpuNode: map<nat, nat>, t: Topo, npus: seq<nat>)
    requires t.numa != map[] && t.error.None?
    ensures TopoPools(info, cpuNode, t, npus).error.None? <==> forall n :: n in npus ==> HasBase(info, cpuNode, n)
  {
    if npus != [] {
      SplitLast(npus);
      var init, last := npus[..|npus| - 1], npus[|npus| - 1];
      TopoPoolsOkIff(info, cpuNode, t, init);
      var u := TopoPools(info, cpuNode, t, init);
      if u.error.None? {
        TopoStepOkIff(info.allowedCpus, cpuNode, u, last, BaseCpus(info, last));
        assert HasBase(info, cpuNode, last) <==> TopoPools(info, cpuNode, t, npus).error.None?;
      } else {
        var n :| n in init && !HasBase(info, cpuNode, n);
        assert n in npus;
      }
    }
  }

  lemma TopoStepOkIff(allowed: Cpus, cpuNode: map<nat, nat>, t: Topo, npu: nat, base: Cpus)
    requires t.numa != map[] && t.error.None?
    ensures TopoStep(allowed, cpuNode, t, npu, base).error.None? <==> base != [] && FirstUnlisted(cpuNode, base).None?
  {
  }

  /** A topology build succeeds exactly when every candidate has allowed CPUs, all of them listed. */
  lemma TopoPlanBuiltIff(info: DeviceInfo, device: DeviceType, cpuNode: map<nat, nat>, numa: map<nat, Cpus>)
    requires numa != map[] && info.npuAffinity != map[]
    requires forall n :: n in info.runningNpus ==> n in info.allLogicNpus
    ensures TopoPlan(info, device, cpuNode, numa).Built? <==> forall n :: n in Candidates(info) ==>
              HasBase(info, cpuNode, n)
  {
    TopoFindsVisible(info, device, cpuNode, numa);
    TopoPoolsOkIff(info, cpuNode, Topo(Empty(), numa, None), Candidates(info));
  }

  // ---- reach

  /** The nodes are numbered 0..k-1. */
  ghost predicate NodesInOrder(numa: map<nat, Cpus>) {
    numa != map[] && forall k: nat :: k in numa <==> k < |numa|
  }

  /** The allowed CPUs of an NPU and, if they are on one node, the allowed CPUs of the next node. */
  function Reach(info: DeviceInfo, cpuNode: map<nat, nat>, numa: map<nat, Cpus>, npu: nat): (r: Cpus)
    requires numa != map[] && HasBase(info, cpuNode, npu)
  {
    ExtendNuma(info.allowedCpus, cpuNode, numa, BaseCpus(info, npu)).value.cpus
  }

  lemma ReachMembers(info: DeviceInfo, cpuNode: map<nat, nat>, numa: map<nat, Cpus>, npu: nat, k: nat, next: nat,
                     c: nat)
    requires numa != map[] && HasBase(info, cpuNode, npu)
    requires NpuNode(info, cpuNode, npu) == Ok(Some(k)) && next == (k + 1) % |numa|
    ensures c in Reach(info, cpuNode, numa, npu) <==>
            c in BaseCpus(info, npu) || (c in Get(numa, next) && c in info.allowedCpus)
  {
  }

  /** Looking up the next node adds nothing when the nodes are in order. */
  lemma ExtendKeepsNuma(allowed: Cpus, cpuNode: map<nat, nat>, numa: map<nat, Cpus>, cpus: Cpus)
    requires NodesInOrder(numa) && ExtendNuma(allowed, cpuNode, numa, cpus).Ok?
    ensures ExtendNuma(allowed, cpuNode, numa, cpus).value.numa == numa
  {
  }

  lemma {:induction false} PoolsAreReach(info: DeviceInfo, cpuNode: map<nat, nat>, numa: map<nat, Cpus>, npus: seq<nat>)
    requires NodesInOrder(numa) && forall n :: n in npus ==> HasBase(info, cpuNode, n)
    ensures var t := TopoPools(info, cpuNode, Topo(Empty(), numa, None), npus);
            && t.error.None? && t.numa == numa
            && forall n :: n in npus ==> t.pools.Has(n) && t.pools.At(n) == Reach(info, cpuNode, numa, n)
  {
    if npus != [] {
      SplitLast(npus);
      var init, last := npus[..|npus| - 1], npus[|npus| - 1];
      PoolsAreReach(info, cpuNode, numa, init);
      assert HasBase(info, cpuNode, last);
      ExtendKeepsNuma(info.allowedCpus, cpuNode, numa, BaseCpus(info, last));
    }
  }

  ghost predicate ReachDisjoint(info: DeviceInfo, cpuNode: map<nat, nat>, numa: map<nat, Cpus>)
    requires numa != map[] && forall n :: n in Candidates(info) ==> HasBase(info, cpuNode, n)
  {
    forall n, m :: n in Candidates(info) && m in Candidates(info) ==>
      SameOrDisjoint(Reach(info, cpuNode, numa, n), Reach(info, cpuNode, numa, m))
  }

  predicate SameOrDisjoint(x: Cpus, y: Cpus) {
    x == y || forall c :: c in x ==> c !in y
  }

  // ---- two workers

  lemma PoolsOf(info: DeviceInfo, cpuNode: map<nat, nat>, numa: map<nat, Cpus>, n: nat)
    requires NodesInOrder(numa) && forall k :: k in Candidates(info) ==> HasBase(info, cpuNode, k)
    ensures CandidatePools(info, cpuNode, numa).error.None?
    ensures var pools := CandidatePools(info, cpuNode, numa).pools;
            && (pools.Has(n) <==> n in Candidates(info))
            && (pools.Has(n) ==> pools.At(n) == Reach(info, cpuNode, numa, n))
  {
    PoolsAreReach(info, cpuNode, numa, Candidates(info));
    TopoPoolsKeys(info, cpuNode, Topo(Empty(), numa, None), Candidates(info), n);
  }

  /** Disjoint groups and disjoint reach are the same. */
  lemma GroupsAreReach(info: DeviceInfo, cpuNode: map<nat, nat>, numa: map<nat, Cpus>)
    requires NodesInOrder(numa) && forall k :: k in Candidates(info) ==> HasBase(info, cpuNode, k)
    ensures GroupsDisjoint(CandidatePools(info, cpuNode, numa).pools) <==> ReachDisjoint(info, cpuNode, numa)
  {
    var pools := CandidatePools(info, cpuNode, numa).pools;
    forall n
      ensures pools.Has(n) <==> n in Candidates(info)
      ensures pools.Has(n) ==> pools.At(n) == Reach(info, cpuNode, numa, n)
    {
      PoolsOf(info, cpuNode, numa, n);
    }
  }

  /** A worker of the host that sees one candidate builds the same pools. */
  lemma OneVisible(a: DeviceInfo, device: DeviceType, cpuNode: map<nat, nat>, numa: map<nat, Cpus>, n: nat)
    requires ValidInfo(a) && NodesInOrder(numa) && a.npuAffinity != map[] && n in Candidates(a)
    requires forall k :: k in Candidates(a) ==> HasBase(a, cpuNode, k)
    ensures var b := a.(runningNpus := [n]);
            && SameHost(a, b) && TopoPlan(b, device, cpuNode, numa).Built?
            && TopoPlan(b, device, cpuNode, numa).pools.Has(n) && CandidatePools(a, cpuNode, numa).pools.Has(n)
            && TopoPlan(b, device, cpuNode, numa).pools.At(n) == TopoShare(CandidatePools(a, cpuNode, numa).pools, n)
  {
    var b := a.(runningNpus := [n]);
    forall k | k in Candidates(b)
      ensures k in Candidates(a) && HasBase(b, cpuNode, k)
    {
      OverlapsIff(a, k);
      OverlapsIff(b, k);
      assert BaseCpus(a, k) == BaseCpus(b, k);
    }
    TopoPlanBuiltIff(b, device, cpuNode, numa);
    PoolsOf(a, cpuNode, numa, n);
    PoolsOf(b, cpuNode, numa, n);
    TopoPlanShares(b, device, cpuNode, numa, n);
    CandidatePoolsAgree(a, b, cpuNode, numa);
  }

  /** No CPU goes to two NPUs, whichever two workers of the host bind them. */
  ghost predicate HostDisjoint(a: DeviceInfo, device: DeviceType, cpuNode: map<nat, nat>, numa: map<nat, Cpus>)
    requires numa != map[]
  {
    forall b, c, n, m :: SameHost(a, b) && SameHost(a, c) && n != m ==> PairDisjoint(b, c, device, cpuNode, numa, n, m)
  }

  ghost predicate PairDisjoint(b: DeviceInfo, c: DeviceInfo, device: DeviceType, cpuNode: map<nat, nat>,
                               numa: map<nat, Cpus>, n: nat, m: nat)
    requires numa != map[]
  {
    var p, q := TopoPlan(b, device, cpuNode, numa), TopoPlan(c, device, cpuNode, numa);
    p.Built? && q.Built? && p.pools.Has(n) && q.pools.Has(m) ==> Disjoint(p.pools.At(n), q.pools.At(m))
  }

  lemma PairFromShares(a: DeviceInfo, b: DeviceInfo, c: DeviceInfo, device: DeviceType, cpuNode: map<nat, nat>,
                       numa: map<nat, Cpus>, n: nat, m: nat)
    requires SameHost(a, b) && SameHost(a, c) && numa != map[] && a.npuAffinity != map[] && n != m
    requires CandidatePools(a, cpuNode, numa).error.None? && SharesAllDisjoint(CandidatePools(a, cpuNode, numa).pools)
    ensures PairDisjoint(b, c, device, cpuNode, numa, n, m)
  {
    var p, q := TopoPlan(b, device, cpuNode, numa), TopoPlan(c, device, cpuNode, numa);
    if p.Built? && q.Built? && p.pools.Has(n) && q.pools.Has(m) {
      TopoPlanShares(b, device, cpuNode, numa, n);
      TopoPlanShares(c, device, cpuNode, numa, m);
      CandidatePoolsAgree(a, b, cpuNode, numa);
      CandidatePoolsAgree(a, c, cpuNode, numa);
    }
  }

  lemma ShareOfPair(a: DeviceInfo, device: DeviceType, cpuNode: map<nat, nat>, numa: map<nat, Cpus>, n: nat, m: nat)
    requires ValidInfo(a) && NodesInOrder(numa) && a.npuAffinity != map[]
    requires (forall k :: k in Candidates(a) ==> HasBase(a, cpuNode, k)) && n in Candidates(a) && m in Candidates(a)
    requires PairDisjoint(a.(runningNpus := [n]), a.(runningNpus := [m]), device, cpuNode, numa, n, m)
    ensures var pools := CandidatePools(a, cpuNode, numa).pools;
            pools.Has(n) && pools.Has(m) && Disjoint(TopoShare(pools, n), TopoShare(pools, m))
  {
    OneVisible(a, device, cpuNode, numa, n);
    OneVisible(a, device, cpuNode, numa, m);
  }

  lemma SharesFromPairs(a: DeviceInfo, device: DeviceType, cpuNode: map<nat, nat>, numa: map<nat, Cpus>)
    requires ValidInfo(a) && NodesInOrder(numa) && a.npuAffinity != map[]
    requires forall k :: k in Candidates(a) ==> HasBase(a, cpuNode, k)
    requires HostDisjoint(a, device, cpuNode, numa)
    ensures SharesAllDisjoint(CandidatePools(a, cpuNode, numa).pools)
  {
    var pools := CandidatePools(a, cpuNode, numa).pools;
    forall n, m | pools.Has(n) && pools.Has(m) && n != m
      ensures Disjoint(TopoShare(pools, n), TopoShare(pools, m))
    {
      PoolsOf(a, cpuNode, numa, n);
      PoolsOf(a, cpuNode, numa, m);
      var b, c := a.(runningNpus := [n]), a.(runningNpus := [m]);
      assert SameHost(a, b) && SameHost(a, c);
      assert PairDisjoint(b, c, device, cpuNode, numa, n, m);
      ShareOfPair(a, device, cpuNode, numa, n, m);
    }
  }

  /**
   On a host with nodes 0..k-1, no CPU is ever given to two NPUs, in one process or in two, if and only if
   candidates that can reach different CPUs have no CPU in common that they can reach.
   */
  lemma TopoDisjointIff(a: DeviceInfo, device: DeviceType, cpuNode: map<nat, nat>, numa: map<nat, Cpus>)
    requires ValidInfo(a) && NodesInOrder(numa) && a.npuAffinity != map[]
    requires forall k :: NoDup(Get(a.npuAffinity, k))
    requires forall k :: k in Candidates(a) ==> HasBase(a, cpuNode, k)
    ensures HostDisjoint(a, device, cpuNode, numa) <==> ReachDisjoint(a, cpuNode, numa)
  {
    var t0 := Topo(Empty(), numa, None);
    TopoPoolsOkIff(a, cpuNode, t0, Candidates(a));
    TopoPoolsNoDup(a, cpuNode, t0, Candidates(a));
    SharesDisjointIff(CandidatePools(a, cpuNode, numa).pools);
    GroupsAreReach(a, cpuNode, numa);
    if HostDisjoint(a, device, cpuNode, numa) {
      SharesFromPairs(a, device, cpuNode, numa);
    }
    if SharesAllDisjoint(CandidatePools(a, cpuNode, numa).pools) {
      forall b, c, n, m | SameHost(a, b) && SameHost(a, c) && n != m
        ensures PairDisjoint(b, c, device, cpuNode, numa, n, m)
      {
        PairFromShares(a, b, c, device, cpuNode, numa, n, m);
      }
    }
  }

  // ---- neighbours

  /** A candidate on the node before another one can reach every CPU of that other one. */
  lemma NeighbourIsReached(info: DeviceInfo, rows: seq<Row>, n: nat, m: nat, k: nat, c: nat)
    requires DistinctCpus(rows) && NodesInOrder(NumaCpus(rows))
    requires HasBase(info, CpuNodes(rows), n) && HasBase(info, CpuNodes(rows), m)
    requires NpuNode(info, CpuNodes(rows), n) == Ok(Some(k)) && c in BaseCpus(info, m)
    requires NpuNode(info, CpuNodes(rows), m) == Ok(Some((k + 1) % |NumaCpus(rows)|))
    ensures c in Reach(info, CpuNodes(rows), NumaCpus(rows), n) && c in Reach(info, CpuNodes(rows), NumaCpus(rows), m)
  {
    var numa := NumaCpus(rows);
    var next := (k + 1) % |numa|;
    NumaMembers(rows, next);
    ReachMembers(info, CpuNodes(rows), numa, n, k, next, c);
    ReachMembers(info, CpuNodes(rows), numa, m, next, (next + 1) % |numa|, c);
  }

  /** So two candidates on neighbouring nodes, with different reach, give some CPU to two NPUs of the host. */
  lemma NeighboursOverlap(a: DeviceInfo, device: DeviceType, rows: seq<Row>, n: nat, m: nat, k: nat)
    requires ValidInfo(a) && a.npuAffinity != map[] && DistinctCpus(rows) && NodesInOrder(NumaCpus(rows))
    requires forall i :: NoDup(Get(a.npuAffinity, i))
    requires forall i :: i in Candidates(a) ==> HasBase(a, CpuNodes(rows), i)
    requires n in Candidates(a) && m in Candidates(a) && NpuNode(a, CpuNodes(rows), n) == Ok(Some(k))
    requires NpuNode(a, CpuNodes(rows), m) == Ok(Some((k + 1) % |NumaCpus(rows)|))
    requires Reach(a, CpuNodes(rows), NumaCpus(rows), n) != Reach(a, CpuNodes(rows), NumaCpus(rows), m)
    ensures !HostDisjoint(a, device, CpuNodes(rows), NumaCpus(rows))
  {
    var c := BaseCpus(a, m)[0];
    NeighbourIsReached(a, rows, n, m, k, c);
    TopoDisjointIff(a, device, CpuNodes(rows), NumaCpus(rows));
  }
}
