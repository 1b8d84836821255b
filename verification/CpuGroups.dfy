/** Topology affinity: workers agree on one plan, and NPUs of one group never share a CPU. */
module CpuGroups {
  import opened Prelude
  import opened Arithmetic
  import opened Devices
  import opened Sorting
  import opened Dictionaries
  import opened CpuPlan
  import opened CpuSlices

  /** What a step that raised nothing did. */
  lemma TopoStepOk(allowed: Cpus, cpuNode: map<nat, nat>, t: Topo, npu: nat, base: Cpus) returns (x: Extended)
    requires t.numa != map[] && TopoStep(allowed, cpuNode, t, npu, base).error.None?
    ensures t.error.None? && base != [] && ExtendNuma(allowed, cpuNode, t.numa, base) == Ok(x)
    ensures TopoStep(allowed, cpuNode, t, npu, base) == Topo(t.pools.Put(npu, x.cpus), x.numa, None)
  {
    x := ExtendNuma(allowed, cpuNode, t.numa, base).value;
  }

  /** The last step of a loop that raised nothing. */
  lemma TopoLast(info: DeviceInfo, cpuNode: map<nat, nat>, t: Topo, npus: seq<nat>) returns (u: Topo, x: Extended)
    requires npus != [] && t.numa != map[] && TopoPools(info, cpuNode, t, npus).error.None?
    ensures u == TopoPools(info, cpuNode, t, npus[..|npus| - 1]) && u.error.None?
    ensures var last := npus[|npus| - 1];
            && BaseCpus(info, last) != []
            && ExtendNuma(info.allowedCpus, cpuNode, u.numa, BaseCpus(info, last)) == Ok(x)
            && TopoPools(info, cpuNode, t, npus).pools == u.pools.Put(last, x.cpus)
  {
    u := TopoPools(info, cpuNode, t, npus[..|npus| - 1]);
    x := TopoStepOk(info.allowedCpus, cpuNode, u, npus[|npus| - 1], BaseCpus(info, npus[|npus| - 1]));
  }

  lemma {:induction false} TopoSuccessOverlaps(info: DeviceInfo, cpuNode: map<nat, nat>, t: Topo, npus: seq<nat>,
                                               n: nat)
    requires t.numa != map[] && TopoPools(info, cpuNode, t, npus).error.None? && n in npus
    ensures Overlaps(info, n)
  {
    var last, init := npus[|npus| - 1], npus[..|npus| - 1];
    SplitLast(npus);
    var u, x := TopoLast(info, cpuNode, t, npus);
    if n == last {
      OverlapsIff(info, n);
    } else {
      TopoSuccessOverlaps(info, cpuNode, t, init, n);
    }
  }

  lemma {:induction false} TopoPoolsCongruence(a: DeviceInfo, b: DeviceInfo, cpuNode: map<nat, nat>, t: Topo,
                                               npus: seq<nat>)
    requires SameHost(a, b) && t.numa != map[]
    ensures TopoPools(a, cpuNode, t, npus) == TopoPools(b, cpuNode, t, npus)
  {
    if npus != [] {
      TopoPoolsCongruence(a, b, cpuNode, t, npus[..|npus| - 1]);
    }
  }

  ghost function Shares(cpus: Cpus, parts: nat, k: nat): seq<Cpus>
    requires k <= parts
  {
    seq(k, i requires 0 <= i < k => Share(cpus, parts, i))
  }

  lemma {:induction false} SharesConcatenate(cpus: Cpus, parts: nat, k: nat)
    requires k < parts
    ensures 0 <= k * (|cpus| / parts) <= |cpus|
    ensures Flatten(Shares(cpus, parts, k)) == cpus[..k * (|cpus| / parts)]
  {
    ShareBounds(|cpus|, parts, k);
    if k > 0 {
      SharesConcatenate(cpus, parts, k - 1);
      assert Shares(cpus, parts, k)[..k - 1] == Shares(cpus, parts, k - 1);
      ShareBounds(|cpus|, parts, k - 1);
    }
  }

  lemma LastShare(cpus: Cpus, parts: nat)
    requires parts > 0
    ensures 0 <= (parts - 1) * (|cpus| / parts) <= |cpus|
    ensures Share(cpus, parts, parts - 1) == cpus[(parts - 1) * (|cpus| / parts)..]
  {
    ShareBounds(|cpus|, parts, parts - 1);
  }

  /** The shares of a group, in order, are the group's sorted pool. */
  lemma SharesPartition(cpus: Cpus, parts: nat)
    requires parts > 0
    ensures Flatten(Shares(cpus, parts, parts)) == cpus
  {
    SharesConcatenate(cpus, parts, parts - 1);
    var all := Shares(cpus, parts, parts);
    assert all[..parts - 1] == Shares(cpus, parts, parts - 1);
    LastShare(cpus, parts);
  }

  lemma {:induction false} FlattenCovers<T>(ss: seq<seq<T>>, x: T) returns (i: nat)
    requires x in Flatten(ss)
    ensures i < |ss| && x in ss[i]
  {
    if x in ss[|ss| - 1] {
      i := |ss| - 1;
    } else {
      i := FlattenCovers(ss[..|ss| - 1], x);
    }
  }

  lemma SharesDisjoint(cpus: Cpus, parts: nat, i: nat, j: nat)
    requires NoDup(cpus) && i < j < parts
    ensures Disjoint(Share(cpus, parts, i), Share(cpus, parts, j))
    ensures Disjoint(Share(cpus, parts, j), Share(cpus, parts, i))
  {
    var per := |cpus| / parts;
    ShareBounds(|cpus|, parts, i);
    ShareBounds(|cpus|, parts, j);
    MulLe(i + 1, j, per);
    SlicesDisjoint(cpus, i * per, (i + 1) * per, j * per, if j < parts - 1 then (j + 1) * per else |cpus|);
  }

  /** Two members of a group never share a CPU of its pool. */
  lemma GroupSharesDisjoint(cpus: Cpus, group: seq<nat>, a: nat, b: nat)
    requires NoDup(cpus) && NoDup(group) && a in group && b in group && a != b
    ensures Disjoint(GroupShare(cpus, group, a), GroupShare(cpus, group, b))
  {
    var i, j := IndexOf(group, a), IndexOf(group, b);
    SortedNoDup(cpus);
    if i < j {
      SharesDisjoint(Sorted(cpus), |group|, i, j);
    } else {
      SharesDisjoint(Sorted(cpus), |group|, j, i);
    }
  }

  /** Every CPU of a group's pool is given to a member of the group. */
  lemma GroupCovered(cpus: Cpus, group: seq<nat>, cpu: nat) returns (owner: nat)
    requires NoDup(group) && group != [] && cpu in cpus
    ensures owner in group && cpu in GroupShare(cpus, group, owner)
  {
    if |group| == 1 {
      owner := group[0];
    } else {
      SharesPartition(Sorted(cpus), |group|);
      var i := FlattenCovers(Shares(Sorted(cpus), |group|, |group|), cpu);
      owner := group[i];
      assert IndexOf(group, owner) == i;
    }
  }

  ghost predicate SharesAllDisjoint(pools: Pools)
    requires pools.Valid()
  {
    forall a, b :: pools.Has(a) && pools.Has(b) && a != b ==> Disjoint(TopoShare(pools, a), TopoShare(pools, b))
  }

  ghost predicate GroupsDisjoint(pools: Pools) {
    forall a, b :: pools.Has(a) && pools.Has(b) && pools.At(a) != pools.At(b) ==> Disjoint(pools.At(a), pools.At(b))
  }

  lemma PoolCovered(pools: Pools, npu: nat, cpu: nat) returns (owner: nat)
    requires pools.Valid() && pools.Has(npu) && cpu in pools.At(npu)
    ensures pools.Has(owner) && pools.At(owner) == pools.At(npu) && cpu in TopoShare(pools, owner)
  {
    var group := GroupOf(pools.items, pools.keys, pools.At(npu));
    assert npu in group;
    owner := GroupCovered(pools.At(npu), group, cpu);
  }

  lemma SameGroupDisjoint(pools: Pools, a: nat, b: nat)
    requires pools.Valid() && pools.Has(a) && pools.Has(b) && a != b
    requires pools.At(a) == pools.At(b) && NoDup(pools.At(a))
    ensures Disjoint(TopoShare(pools, a), TopoShare(pools, b))
  {
    GroupSharesDisjoint(pools.At(a), GroupOf(pools.items, pools.keys, pools.At(a)), a, b);
  }

  /** The shares are disjoint exactly when the pools of different groups are. */
  lemma SharesDisjointIff(pools: Pools)
    requires pools.Valid() && forall n :: pools.Has(n) ==> NoDup(pools.At(n))
    ensures SharesAllDisjoint(pools) <==> GroupsDisjoint(pools)
  {
    if SharesAllDisjoint(pools) {
      forall a, b, x | pools.Has(a) && pools.Has(b) && pools.At(a) != pools.At(b) && x in pools.At(a)
        ensures x !in pools.At(b)
      {
        if x in pools.At(b) {
          var a' := PoolCovered(pools, a, x);
          var b' := PoolCovered(pools, b, x);
        }
      }
    }
    if GroupsDisjoint(pools) {
      forall a, b | pools.Has(a) && pools.Has(b) && a != b
        ensures Disjoint(TopoShare(pools, a), TopoShare(pools, b))
      {
        if pools.At(a) == pools.At(b) {
          SameGroupDisjoint(pools, a, b);
        } else {
          assert Disjoint(pools.At(a), pools.At(b));
        }
      }
    }
  }

  /** The pools a topology build gives its candidates before sharing them out. */
  ghost function CandidatePools(info: DeviceInfo, cpuNode: map<nat, nat>, numa: map<nat, Cpus>): Topo
    requires numa != map[]
  {
    TopoPools(info, cpuNode, Topo(Empty(), numa, None), Candidates(info))
  }

  lemma ExtendNoDup(allowed: Cpus, cpuNode: map<nat, nat>, numa: map<nat, Cpus>, cpus: Cpus)
    requires numa != map[] && NoDup(cpus) && ExtendNuma(allowed, cpuNode, numa, cpus).Ok?
    ensures NoDup(ExtendNuma(allowed, cpuNode, numa, cpus).value.cpus)
  {
    AscendingNoDup(ExtendNuma(allowed, cpuNode, numa, cpus).value.cpus);
  }

  lemma {:induction false} TopoPoolsKeys(info: DeviceInfo, cpuNode: map<nat, nat>, t: Topo, npus: seq<nat>, n: nat)
    requires t.numa != map[] && TopoPools(info, cpuNode, t, npus).error.None?
    ensures TopoPools(info, cpuNode, t, npus).pools.Has(n) <==> n in npus || t.pools.Has(n)
  {
    if npus != [] {
      var last, init := npus[|npus| - 1], npus[..|npus| - 1];
      var u, x := TopoLast(info, cpuNode, t, npus);
      TopoPoolsKeys(info, cpuNode, t, init, n);
      SplitLast(npus);
    }
  }

  ghost predicate PoolsNoDup(pools: Pools) {
    forall n :: pools.Has(n) ==> NoDup(pools.At(n))
  }

  lemma {:induction false} TopoPoolsNoDup(info: DeviceInfo, cpuNode: map<nat, nat>, t: Topo, npus: seq<nat>)
    requires t.numa != map[] && TopoPools(info, cpuNode, t, npus).error.None?
    requires PoolsNoDup(t.pools) && forall n :: NoDup(Get(info.npuAffinity, n))
    ensures PoolsNoDup(TopoPools(info, cpuNode, t, npus).pools)
  {
    if npus != [] {
      var last, init := npus[|npus| - 1], npus[..|npus| - 1];
      var u, x := TopoLast(info, cpuNode, t, npus);
      TopoPoolsNoDup(info, cpuNode, t, init);
      assert NoDup(Get(info.npuAffinity, last));
      ExtendNoDup(info.allowedCpus, cpuNode, u.numa, BaseCpus(info, last));
      forall n | u.pools.Put(last, x.cpus).Has(n)
        ensures NoDup(u.pools.Put(last, x.cpus).At(n))
      {
        assert n == last || u.pools.Has(n);
      }
    }
  }

  lemma CandidatePoolsAgree(a: DeviceInfo, b: DeviceInfo, cpuNode: map<nat, nat>, numa: map<nat, Cpus>)
    requires SameHost(a, b) && numa != map[]
    requires CandidatePools(a, cpuNode, numa).error.None? && CandidatePools(b, cpuNode, numa).error.None?
    ensures CandidatePools(a, cpuNode, numa) == CandidatePools(b, cpuNode, numa)
  {
    var t0 := Topo(Empty(), numa, None);
    forall n | n in Candidates(a)
      ensures Overlaps(a, n)
    {
      TopoSuccessOverlaps(a, cpuNode, t0, Candidates(a), n);
    }
    forall n | n in Candidates(b)
      ensures Overlaps(b, n)
    {
      TopoSuccessOverlaps(b, cpuNode, t0, Candidates(b), n);
    }
    CandidatesAgree(a, b);
    TopoPoolsCongruence(a, b, cpuNode, t0, Candidates(a));
  }

  lemma TopoPlanShares(info: DeviceInfo, device: DeviceType, cpuNode: map<nat, nat>, numa: map<nat, Cpus>, n: nat)
    requires numa != map[] && info.npuAffinity != map[] && TopoPlan(info, device, cpuNode, numa).Built?
    requires n in info.runningNpus
    ensures CandidatePools(info, cpuNode, numa).error.None?
    ensures var p, pools := TopoPlan(info, device, cpuNode, numa).pools, CandidatePools(info, cpuNode, numa).pools;
            p.Has(n) && pools.Has(n) && p.At(n) == TopoShare(pools, n)
  {
  }

  /**
   Workers that see different NPUs build one plan: they hold the same candidate pools, each visible NPU
   has the share this plan gives it, and two NPUs of one group never share a CPU although different
   processes bind them.
   */
  lemma TopoWorkersAgree(a: DeviceInfo, b: DeviceInfo, device: DeviceType, cpuNode: map<nat, nat>,
                         numa: map<nat, Cpus>, n: nat, m: nat)
    requires SameHost(a, b) && numa != map[] && a.npuAffinity != map[]
    requires forall k :: NoDup(Get(a.npuAffinity, k))
    requires TopoPlan(a, device, cpuNode, numa).Built? && TopoPlan(b, device, cpuNode, numa).Built?
    requires n in a.runningNpus && m in b.runningNpus
    ensures CandidatePools(a, cpuNode, numa) == CandidatePools(b, cpuNode, numa)
    ensures var p, q := TopoPlan(a, device, cpuNode, numa).pools, TopoPlan(b, device, cpuNode, numa).pools;
            var pools := CandidatePools(a, cpuNode, numa).pools;
            && p.Has(n) && q.Has(m) && pools.Has(n) && pools.Has(m)
            && p.At(n) == TopoShare(pools, n) && q.At(m) == TopoShare(pools, m)
            && (n != m && pools.At(n) == pools.At(m) ==> Disjoint(p.At(n), q.At(m)))
  {
    TopoPlanShares(a, device, cpuNode, numa, n);
    TopoPlanShares(b, device, cpuNode, numa, m);
    CandidatePoolsAgree(a, b, cpuNode, numa);
    var pools := CandidatePools(a, cpuNode, numa).pools;
    if n != m && pools.At(n) == pools.At(m) {
      TopoPoolsNoDup(a, cpuNode, Topo(Empty(), numa, None), Candidates(a));
      SameGroupDisjoint(pools, n, m);
    }
  }

  /** A visible NPU that is a logical NPU is a candidate, so a build that raised nothing finds its share. */
  lemma TopoFindsVisible(info: DeviceInfo, device: DeviceType, cpuNode: map<nat, nat>, numa: map<nat, Cpus>)
    requires numa != map[] && info.npuAffinity != map[]
    requires forall n :: n in info.runningNpus ==> n in info.allLogicNpus
    ensures TopoPlan(info, device, cpuNode, numa).Built? <==> CandidatePools(info, cpuNode, numa).error.None?
  {
    if CandidatePools(info, cpuNode, numa).error.None? {
      forall n | n in info.runningNpus
        ensures CandidatePools(info, cpuNode, numa).pools.Has(n)
      {
        assert n in Candidates(info);
        TopoPoolsKeys(info, cpuNode, Topo(Empty(), numa, None), Candidates(info), n);
      }
    }
  }
}
