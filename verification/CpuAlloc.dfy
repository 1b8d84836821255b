/** The allocator object: the loops that build pools and split them into roles, proved against CpuPlan. */
module CpuAlloc {
  import opened Prelude
  import opened Devices
  import opened Sorting
  import opened Dictionaries
  import opened CpuPlan
  import CpuSlices

  /** The roles of one pool: two CPUs kept for interrupts (none on A5), then main, acl, release. */
  datatype Roles = Roles(irq: Cpus, main: Cpus, acl: Cpus, release: Cpus)

  function SplitRoles(device: DeviceType, pool: Cpus): (r: Roles)
    requires |pool| >= MinCpusPerNpu(device)
    ensures r.irq + r.main + r.acl + r.release == pool
    ensures |r.irq| == (if device.A5? then 0 else 2) && r.main != [] && |r.acl| == 1 && |r.release| == 1
  {
    var n := |pool|;
    var reserved := if device.A5? then 0 else 2;
    Roles(pool[..reserved], pool[reserved..n - 2], [pool[n - 2]], [pool[n - 1]])
  }

  ghost predicate RolesApart(r: Roles) {
    && Disjoint(r.irq, r.main) && Disjoint(r.irq, r.acl) && Disjoint(r.irq, r.release)
    && Disjoint(r.main, r.acl) && Disjoint(r.main, r.release) && Disjoint(r.acl, r.release)
  }

  lemma NoDupParts(x: Cpus, y: Cpus)
    requires NoDup(x + y)
    ensures NoDup(x) && NoDup(y) && Disjoint(x, y)
  {
    forall i, j | 0 <= i < j < |x|
      ensures x[i] != x[j]
    {
      assert (x + y)[i] == x[i] && (x + y)[j] == x[j];
    }
    forall i, j | 0 <= i < j < |y|
      ensures y[i] != y[j]
    {
      assert (x + y)[|x| + i] == y[i] && (x + y)[|x| + j] == y[j];
    }
    forall i, j | 0 <= i < |x| && 0 <= j < |y|
      ensures x[i] != y[j]
    {
      assert (x + y)[i] == x[i] && (x + y)[|x| + j] == y[j];
    }
  }

  /** The roles of a pool without repeats share no CPU. */
  lemma RolesAreApart(device: DeviceType, pool: Cpus)
    requires NoDup(pool) && |pool| >= MinCpusPerNpu(device)
    ensures RolesApart(SplitRoles(device, pool))
  {
    var r := SplitRoles(device, pool);
    NoDupParts(r.irq + r.main + r.acl, r.release);
    NoDupParts(r.irq + r.main, r.acl);
    NoDupParts(r.irq, r.main);
  }

  /** After slicing, the role split accepts every pool and its roles share no CPU. */
  lemma GlobalRolesApart(info: DeviceInfo, device: DeviceType, n: nat)
    requires GlobalPlan(info, device).Built? && GlobalPlan(info, device).pools.Has(n)
    ensures var pool := GlobalPlan(info, device).pools.At(n);
            && |pool| >= MinCpusPerNpu(device)
            && var r := SplitRoles(device, pool);
               r.irq + r.main + r.acl + r.release == pool && r.main != [] && RolesApart(r)
  {
    CpuSlices.GlobalPoolsFit(info, device, n);
    RolesAreApart(device, GlobalPlan(info, device).pools.At(n));
  }

  // ---- what the loops have done so far

  /** groups maps each CPU list some NPU has to the NPUs that have it, in order. */
  ghost predicate GroupsOf(groups: Dict<Cpus, seq<nat>>, items: map<nat, Cpus>, npus: seq<nat>) {
    && groups.Valid()
    && (forall key :: groups.Has(key) <==> GroupOf(items, npus, key) != [])
    && (forall key :: groups.Has(key) ==> groups.At(key) == GroupOf(items, npus, key))
  }

  lemma GroupOfSnoc(items: map<nat, Cpus>, npus: seq<nat>, npu: nat, key: Cpus)
    requires npu in items
    ensures GroupOf(items, npus + [npu], key) == GroupOf(items, npus, key) + if key == items[npu] then [npu] else []
  {
    assert (npus + [npu])[..|npus|] == npus;
  }

  lemma GroupsStep(groups: Dict<Cpus, seq<nat>>, items: map<nat, Cpus>, npus: seq<nat>, npu: nat)
    requires GroupsOf(groups, items, npus) && npu in items
    ensures var cpus := items[npu];
            GroupsOf(groups.Put(cpus, (if groups.Has(cpus) then groups.At(cpus) else []) + [npu]), items, npus + [npu])
  {
    forall key
      ensures GroupOf(items, npus + [npu], key) == GroupOf(items, npus, key) + if key == items[npu] then [npu] else []
    {
      GroupOfSnoc(items, npus, npu, key);
    }
  }

  /** groups maps each node some NPU is on to the NPUs on it, in order. */
  ghost predicate NodeGroups(groups: Dict<nat, seq<nat>>, node: map<nat, nat>, npus: seq<nat>) {
    && groups.Valid()
    && (forall k :: groups.Has(k) <==> NpusOn(node, npus, k) != [])
    && (forall k :: groups.Has(k) ==> groups.At(k) == NpusOn(node, npus, k))
  }

  lemma NpusOnSnoc(node: map<nat, nat>, npus: seq<nat>, npu: nat, j: nat, k: nat)
    requires npu !in npus
    ensures NpusOn(node[npu := j], npus + [npu], k) == NpusOn(node, npus, k) + if k == j then [npu] else []
  {
    var node' := node[npu := j];
    assert (npus + [npu])[..|npus|] == npus;
    FilterCongruence(n => n in node && node[n] == k, n => n in node' && node'[n] == k, npus);
  }

  lemma NodeGroupsStep(groups: Dict<nat, seq<nat>>, node: map<nat, nat>, npus: seq<nat>, npu: nat, j: nat)
    requires NodeGroups(groups, node, npus) && npu !in npus
    ensures var group := if groups.Has(j) then groups.At(j) else [];
            NodeGroups(groups.Put(j, group + [npu]), node[npu := j], npus + [npu])
  {
    forall k
      ensures NpusOn(node[npu := j], npus + [npu], k) == NpusOn(node, npus, k) + if k == j then [npu] else []
    {
      NpusOnSnoc(node, npus, npu, j, k);
    }
    var groups' := groups.Put(j, (if groups.Has(j) then groups.At(j) else []) + [npu]);
    forall k: nat
      ensures groups'.Has(k) <==> NpusOn(node[npu := j], npus + [npu], k) != []
      ensures groups'.Has(k) ==> groups'.At(k) == NpusOn(node[npu := j], npus + [npu], k)
    {
      assert groups'.Has(k) <==> groups.Has(k) || k == j;
    }
  }

  /** plan gives their clusters to exactly the NPUs on the given nodes. */
  ghost predicate PlacedOn(h: ClusterInput, plan: map<nat, Cpus>, nodes: seq<nat>)
    requires h.Valid()
  {
    && (forall n :: n in plan <==> n in h.node && h.node[n] in nodes)
    && (forall n :: n in plan ==> h.Enough(h.node[n]) && plan[n] == h.Cluster(n))
  }

  lemma PlacedStep(h: ClusterInput, plan: map<nat, Cpus>, nodes: seq<nat>, k: nat, given: map<nat, Cpus>)
    requires h.Valid() && PlacedOn(h, plan, nodes) && h.Enough(k)
    requires forall n :: n in given <==> n in h.On(k)
    requires forall n :: n in given ==> given[n] == Clusters(Get(h.cpus, k), h.size)[IndexOf(h.On(k), n)]
    ensures PlacedOn(h, plan + given, nodes + [k])
  {
    forall n | n in given
      ensures n in h.node && h.node[n] == k && given[n] == h.Cluster(n)
    {
    }
    var all := plan + given;
    forall n | n in all
      ensures h.Enough(h.node[n]) && all[n] == h.Cluster(n)
    {
    }
  }

  lemma PlacedAll(h: ClusterInput, plan: map<nat, Cpus>, groups: Dict<nat, seq<nat>>)
    requires h.Valid() && PlacedOn(h, plan, groups.keys) && NodeGroups(groups, h.node, h.npus)
    ensures h.AllEnough() && plan == h.Assignment()
  {
    forall n | n in h.node
      ensures n in plan
    {
      assert n in NpusOn(h.node, h.npus, h.node[n]);
      assert groups.Has(h.node[n]);
    }
    MapExt(plan, h.Assignment());
  }

  lemma NotEnough(h: ClusterInput, k: nat)
    requires h.Valid() && !h.Enough(k)
    ensures !h.AllEnough()
  {
    var n := h.On(k)[0];
    assert n in h.On(k);
  }

  lemma MapExtSlices(pools: Pools, cpus: Cpus, total: nat)
    requires pools.Valid() && total > 0
    requires forall n :: n in pools.items ==> pools.items[n] == GlobalSlice(cpus, total, n)
    ensures pools == Dict(pools.keys, map n | n in pools.keys :: GlobalSlice(cpus, total, n))
  {
    MapExt(pools.items, map n | n in pools.keys :: GlobalSlice(cpus, total, n));
  }

  lemma {:induction false} FirstOutsideStays(npus: seq<nat>, total: nat, k: nat)
    requires k <= |npus| && FirstOutside(npus[..k], total).Some?
    ensures FirstOutside(npus, total) == FirstOutside(npus[..k], total)
  {
    if k == |npus| {
      assert npus[..k] == npus;
    } else {
      var init := npus[..|npus| - 1];
      assert init[..k] == npus[..k];
      FirstOutsideStays(init, total, k);
    }
  }

  lemma {:induction false} TopoErrorStays(info: DeviceInfo, cpuNode: map<nat, nat>, t: Topo, npus: seq<nat>, k: nat)
    requires t.numa != map[] && k <= |npus| && TopoPools(info, cpuNode, t, npus[..k]).error.Some?
    ensures TopoPools(info, cpuNode, t, npus) == TopoPools(info, cpuNode, t, npus[..k])
  {
    if k == |npus| {
      assert npus[..k] == npus;
    } else {
      var init := npus[..|npus| - 1];
      assert init[..k] == npus[..k];
      TopoErrorStays(info, cpuNode, t, init, k);
    }
  }

  lemma {:induction false} NodeMapStays(info: DeviceInfo, cpuNode: map<nat, nat>, npus: seq<nat>, k: nat)
    requires k <= |npus|
    requires var r := NodeMap(info, cpuNode, npus[..k]); r.Raised? || r.value.None?
    ensures NodeMap(info, cpuNode, npus) == NodeMap(info, cpuNode, npus[..k])
  {
    if k == |npus| {
      assert npus[..k] == npus;
    } else {
      var init := npus[..|npus| - 1];
      assert init[..k] == npus[..k];
      NodeMapStays(info, cpuNode, init, k);
    }
  }

  /** The share of an NPU in the last group that lists it. */
  function LastShare(pools: Pools, groups: seq<seq<nat>>, npu: nat): Cpus {
    if groups == [] then []
    else
      var last := groups[|groups| - 1];
      if npu in last && pools.Has(last[0]) then Share(Sorted(pools.At(last[0])), |last|, IndexOf(last, npu))
      else LastShare(pools, groups[..|groups| - 1], npu)
  }

  method ShareOut(cpus: Cpus, npuList: seq<nat>) returns (shares: map<nat, Cpus>)
    requires NoDup(npuList) && npuList != []
    ensures forall n :: n in shares <==> n in npuList
    ensures forall n :: n in shares ==> shares[n] == Share(cpus, |npuList|, IndexOf(npuList, n))
  {
    shares := map[];
    var perNpu := |cpus| / |npuList|;
    for i := 0 to |npuList|
      invariant forall n :: n in shares <==> n in npuList[..i]
      invariant forall n :: n in shares ==> n in npuList && shares[n] == Share(cpus, |npuList|, IndexOf(npuList, n))
    {
      ShareBounds(|cpus|, |npuList|, i);
      var start := i * perNpu;
      var end := if i < |npuList| - 1 then (i + 1) * perNpu else |cpus|;
      TakeNext(npuList, i);
      assert IndexOf(npuList, npuList[i]) == i;
      shares := shares[npuList[i] := cpus[start..end]];
    }
    assert npuList[..|npuList|] == npuList;
  }

  class CpuAlloc {
    const info: DeviceInfo
    var cpuNode: map<nat, nat>
    var numaToCpus: map<nat, Cpus>
    var npuCpuPool: Pools
    var assignMain: map<nat, Cpus>
    var assignAcl: map<nat, Cpus>
    var assignRel: map<nat, Cpus>
    var uvbCpuPool: Cpus

    ghost predicate Valid()
      reads this
    {
      npuCpuPool.Valid()
    }

    ghost predicate New()
      reads this
    {
      && cpuNode == map[] && numaToCpus == map[] && npuCpuPool == Empty() && uvbCpuPool == []
      && assignMain == map[] && assignAcl == map[] && assignRel == map[]
    }

    constructor (info: DeviceInfo)
      ensures New() && Valid() && this.info == info
    {
      this.info := info;
      cpuNode, numaToCpus, npuCpuPool, uvbCpuPool := map[], map[], Empty(), [];
      assignMain, assignAcl, assignRel := map[], map[], map[];
    }

    method BuildCpuNodeMap(rows: seq<Row>) returns (r: Outcome<(), Error>)
      requires cpuNode == map[] && numaToCpus == map[]
      modifies this`cpuNode, this`numaToCpus
      ensures cpuNode == CpuNodes(rows) && numaToCpus == NumaCpus(rows)
      ensures r == if rows == [] then Raised(NoNumaNode) else Ok(())
    {
      for i := 0 to |rows|
        invariant cpuNode == CpuNodes(rows[..i]) && numaToCpus == NumaCpus(rows[..i])
      {
        TakeNext(rows, i);
        var row := rows[i];
        cpuNode := cpuNode[row.cpu := row.node];
        numaToCpus := AppendTo(numaToCpus, row.node, row.cpu);
      }
      assert rows[..|rows|] == rows;
      NumaNonEmpty(rows);
      if |numaToCpus| == 0 {
        return Raised(NoNumaNode);
      }
      return Ok(());
    }

    /** The list part of `bind_uvb_poll_window_threads`. */
    method ReserveUvbPool()
      modifies this`uvbCpuPool
      ensures uvbCpuPool == UvbPool(info, numaToCpus)
    {
      uvbCpuPool := UvbPool(info, numaToCpus);
    }

    /** On an invalid id the loop has already filled the pools of the ids before it. */
    method BuildGlobalSliceCpuPool(device: DeviceType) returns (r: Outcome<(), Error>)
      requires ValidInfo(info) && npuCpuPool == Empty()
      modifies this`npuCpuPool
      ensures Valid()
      ensures match GlobalPlan(info, device)
              case Built(p) => r == Ok(()) && npuCpuPool == p
              case Failed(e) => r == Raised(e)
              case Skipped => false
    {
      var running := info.runningNpus;
      if running == [] {
        return Ok(());
      }
      var cpus := SortedSet(info.allowedCpus);
      if |cpus| == 0 {
        return Ok(());
      }
      var total := TotalNpus(info);
      var base, extra := |cpus| / total, |cpus| % total;
      if base < MinCpusPerNpu(device) {
        return Raised(InsufficientCpus);
      }
      r := FillSlices(cpus, base, extra, total);
      MapExtSlices(npuCpuPool, cpus, total);
    }

    method FillSlices(cpus: Cpus, base: nat, extra: nat, total: nat) returns (r: Outcome<(), Error>)
      requires ValidInfo(info) && npuCpuPool == Empty()
      modifies this`npuCpuPool
      ensures Valid()
      ensures var outside := FirstOutside(info.runningNpus, total);
              if outside.Some? then r == Raised(InvalidNpu(outside.value))
                else r == Ok(()) && npuCpuPool.keys == info.runningNpus
      ensures forall n :: n in npuCpuPool.items ==> npuCpuPool.items[n] == SliceAt(cpus, base, extra, n)
    {
      var running := info.runningNpus;
      for k := 0 to |running|
        invariant Valid() && npuCpuPool.keys == running[..k]
        invariant FirstOutside(running[..k], total).None?
        invariant forall n :: n in npuCpuPool.items ==> npuCpuPool.items[n] == SliceAt(cpus, base, extra, n)
      {
        var npu := running[k];
        TakeNext(running, k);
        if npu < 0 || npu >= total {
          FirstOutsideStays(running, total, k + 1);
          return Raised(InvalidNpu(npu));
        }
        var slice := SliceAt(cpus, base, extra, npu);
        npuCpuPool := npuCpuPool.Put(npu, slice);
      }
      assert running[..|running|] == running;
      return Ok(());
    }

    /** Widens a one-node list by the allowed CPUs of the next node. */
    method ExtendNuma(cpus: Cpus) returns (r: Outcome<Cpus, Error>)
      requires numaToCpus != map[]
      modifies this`numaToCpus
      ensures match CpuPlan.ExtendNuma(info.allowedCpus, cpuNode, old(numaToCpus), cpus)
              case Ok(x) => r == Ok(x.cpus) && numaToCpus == x.numa
              case Raised(e) => r == Raised(e) && numaToCpus == old(numaToCpus)
    {
      if cpus == [] {
        return Ok([]);
      }
      var single := SingleNode(cpuNode, cpus);
      if single.Raised? {
        return Raised(single.error);
      }
      if single.value.None? {
        return Ok(cpus);
      }
      var next := (single.value.value + 1) % |numaToCpus|;
      if next !in numaToCpus {
        numaToCpus := numaToCpus[next := []];
      }
      var extended := AppendAllowed(cpus, numaToCpus[next]);
      return Ok(SortedSet(extended));
    }

    method AppendAllowed(cpus: Cpus, others: Cpus) returns (extended: Cpus)
      ensures extended == cpus + Allowed(info.allowedCpus, others)
    {
      extended := cpus;
      for i := 0 to |others|
        invariant extended == cpus + Allowed(info.allowedCpus, others[..i])
      {
        TakeNext(others, i);
        if others[i] in info.allowedCpus {
          extended := extended + [others[i]];
        }
      }
      assert others[..|others|] == others;
    }

    /** `average_distribute`: each group of NPUs shares the sorted pool of its first one. */
    method AverageDistribute(groups: seq<seq<nat>>) returns (result: map<nat, Cpus>)
      requires forall g :: 0 <= g < |groups| ==> NoDup(groups[g]) && groups[g] != [] && npuCpuPool.Has(groups[g][0])
      ensures forall n :: n in result <==> exists g :: 0 <= g < |groups| && n in groups[g]
      ensures forall n :: n in result ==> result[n] == LastShare(npuCpuPool, groups, n)
    {
      result := map[];
      var pools := npuCpuPool;
      for g := 0 to |groups|
        invariant forall n :: n in result <==> exists k :: 0 <= k < g && n in groups[k]
        invariant forall n :: n in result ==> result[n] == LastShare(pools, groups[..g], n)
      {
        var shares := ShareOut(Sorted(pools.At(groups[g][0])), groups[g]);
        TakeNext(groups, g);
        result := result + shares;
      }
      assert groups[..|groups|] == groups;
    }

    method BuildGroups() returns (groups: Dict<Cpus, seq<nat>>)
      requires Valid()
      ensures GroupsOf(groups, npuCpuPool.items, npuCpuPool.keys)
    {
      var pools := npuCpuPool;
      groups := Empty();
      for i := 0 to |pools.keys|
        invariant GroupsOf(groups, pools.items, pools.keys[..i])
      {
        var npu := pools.keys[i];
        assert npu in pools.keys;
        var cpus := pools.At(npu);
        GroupsStep(groups, pools.items, pools.keys[..i], npu);
        TakeNext(pools.keys, i);
        groups := groups.Put(cpus, (if groups.Has(cpus) then groups.At(cpus) else []) + [npu]);
      }
      assert pools.keys[..|pools.keys|] == pools.keys;
    }

    /** The shares of one group of NPUs with the same pool. */
    method ShareGroup(cpus: Cpus, npuList: seq<nat>) returns (shares: map<nat, Cpus>)
      requires NoDup(npuList) && npuList != []
      requires forall n :: n in npuList ==> npuCpuPool.Has(n) && npuCpuPool.At(n) == cpus
      ensures forall n :: n in shares <==> n in npuList
      ensures forall n :: n in shares ==> shares[n] == GroupShare(cpus, npuList, n)
    {
      assert npuList[0] in npuList;
      if |npuList| == 1 {
        shares := map[npuList[0] := npuCpuPool.At(npuList[0])];
      } else {
        var groups := [npuList];
        assert groups[0] == npuList;
        shares := AverageDistribute(groups);
        forall n | n in npuList
          ensures n in shares && LastShare(npuCpuPool, groups, n) == GroupShare(cpus, npuList, n)
        {
          assert n in groups[0];
        }
      }
    }

    /** Groups the pools by equal CPU lists and shares each list among its group. */
    method ShareGroups() returns (final: map<nat, Cpus>)
      requires Valid()
      ensures final == TopoFinal(npuCpuPool)
    {
      var pools := npuCpuPool;
      var groups := BuildGroups();
      final := map[];
      for g := 0 to |groups.keys|
        invariant forall n :: n in final <==> n in pools.items && pools.items[n] in groups.keys[..g]
        invariant forall n :: n in final ==> n in pools.items && final[n] == TopoShare(pools, n)
      {
        var key := groups.keys[g];
        assert key in groups.keys;
        TakeNext(groups.keys, g);
        var shares := ShareGroup(key, groups.At(key));
        final := final + shares;
      }
      assert groups.keys[..|groups.keys|] == groups.keys;
      forall n | n in pools.items
        ensures n in final
      {
        assert n in GroupOf(pools.items, pools.keys, pools.items[n]);
        assert groups.Has(pools.items[n]);
      }
      MapExt(final, TopoFinal(pools));
    }

    /** Pools of the candidates; on a raise the pools built so far stay. */
    method BuildCandidatePools(cands: seq<nat>) returns (r: Outcome<(), Error>)
      requires Valid() && numaToCpus != map[]
      modifies this`npuCpuPool, this`numaToCpus
      ensures Valid() && numaToCpus != map[]
      ensures var t := TopoPools(info, cpuNode, Topo(old(npuCpuPool), old(numaToCpus), None), cands);
              && npuCpuPool == t.pools && numaToCpus == t.numa
              && r == match t.error case None => Ok(()) case Some(e) => Raised(e)
    {
      ghost var t0 := Topo(npuCpuPool, numaToCpus, None);
      for i := 0 to |cands|
        invariant Valid() && numaToCpus != map[]
        invariant TopoPools(info, cpuNode, t0, cands[..i]) == Topo(npuCpuPool, numaToCpus, None)
      {
        var npu := cands[i];
        TakeNext(cands, i);
        ghost var t := Topo(npuCpuPool, numaToCpus, None);
        ghost var t' := TopoPools(info, cpuNode, t0, cands[..i + 1]);
        var baseCpus := BaseCpus(info, npu);
        assert t' == TopoStep(info.allowedCpus, cpuNode, t, npu, baseCpus);
        if baseCpus == [] {
          TopoErrorStays(info, cpuNode, t0, cands, i + 1);
          return Raised(AffinityConflict);
        }
        var extended := ExtendNuma(baseCpus);
        if extended.Raised? {
          TopoErrorStays(info, cpuNode, t0, cands, i + 1);
          return Raised(extended.error);
        }
        npuCpuPool := npuCpuPool.Put(npu, extended.value);
      }
      assert cands[..|cands|] == cands;
      return Ok(());
    }

    /** Keeps only the shares of the visible NPUs. */
    method SelectVisible() returns (r: Outcome<(), Error>)
      requires Valid() && ValidInfo(info)
      modifies this`npuCpuPool
      ensures match VisibleShares(info.runningNpus, old(npuCpuPool))
              case Built(p) => r == Ok(()) && npuCpuPool == p
              case Failed(e) => r == Raised(e) && npuCpuPool == old(npuCpuPool)
              case Skipped => false
      ensures Valid()
    {
      var final := ShareGroups();
      var missing := FirstMissing(info.runningNpus, final);
      if missing.Some? {
        return Raised(KeyError(missing.value));
      }
      ghost var plan := VisibleShares(info.runningNpus, npuCpuPool);
      npuCpuPool := Dict(info.runningNpus, Restrict(final, info.runningNpus));
      assert npuCpuPool == plan.pools;
      return Ok(());
    }

    method BuildTopoAffinityCpuPool(device: DeviceType) returns (r: Outcome<(), Error>)
      requires ValidInfo(info) && npuCpuPool == Empty() && numaToCpus != map[]
      modifies this`npuCpuPool, this`numaToCpus
      ensures Valid()
      ensures match TopoPlan(info, device, cpuNode, old(numaToCpus))
              case Built(p) => r == Ok(()) && npuCpuPool == p
              case Failed(e) => r == Raised(e)
              case Skipped => false
    {
      if info.npuAffinity == map[] {
        r := BuildGlobalSliceCpuPool(device);
        return;
      }
      r := BuildCandidatePools(Candidates(info));
      if r.Ok? {
        r := SelectVisible();
      }
    }

    /** The candidates by node, or nothing when one of them has no single node. */
    method GroupByNode(cands: seq<nat>)
      returns (r: Outcome<Option<Dict<nat, seq<nat>>>, Error>, ghost node: map<nat, nat>)
      requires NoDup(cands)
      ensures match NodeMap(info, cpuNode, cands)
              case Raised(e) => r == Raised(e)
              case Ok(None) => r == Ok(None)
              case Ok(Some(m)) => node == m && r.Ok? && r.value.Some? && NodeGroups(r.value.value, node, cands)
    {
      var groups: Dict<nat, seq<nat>> := Empty();
      node := map[];
      for i := 0 to |cands|
        invariant NodeMap(info, cpuNode, cands[..i]) == Ok(Some(node))
        invariant NodeGroups(groups, node, cands[..i])
      {
        var npu := cands[i];
        TakeNext(cands, i);
        var single := NpuNode(info, cpuNode, npu);
        if single.Raised? {
          NodeMapStays(info, cpuNode, cands, i + 1);
          return Raised(single.error), node;
        }
        if single.value.None? {
          NodeMapStays(info, cpuNode, cands, i + 1);
          return Ok(None), node;
        }
        var k := single.value.value;
        NodeGroupsStep(groups, node, cands[..i], npu, k);
        node := node[npu := k];
        groups := groups.Put(k, (if groups.Has(k) then groups.At(k) else []) + [npu]);
      }
      assert cands[..|cands|] == cands;
      return Ok(Some(groups)), node;
    }

    method GiveClusters(npus: seq<nat>, clusters: seq<Cpus>) returns (given: map<nat, Cpus>)
      requires NoDup(npus) && |npus| <= |clusters|
      ensures forall n :: n in given <==> n in npus
      ensures forall n :: n in given ==> given[n] == clusters[IndexOf(npus, n)]
    {
      given := map[];
      for i := 0 to |npus|
        invariant forall n :: n in given <==> n in npus[..i]
        invariant forall n :: n in given ==> n in npus && given[n] == clusters[IndexOf(npus, n)]
      {
        assert IndexOf(npus, npus[i]) == i;
        TakeNext(npus, i);
        given := given[npus[i] := clusters[i]];
      }
      assert npus[..|npus|] == npus;
    }

    /** One cluster for each NPU of each node, or nothing when a node has too few. */
    method AssignClusters(groups: Dict<nat, seq<nat>>, size: nat, ghost h: ClusterInput)
      returns (final: Option<map<nat, Cpus>>)
      requires h.Valid() && h.size == size && NodeGroups(groups, h.node, h.npus)
      requires forall k :: groups.Has(k) ==> Get(h.cpus, k) == ClusterCpus(info.allowedCpus, numaToCpus, uvbCpuPool, k)
      ensures final.Some? <==> h.AllEnough()
      ensures final.Some? ==> final.value == h.Assignment()
    {
      var plan: map<nat, Cpus> := map[];
      for g := 0 to |groups.keys|
        invariant PlacedOn(h, plan, groups.keys[..g])
      {
        var k := groups.keys[g];
        TakeNext(groups.keys, g);
        assert k in groups.keys;
        var clusters := Clusters(ClusterCpus(info.allowedCpus, numaToCpus, uvbCpuPool, k), size);
        var npus := Sorted(groups.At(k));
        assert npus == h.On(k);
        if |clusters| < |npus| {
          NotEnough(h, k);
          return None;
        }
        var given := GiveClusters(npus, clusters);
        PlacedStep(h, plan, groups.keys[..g], k, given);
        plan := plan + given;
      }
      assert groups.keys[..|groups.keys|] == groups.keys;
      PlacedAll(h, plan, groups);
      return Some(plan);
    }

    method BuildAscend950CpuPools(threadsPerCore: Option<nat>) returns (r: Outcome<bool, Error>)
      requires ValidInfo(info) && Valid()
      modifies this`npuCpuPool
      ensures match Plan950(info, cpuNode, numaToCpus, uvbCpuPool, threadsPerCore)
              case Built(p) => r == Ok(true) && npuCpuPool == p
              case Skipped => r == Ok(false) && npuCpuPool == old(npuCpuPool)
              case Failed(e) => r == Raised(e) && npuCpuPool == old(npuCpuPool)
      ensures Valid()
    {
      var size := ClusterSize(threadsPerCore);
      if info.npuAffinity == map[] || size.None? {
        return Ok(false);
      }
      AscendingNoDup(info.allLogicNpus);
      var groups, node := GroupByNode(Candidates(info));
      if groups.Raised? {
        return Raised(groups.error);
      }
      if groups.value.None? {
        return Ok(false);
      }
      r := BindClusters(groups.value.value, size.value, InputOf(info, node, numaToCpus, uvbCpuPool, size.value));
    }

    /** The clusters of the visible NPUs, or nothing when clusters run short. */
    method BindClusters(groups: Dict<nat, seq<nat>>, size: nat, ghost h: ClusterInput) returns (r: Outcome<bool, Error>)
      requires ValidInfo(info) && h.Valid() && h.size == size && NodeGroups(groups, h.node, h.npus)
      requires forall k :: k in h.cpus ==> h.cpus[k] == ClusterCpus(info.allowedCpus, numaToCpus, uvbCpuPool, k)
      modifies this`npuCpuPool
      ensures var plan := VisibleClusters(h, info.runningNpus);
              if plan.Built? then r == Ok(true) && npuCpuPool == plan.pools
              else plan == Skipped && r == Ok(false) && npuCpuPool == old(npuCpuPool)
    {
      GroupsHaveCpus(groups, h);
      var final := AssignClusters(groups, size, h);
      if final.None? || FirstMissing(info.runningNpus, final.value).Some? {
        return Ok(false);
      }
      npuCpuPool := Dict(info.runningNpus, Restrict(final.value, info.runningNpus));
      return Ok(true);
    }

    method BuildCpuPools(device: DeviceType, rows: seq<Row>, threadsPerCore: Option<nat>)
      returns (r: Outcome<bool, Error>)
      requires ValidInfo(info) && New()
      modifies this`cpuNode, this`numaToCpus, this`npuCpuPool, this`uvbCpuPool
      ensures Valid()
      ensures match Plan(info, device, rows, threadsPerCore)
              case Built(p) => r == Ok(true) && npuCpuPool == p
              case Skipped => r == Ok(false)
              case Failed(e) => r == Raised(e)
    {
      var read := BuildCpuNodeMap(rows);
      if read.Raised? {
        return Raised(read.error);
      }
      NumaNonEmpty(rows);
      if device.A5? {
        ReserveUvbPool();
        r := BuildAscend950CpuPools(threadsPerCore);
        return;
      }
      var built;
      if device.A3? {
        built := BuildGlobalSliceCpuPool(device);
      } else {
        built := BuildTopoAffinityCpuPool(device);
      }
      r := match built case Ok(_) => Ok(true) case Raised(e) => Raised(e);
    }

    /** `_allocate_default_roles` and `_allocate_ascend_950_roles`. */
    method Allocate(device: DeviceType) returns (r: Outcome<(), Error>)
      requires Valid()
      requires assignMain == map[] && assignAcl == map[] && assignRel == map[]
      modifies this`assignMain, this`assignAcl, this`assignRel
      ensures device.A5? ==>
                && r == Ok(()) && assignMain == npuCpuPool.items
                && assignAcl.Keys == assignRel.Keys == npuCpuPool.items.Keys
                && forall n :: n in npuCpuPool.items ==> assignAcl[n] == [] && assignRel[n] == []
      ensures !device.A5? ==>
                (r.Ok? <==> forall n :: n in npuCpuPool.items ==> |npuCpuPool.items[n]| >= 5)
      ensures !device.A5? && r.Raised? ==>
                r.error.PoolTooSmall? && npuCpuPool.Has(r.error.npu) && |npuCpuPool.At(r.error.npu)| < 5
      ensures !device.A5? && r.Ok? ==>
                && assignMain.Keys == assignAcl.Keys == assignRel.Keys == npuCpuPool.items.Keys
                && forall n :: n in npuCpuPool.items ==>
                     var roles := SplitRoles(device, npuCpuPool.items[n]);
                     assignMain[n] == roles.main && assignAcl[n] == roles.acl && assignRel[n] == roles.release
    {
      var pool := npuCpuPool;
      if device.A5? {
        assignMain := pool.items;
        assignAcl := map n | n in pool.items :: [];
        assignRel := map n | n in pool.items :: [];
        return Ok(());
      }
      for k := 0 to |pool.keys|
        invariant forall n :: n in pool.keys[..k] <==> n in assignMain
        invariant assignMain.Keys == assignAcl.Keys == assignRel.Keys
        invariant forall n :: n in pool.keys[..k] ==>
                    && |pool.items[n]| >= MinCpusPerNpu(device)
                    && var roles := SplitRoles(device, pool.items[n]);
                       assignMain[n] == roles.main && assignAcl[n] == roles.acl && assignRel[n] == roles.release
      {
        var npu := pool.keys[k];
        TakeNext(pool.keys, k);
        assert npu in pool.keys;
        var cpus := pool.At(npu);
        if |cpus| < MinCpusPerNpu(device) {
          assert npu in npuCpuPool.items && |npuCpuPool.items[npu]| < MinCpusPerNpu(device);
          return Raised(PoolTooSmall(npu));
        }
        var roles := SplitRoles(device, cpus);
        assignMain := assignMain[npu := roles.main];
        assignAcl := assignAcl[npu := roles.acl];
        assignRel := assignRel[npu := roles.release];
      }
      assert pool.keys[..|pool.keys|] == pool.keys;
      assert assignMain.Keys == pool.items.Keys;
      return Ok(());
    }

    /**
     The building part of `run_all`: pools, then roles. When slicing succeeded the roles do too, and every
     NPU has a main role.
     */
    method BuildAndAllocate(device: DeviceType, rows: seq<Row>, threadsPerCore: Option<nat>)
      returns (r: Outcome<bool, Error>)
      requires ValidInfo(info) && New()
      modifies this
      ensures var plan := Plan(info, device, rows, threadsPerCore);
              && (plan.Failed? ==> r == Raised(plan.error)) && (plan.Skipped? ==> r == Ok(false))
              && (plan.Built? && device.A5? ==> r == Ok(true) && assignMain == plan.pools.items)
              && (plan.Built? && !device.A5? ==>
                    (r == Ok(true) <==> forall n :: plan.pools.Has(n) ==> |plan.pools.At(n)| >= 5))
              && (plan.Built? && device.A3? ==>
                    && r == Ok(true)
                    && forall n :: plan.pools.Has(n) ==> n in assignMain && assignMain[n] != [])
    {
      var built := BuildCpuPools(device, rows, threadsPerCore);
      if built.Raised? || !built.value {
        return built;
      }
      ghost var pools := npuCpuPool;
      if device.A3? {
        forall n | pools.Has(n)
          ensures |pools.At(n)| >= MinCpusPerNpu(device)
        {
          CpuSlices.GlobalPoolsFit(info, device, n);
        }
      }
      var split := Allocate(device);
      r := match split case Ok(_) => Ok(true) case Raised(e) => Raised(e);
    }
  }

  lemma GroupsHaveCpus(groups: Dict<nat, seq<nat>>, h: ClusterInput)
    requires h.Valid() && NodeGroups(groups, h.node, h.npus)
    ensures forall k :: groups.Has(k) ==> k in h.cpus
  {
    forall k | groups.Has(k)
      ensures k in h.cpus
    {
      var n := NpusOn(h.node, h.npus, k)[0];
      assert n in NpusOn(h.node, h.npus, k);
    }
  }
}
