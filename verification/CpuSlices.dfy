/** Global slicing: one partition of the cpuset, whatever each worker sees. */
module CpuSlices {
  import opened Prelude
  import opened Devices
  import opened Sorting
  import opened Dictionaries
  import opened CpuPlan

  lemma SlicesDisjoint(cpus: Cpus, i: nat, j: nat, k: nat, l: nat)
    requires NoDup(cpus) && i <= j <= k <= l <= |cpus|
    ensures Disjoint(cpus[i..j], cpus[k..l]) && Disjoint(cpus[k..l], cpus[i..j])
  {
  }

  ghost function Slices(cpus: Cpus, base: nat, extra: nat, k: nat): seq<Cpus> {
    seq(k, i requires 0 <= i < k => SliceAt(cpus, base, extra, i))
  }

  lemma {:induction false} SlicesConcatenate(cpus: Cpus, base: nat, extra: nat, k: nat)
    requires SliceStart(base, extra, k) <= |cpus|
    ensures Flatten(Slices(cpus, base, extra, k)) == cpus[..SliceStart(base, extra, k)]
  {
    if k > 0 {
      SliceStep(base, extra, k - 1);
      SlicesConcatenate(cpus, base, extra, k - 1);
      assert Slices(cpus, base, extra, k)[..k - 1] == Slices(cpus, base, extra, k - 1);
    }
  }

  /** The slices of ids 0..total-1 are the sorted cpuset, cut in order into parts that differ by at most one. */
  lemma GlobalSlicesPartition(cpus: Cpus, total: nat)
    requires total > 0
    ensures Flatten(seq(total, i requires 0 <= i < total => GlobalSlice(cpus, total, i))) == cpus
    ensures forall i, j :: 0 <= i < total && 0 <= j < total ==>
              |GlobalSlice(cpus, total, i)| <= |GlobalSlice(cpus, total, j)| + 1
  {
    var base, extra := |cpus| / total, |cpus| % total;
    SliceEnd(|cpus|, total);
    SlicesConcatenate(cpus, base, extra, total);
    assert Slices(cpus, base, extra, total) == seq(total, i requires 0 <= i < total => GlobalSlice(cpus, total, i));
    forall i | 0 <= i < total
      ensures |GlobalSlice(cpus, total, i)| == SliceTake(base, extra, i)
    {
      SliceInRange(cpus, total, i);
    }
  }

  lemma SliceInRange(cpus: Cpus, total: nat, i: nat)
    requires i < total
    ensures SliceStart(|cpus| / total, |cpus| % total, i + 1) <= |cpus|
    ensures |GlobalSlice(cpus, total, i)| == SliceTake(|cpus| / total, |cpus| % total, i)
  {
    var base, extra := |cpus| / total, |cpus| % total;
    SliceEnd(|cpus|, total);
    SliceMonotone(base, extra, i + 1, total);
    SliceStep(base, extra, i);
  }

  lemma SliceAtDisjoint(cpus: Cpus, base: nat, extra: nat, i: nat, j: nat)
    requires NoDup(cpus) && i < j && SliceStart(base, extra, j + 1) <= |cpus|
    ensures Disjoint(SliceAt(cpus, base, extra, i), SliceAt(cpus, base, extra, j))
    ensures Disjoint(SliceAt(cpus, base, extra, j), SliceAt(cpus, base, extra, i))
  {
    SliceStep(base, extra, i);
    SliceStep(base, extra, j);
    SliceMonotone(base, extra, i + 1, j);
    SlicesDisjoint(cpus, SliceStart(base, extra, i), SliceStart(base, extra, i + 1),
                   SliceStart(base, extra, j), SliceStart(base, extra, j + 1));
  }

  lemma GlobalSlicesDisjoint(cpus: Cpus, total: nat, i: nat, j: nat)
    requires NoDup(cpus) && i < j < total
    ensures Disjoint(GlobalSlice(cpus, total, i), GlobalSlice(cpus, total, j))
    ensures Disjoint(GlobalSlice(cpus, total, j), GlobalSlice(cpus, total, i))
  {
    SliceInRange(cpus, total, j);
    SliceAtDisjoint(cpus, |cpus| / total, |cpus| % total, i, j);
  }

  /** The CPUs of a pool built by slicing are distinct and enough for the role split. */
  lemma GlobalPoolsFit(info: DeviceInfo, device: DeviceType, n: nat)
    requires GlobalPlan(info, device).Built? && GlobalPlan(info, device).pools.Has(n)
    ensures NoDup(GlobalPlan(info, device).pools.At(n))
    ensures |GlobalPlan(info, device).pools.At(n)| >= MinCpusPerNpu(device)
  {
    var cpus, total := SortedSet(info.allowedCpus), TotalNpus(info);
    AscendingNoDup(cpus);
    SliceInRange(cpus, total, n);
  }

  /**
   Two workers of one host, whose visible NPUs are logical ones, never give one CPU to two NPUs, give an NPU
   both see the same pool, and leave every pool large enough for the role split.
   */
  lemma GlobalWorkersDisjoint(a: DeviceInfo, b: DeviceInfo, device: DeviceType, n: nat, m: nat)
    requires SameHost(a, b)
    requires forall k :: k in a.runningNpus ==> k in a.allLogicNpus
    requires forall k :: k in b.runningNpus ==> k in b.allLogicNpus
    requires GlobalPlan(a, device).Built? && GlobalPlan(b, device).Built?
    requires GlobalPlan(a, device).pools.Has(n) && GlobalPlan(b, device).pools.Has(m)
    ensures var p, q := GlobalPlan(a, device).pools, GlobalPlan(b, device).pools;
            && |p.At(n)| >= MinCpusPerNpu(device)
            && if n == m then p.At(n) == q.At(m) else Disjoint(p.At(n), q.At(m))
  {
    var cpus, total := SortedSet(a.allowedCpus), TotalNpus(a);
    SeesLogical(a, device, n);
    assert TotalNpus(b) == total;
    AscendingNoDup(cpus);
    GlobalPoolsFit(a, device, n);
    if n < m {
      GlobalSlicesDisjoint(cpus, total, n, m);
    } else if m < n {
      GlobalSlicesDisjoint(cpus, total, m, n);
    }
  }

  /** A worker with a pool sees a logical NPU, so it slices by the number of logical NPUs. */
  lemma SeesLogical(info: DeviceInfo, device: DeviceType, n: nat)
    requires forall k :: k in info.runningNpus ==> k in info.allLogicNpus
    requires GlobalPlan(info, device).Built? && GlobalPlan(info, device).pools.Has(n)
    ensures TotalNpus(info) == |info.allLogicNpus| > 0
  {
    assert n in info.runningNpus;
  }
}
