/**
 What the CPU pool builders of `CpuAlloc` compute, as functions of the process's
 inputs. CpuAlloc.dfy proves that the allocator's loops compute these; CpuSlices,
 CpuGroups and CpuClusters prove what several workers on one host can rely on.
 */
module CpuPlan {
  import opened Prelude
  import opened Arithmetic
  import opened Devices
  import opened Sorting
  import opened Dictionaries

  datatype Error =
    | KeyError(key: nat)
    | NoNumaNode
    | AffinityConflict
    | InsufficientCpus
    | InvalidNpu(npu: nat)
    | PoolTooSmall(npu: nat)

  type Cpus = seq<nat>
  type Pools = Dict<nat, Cpus>

  /** One worker's view of the machine. Workers on one host differ only in `runningNpus`. */
  datatype DeviceInfo = DeviceInfo(
    allowedCpus: Cpus,
    runningNpus: seq<nat>,
    npuAffinity: map<nat, Cpus>,
    allLogicNpus: seq<nat>)

  /** Both id lists are sorted sets; DeviceTable.dfy builds them so. */
  ghost predicate ValidInfo(info: DeviceInfo) {
    StrictlyAscending(info.runningNpus) && StrictlyAscending(info.allLogicNpus)
  }

  /** Two workers of one host: everything but the visible NPUs is the same. */
  ghost predicate SameHost(a: DeviceInfo, b: DeviceInfo) {
    && a.allowedCpus == b.allowedCpus
    && a.npuAffinity == b.npuAffinity
    && a.allLogicNpus == b.allLogicNpus
    && ValidInfo(a) && ValidInfo(b)
  }

  /** A line of `lscpu -e=CPU,NODE`. */
  datatype Row = Row(cpu: nat, node: nat)

  ghost predicate DistinctCpus(rows: seq<Row>) {
    forall i, j :: 0 <= i < j < |rows| ==> rows[i].cpu != rows[j].cpu
  }

  function CpuNodes(rows: seq<Row>): map<nat, nat> {
    if rows == [] then map[]
    else
      var last := rows[|rows| - 1];
      CpuNodes(rows[..|rows| - 1])[last.cpu := last.node]
  }

  function NumaCpus(rows: seq<Row>): map<nat, Cpus> {
    if rows == [] then map[]
    else
      var last := rows[|rows| - 1];
      AppendTo(NumaCpus(rows[..|rows| - 1]), last.node, last.cpu)
  }

  lemma NumaNonEmpty(rows: seq<Row>)
    ensures NumaCpus(rows) == map[] <==> rows == []
  {
    if rows != [] {
      assert rows[|rows| - 1].node in NumaCpus(rows);
    }
  }

  /** `d[k].append(x)` on a `defaultdict(list)`. */
  function AppendTo(d: map<nat, Cpus>, k: nat, x: nat): map<nat, Cpus> {
    d[k := Get(d, k) + [x]]
  }

  /** `d.get(k, [])`. */
  function Get(d: map<nat, Cpus>, k: nat): Cpus {
    if k in d then d[k] else []
  }

  // ---- candidates and their base CPUs, shared by the topology and Ascend 950 builders

  function Allowed(allowed: Cpus, cpus: Cpus): (r: Cpus)
    ensures forall c :: c in r <==> c in cpus && c in allowed
    ensures NoDup(cpus) ==> NoDup(r)
  {
    Filter(c => c in allowed, cpus)
  }

  function BaseCpus(info: DeviceInfo, npu: nat): Cpus {
    Allowed(info.allowedCpus, Get(info.npuAffinity, npu))
  }

  predicate Overlaps(info: DeviceInfo, npu: nat) {
    exists c :: c in Get(info.npuAffinity, npu) && c in info.allowedCpus
  }

  lemma OverlapsIff(info: DeviceInfo, npu: nat)
    ensures Overlaps(info, npu) <==> BaseCpus(info, npu) != []
  {
    if BaseCpus(info, npu) != [] {
      var c := BaseCpus(info, npu)[0];
      assert c in BaseCpus(info, npu);
      assert exists d :: d in Get(info.npuAffinity, npu) && d in info.allowedCpus;
    }
  }

  function IsCandidate(info: DeviceInfo): nat -> bool {
    (n: nat) => n in info.runningNpus || Overlaps(info, n)
  }

  /** Visible NPUs, and the hidden ones whose affinity meets this cpuset. */
  function Candidates(info: DeviceInfo): (r: seq<nat>)
    ensures forall n :: n in r <==>
                          n in info.allLogicNpus && (n in info.runningNpus || Overlaps(info, n))
    ensures NoDup(info.allLogicNpus) ==> NoDup(r)
  {
    Filter(IsCandidate(info), info.allLogicNpus)
  }

  /** When every candidate meets the cpuset, the candidates no longer depend on what is visible. */
  lemma CandidatesAgree(a: DeviceInfo, b: DeviceInfo)
    requires SameHost(a, b)
    requires forall n :: n in Candidates(a) ==> Overlaps(a, n)
    requires forall n :: n in Candidates(b) ==> Overlaps(b, n)
    ensures Candidates(a) == Candidates(b)
  {
    forall n | n in a.allLogicNpus
      ensures (n in a.runningNpus || Overlaps(a, n)) == (n in b.runningNpus || Overlaps(b, n))
    {
      assert n in Candidates(a) <==> n in a.runningNpus || Overlaps(a, n);
      assert n in Candidates(b) <==> n in b.runningNpus || Overlaps(b, n);
      assert Overlaps(a, n) == Overlaps(b, n);
    }
    FilterCongruence(IsCandidate(a), IsCandidate(b), a.allLogicNpus);
  }

  /** The one node holding all of cpus; reading the node of an unlisted CPU raises. */
  function SingleNode(cpuNode: map<nat, nat>, cpus: Cpus): Outcome<Option<nat>, Error> {
    match FirstUnlisted(cpuNode, cpus)
    case Some(c) => Raised(KeyError(c))
    case None =>
      if cpus != [] && forall c :: c in cpus ==> cpuNode[c] == cpuNode[cpus[0]]
      then Ok(Some(cpuNode[cpus[0]]))
      else Ok(None)
  }

  function FirstUnlisted(cpuNode: map<nat, nat>, cpus: Cpus): (r: Option<nat>)
    ensures r.None? ==> forall c :: c in cpus ==> c in cpuNode
    ensures r.Some? ==> r.value in cpus && r.value !in cpuNode
  {
    if cpus == [] then None
    else if cpus[0] !in cpuNode then Some(cpus[0])
    else
      assert cpus == [cpus[0]] + cpus[1..];
      FirstUnlisted(cpuNode, cpus[1..])
  }

  // ---- global slicing

  function TotalNpus(info: DeviceInfo): nat {
    if |info.allLogicNpus| > 0 then |info.allLogicNpus|
    else if info.npuAffinity != map[] then |info.npuAffinity|
    else |info.runningNpus|
  }

  function SliceStart(base: nat, extra: nat, i: nat): nat {
    i * base + Min(i, extra)
  }

  function SliceTake(base: nat, extra: nat, i: nat): nat {
    base + if i < extra then 1 else 0
  }

  lemma SliceStep(base: nat, extra: nat, i: nat)
    ensures SliceStart(base, extra, i + 1) == SliceStart(base, extra, i) + SliceTake(base, extra, i)
  {
  }

  lemma {:induction false} SliceMonotone(base: nat, extra: nat, i: nat, j: nat)
    requires i <= j
    ensures SliceStart(base, extra, i) <= SliceStart(base, extra, j)
    decreases j - i
  {
    if i < j {
      SliceStep(base, extra, j - 1);
      SliceMonotone(base, extra, i, j - 1);
    }
  }

  /** The slices of all NPUs end at the end of the list. */
  lemma SliceEnd(count: nat, total: nat)
    requires total > 0
    ensures SliceStart(count / total, count % total, total) == count
  {
  }

  /** The slice of one NPU; a Python slice, so an end past the list stops at the list. */
  function SliceAt(cpus: Cpus, base: nat, extra: nat, i: nat): Cpus {
    var start := SliceStart(base, extra, i);
    var end := start + SliceTake(base, extra, i);
    if end <= |cpus| then cpus[start..end] else if start <= |cpus| then cpus[start..] else []
  }

  function GlobalSlice(cpus: Cpus, total: nat, i: nat): Cpus
    requires total > 0
  {
    SliceAt(cpus, |cpus| / total, |cpus| % total, i)
  }

  function MinCpusPerNpu(device: DeviceType): nat {
    if device.A5? then 3 else 5
  }

  // ---- topology affinity

  datatype Extended = Extended(cpus: Cpus, numa: map<nat, Cpus>)

  /**
   `extend_numa`: a list on one node is widened by the allowed CPUs of the next node.
   Looking the next node up in the `defaultdict` adds it, empty, when it is not there.
   */
  function ExtendNuma(allowed: Cpus, cpuNode: map<nat, nat>, numa: map<nat, Cpus>, cpus: Cpus): Outcome<Extended, Error>
    requires numa != map[]
  {
    if cpus == [] then Ok(Extended([], numa))
    else
      match SingleNode(cpuNode, cpus)
      case Raised(e) => Raised(e)
      case Ok(None) => Ok(Extended(cpus, numa))
      case Ok(Some(node)) => Ok(Widen(allowed, numa, cpus, (node + 1) % |numa|))
  }

  function Widen(allowed: Cpus, numa: map<nat, Cpus>, cpus: Cpus, next: nat): Extended {
    Extended(SortedSet(cpus + Allowed(allowed, Get(numa, next))), if next in numa then numa else numa[next := []])
  }

  /** The state of the loop over the candidates, and what it raised if it did. */
  datatype Topo = Topo(pools: Pools, numa: map<nat, Cpus>, error: Option<Error>)

  function TopoStep(allowed: Cpus, cpuNode: map<nat, nat>, t: Topo, npu: nat, base: Cpus): (t': Topo)
    requires t.numa != map[]
    ensures t'.numa != map[]
    ensures t.pools.Valid() ==> t'.pools.Valid()
  {
    if t.error.Some? then t
    else if base == [] then t.(error := Some(AffinityConflict))
    else
      match ExtendNuma(allowed, cpuNode, t.numa, base)
      case Raised(e) => t.(error := Some(e))
      case Ok(x) => Topo(t.pools.Put(npu, x.cpus), x.numa, None)
  }

  function TopoPools(info: DeviceInfo, cpuNode: map<nat, nat>, t: Topo, npus: seq<nat>): (t': Topo)
    requires t.numa != map[]
    ensures t'.numa != map[]
    ensures t.pools.Valid() ==> t'.pools.Valid()
  {
    if npus == [] then t
    else
      var last := npus[|npus| - 1];
      TopoStep(info.allowedCpus, cpuNode, TopoPools(info, cpuNode, t, npus[..|npus| - 1]), last, BaseCpus(info, last))
  }

  function HasPool(items: map<nat, Cpus>, cpus: Cpus): nat -> bool {
    (n: nat) => n in items && items[n] == cpus
  }

  /** The NPUs whose pool is the list cpus, in the given order. */
  function GroupOf(items: map<nat, Cpus>, npus: seq<nat>, cpus: Cpus): (r: seq<nat>)
    ensures forall n :: n in r <==> n in npus && n in items && items[n] == cpus
    ensures NoDup(npus) ==> NoDup(r)
  {
    Filter(HasPool(items, cpus), npus)
  }

  /** Part i of cpus cut into equal parts, the last one taking the remainder. */
  function Share(cpus: Cpus, parts: nat, i: nat): (r: Cpus)
    requires i < parts
    ensures forall c :: c in r ==> c in cpus
  {
    ShareBounds(|cpus|, parts, i);
    var per := |cpus| / parts;
    cpus[i * per..if i < parts - 1 then (i + 1) * per else |cpus|]
  }

  lemma ShareBounds(n: nat, parts: nat, i: nat)
    requires i < parts
    ensures 0 <= i * (n / parts) <= (i + 1) * (n / parts) <= parts * (n / parts) <= n
  {
    MulLe(i + 1, parts, n / parts);
  }

  /** The share of an NPU with the given pool, the group being the NPUs that have the same pool. */
  function GroupShare(cpus: Cpus, group: seq<nat>, npu: nat): (r: Cpus)
    requires npu in group
    ensures forall c :: c in r ==> c in cpus
  {
    if |group| == 1 then cpus else Share(Sorted(cpus), |group|, IndexOf(group, npu))
  }

  function TopoShare(pools: Pools, npu: nat): (r: Cpus)
    requires pools.Valid() && pools.Has(npu)
    ensures forall c :: c in r ==> c in pools.At(npu)
  {
    GroupShare(pools.At(npu), GroupOf(pools.items, pools.keys, pools.At(npu)), npu)
  }

  function TopoFinal(pools: Pools): (r: map<nat, Cpus>)
    requires pools.Valid()
    ensures forall n :: n in r <==> n in pools.items
    ensures forall n :: n in r ==> r[n] == TopoShare(pools, n)
  {
    map n | n in pools.items :: TopoShare(pools, n)
  }

  // ---- Ascend 950 clusters

  function UvbPool(info: DeviceInfo, numa: map<nat, Cpus>): (r: Cpus)
    ensures forall c :: c in r <==> c in Get(numa, 0) && c in info.allowedCpus && c != 0
  {
    Filter(c => c in info.allowedCpus && c != 0, Get(numa, 0))
  }

  /** A cluster has eight physical cores; other thread counts than 1 and 2 are not supported. */
  function ClusterSize(threadsPerCore: Option<nat>): (r: Option<nat>)
    ensures r.Some? ==> r.value >= 8
  {
    if threadsPerCore == Some(1) || threadsPerCore == Some(2) then Some(8 * threadsPerCore.value) else None
  }

  function NpuNode(info: DeviceInfo, cpuNode: map<nat, nat>, npu: nat): Outcome<Option<nat>, Error> {
    SingleNode(cpuNode, BaseCpus(info, npu))
  }

  /** The node of every NPU; otherwise the first NPU without a single node decides. */
  function NodeMap(info: DeviceInfo, cpuNode: map<nat, nat>, npus: seq<nat>): (r: Outcome<Option<map<nat, nat>>, Error>)
    ensures r.Ok? && r.value.Some? ==> forall n :: n in r.value.value <==> n in npus
    ensures r.Ok? && r.value.Some? ==> forall n :: n in r.value.value ==>
              NpuNode(info, cpuNode, n) == Ok(Some(r.value.value[n]))
  {
    if npus == [] then Ok(Some(map[]))
    else
      var last := npus[|npus| - 1];
      assert npus == npus[..|npus| - 1] + [last];
      var before := NodeMap(info, cpuNode, npus[..|npus| - 1]);
      if before.Raised? || before.value.None? then before
      else
        match NpuNode(info, cpuNode, last)
        case Raised(e) => Raised(e)
        case Ok(None) => Ok(None)
        case Ok(Some(k)) => Ok(Some(before.value.value[last := k]))
  }

  function Usable(allowed: Cpus, uvb: Cpus): nat -> bool {
    (c: nat) => c in allowed && c !in uvb
  }

  /** The CPUs of a node that may be given away, in ascending order. */
  function ClusterCpus(allowed: Cpus, numa: map<nat, Cpus>, uvb: Cpus, node: nat): (r: Cpus)
    ensures forall c :: c in r <==> c in Get(numa, node) && c in allowed && c !in uvb
    ensures NoDup(Get(numa, node)) ==> NoDup(r)
  {
    SortedNoDup(Get(numa, node));
    Filter(Usable(allowed, uvb), Sorted(Get(numa, node)))
  }

  lemma ChunkBounds(n: nat, size: nat, i: nat)
    requires 0 < size && i < n / size
    ensures 0 <= i * size <= (i + 1) * size <= n
  {
    MulLe(i + 1, n / size, size);
  }

  function Chunk(cpus: Cpus, size: nat, i: nat): (r: Cpus)
    requires 0 < size && i < |cpus| / size
    ensures |r| == size
    ensures forall c :: c in r ==> c in cpus
    ensures NoDup(cpus) ==> NoDup(r)
  {
    ChunkBounds(|cpus|, size, i);
    assert (i + 1) * size - i * size == size;
    cpus[i * size..(i + 1) * size]
  }

  /** The full chunks of cpus; a shorter rest is dropped. */
  function Clusters(cpus: Cpus, size: nat): (r: seq<Cpus>)
    requires size > 0
    ensures |r| == |cpus| / size
    ensures forall i :: 0 <= i < |r| ==> r[i] == Chunk(cpus, size, i)
  {
    seq(|cpus| / size, i requires 0 <= i < |cpus| / size => Chunk(cpus, size, i))
  }

  function NpusOn(node: map<nat, nat>, npus: seq<nat>, k: nat): (r: seq<nat>)
    ensures forall n :: n in r <==> n in npus && n in node && node[n] == k
    ensures NoDup(npus) ==> NoDup(r)
  {
    Filter(n => n in node && node[n] == k, npus)
  }

  /** What a cluster plan is made from: the NPUs, their nodes, and the CPUs each node can give. */
  datatype ClusterInput = ClusterInput(npus: seq<nat>, node: map<nat, nat>, cpus: map<nat, Cpus>, size: nat) {

    ghost predicate Valid() {
      && size > 0 && NoDup(npus)
      && (forall n :: n in npus <==> n in node)
      && (forall n :: n in node ==> node[n] in cpus)
    }

    /** The NPUs of a node, in the order they are given its clusters. */
    function On(k: nat): (r: seq<nat>)
      ensures forall n :: n in r <==> n in npus && n in node && node[n] == k
      ensures NoDup(npus) ==> NoDup(r)
    {
      SortedNoDup(NpusOn(node, npus, k));
      Sorted(NpusOn(node, npus, k))
    }

    predicate Enough(k: nat)
      requires size > 0
    {
      |On(k)| <= |Get(cpus, k)| / size
    }

    predicate AllEnough()
      requires Valid()
    {
      forall n :: n in node ==> Enough(node[n])
    }

    /** The cluster numbered by the rank of the NPU among those of its node. */
    function Cluster(n: nat): Cpus
      requires Valid() && n in node && Enough(node[n])
    {
      Chunk(Get(cpus, node[n]), size, IndexOf(On(node[n]), n))
    }

    function Assignment(): (r: map<nat, Cpus>)
      requires Valid() && AllEnough()
      ensures forall n :: n in r <==> n in node
      ensures forall n :: n in r ==> r[n] == Cluster(n)
    {
      map n | n in node :: Cluster(n)
    }
  }

  function InputOf(info: DeviceInfo, node: map<nat, nat>, numa: map<nat, Cpus>, uvb: Cpus, size: nat): (h: ClusterInput)
    requires ValidInfo(info) && size > 0 && forall n :: n in node <==> n in Candidates(info)
    ensures h.Valid()
  {
    AscendingNoDup(info.allLogicNpus);
    ClusterInput(Candidates(info), node, map k | k in node.Values :: ClusterCpus(info.allowedCpus, numa, uvb, k), size)
  }

  datatype BuildResult = Built(pools: Pools) | Skipped | Failed(error: Error)

  predicate AllIn(npus: seq<nat>, m: map<nat, Cpus>) {
    forall n :: n in npus ==> n in m
  }

  function VisibleClusters(h: ClusterInput, running: seq<nat>): (r: BuildResult)
    requires h.Valid()
    ensures r.Built? && StrictlyAscending(running) ==> r.pools.Valid()
  {
    AscendingNoDup(running);
    if h.AllEnough() && AllIn(running, h.Assignment()) then Built(Dict(running, Restrict(h.Assignment(), running)))
    else Skipped
  }

  function Plan950(info: DeviceInfo, cpuNode: map<nat, nat>, numa: map<nat, Cpus>, uvb: Cpus,
                   threadsPerCore: Option<nat>): BuildResult
    requires ValidInfo(info)
  {
    if info.npuAffinity == map[] || ClusterSize(threadsPerCore).None? then Skipped
    else
      match NodeMap(info, cpuNode, Candidates(info))
      case Raised(e) => Failed(e)
      case Ok(None) => Skipped
      case Ok(Some(node)) =>
        VisibleClusters(InputOf(info, node, numa, uvb, ClusterSize(threadsPerCore).value), info.runningNpus)
  }

  // ---- the whole build, on a new allocator

  function FirstOutside(npus: seq<nat>, total: nat): (r: Option<nat>)
    ensures r.None? ==> forall n :: n in npus ==> n < total
    ensures r.Some? ==> r.value in npus && r.value >= total
  {
    if npus == [] then None
    else
      assert npus == npus[..|npus| - 1] + [npus[|npus| - 1]];
      var before := FirstOutside(npus[..|npus| - 1], total);
      if before.Some? || npus[|npus| - 1] < total then before else Some(npus[|npus| - 1])
  }

  function GlobalPlan(info: DeviceInfo, device: DeviceType): BuildResult {
    var cpus := SortedSet(info.allowedCpus);
    var total := TotalNpus(info);
    if info.runningNpus == [] || cpus == [] then Built(Empty())
    else if |cpus| / total < MinCpusPerNpu(device) then Failed(InsufficientCpus)
    else
      match FirstOutside(info.runningNpus, total)
      case Some(n) => Failed(InvalidNpu(n))
      case None => Built(Dict(info.runningNpus, map n | n in info.runningNpus :: GlobalSlice(cpus, total, n)))
  }

  function FirstMissing(npus: seq<nat>, m: map<nat, Cpus>): (r: Option<nat>)
    ensures r.None? <==> AllIn(npus, m)
    ensures r.Some? ==> r.value in npus && r.value !in m
  {
    if npus == [] then None
    else if npus[0] !in m then
      assert npus[0] in npus;
      Some(npus[0])
    else
      assert npus == [npus[0]] + npus[1..];
      FirstMissing(npus[1..], m)
  }

  /** The shares of the visible NPUs; a visible NPU without a pool raises. */
  function VisibleShares(npus: seq<nat>, pools: Pools): (r: BuildResult)
    requires pools.Valid()
    ensures r.Built? && StrictlyAscending(npus) ==> r.pools.Valid()
  {
    AscendingNoDup(npus);
    match FirstMissing(npus, TopoFinal(pools))
    case Some(n) => Failed(KeyError(n))
    case None => Built(Dict(npus, Restrict(TopoFinal(pools), npus)))
  }

  function TopoPlan(info: DeviceInfo, device: DeviceType, cpuNode: map<nat, nat>, numa: map<nat, Cpus>): BuildResult
    requires numa != map[]
  {
    if info.npuAffinity == map[] then GlobalPlan(info, device)
    else
      var t := TopoPools(info, cpuNode, Topo(Empty(), numa, None), Candidates(info));
      if t.error.Some? then Failed(t.error.value) else VisibleShares(info.runningNpus, t.pools)
  }

  /** The Ascend 950 plan of a host with its UVB pool reserved. */
  function ClusterPlan(info: DeviceInfo, rows: seq<Row>, threadsPerCore: Option<nat>): BuildResult
    requires ValidInfo(info)
  {
    Plan950(info, CpuNodes(rows), NumaCpus(rows), UvbPool(info, NumaCpus(rows)), threadsPerCore)
  }

  function Plan(info: DeviceInfo, device: DeviceType, rows: seq<Row>, threadsPerCore: Option<nat>): BuildResult
    requires ValidInfo(info)
  {
    if rows == [] then Failed(NoNumaNode)
    else
      var numa := NumaCpus(rows);
      NumaNonEmpty(rows);
      match device
      case A5 => ClusterPlan(info, rows, threadsPerCore)
      case A3 => GlobalPlan(info, device)
      case _ => TopoPlan(info, device, CpuNodes(rows), numa)
  }
}
