/** When the Ascend 950 build succeeds. */
module CpuBuilds {
  import opened Prelude
  import opened Devices
  import opened Sorting
  import opened Dictionaries
  import opened CpuPlan
  import opened CpuClusters

  predicate HasNode(info: DeviceInfo, cpuNode: map<nat, nat>, npu: nat) {
    NpuNode(info, cpuNode, npu).Ok? && NpuNode(info, cpuNode, npu).value.Some?
  }

  /** The candidates that compete for the clusters of node k. */
  function Rivals(info: DeviceInfo, cpuNode: map<nat, nat>, k: nat): seq<nat> {
    Filter(n => NpuNode(info, cpuNode, n) == Ok(Some(k)), Candidates(info))
  }

  /** The allowed CPUs of node k that are not set aside for UVB threads. */
  function Free(info: DeviceInfo, rows: seq<Row>, k: nat): Cpus {
    ClusterCpus(info.allowedCpus, NumaCpus(rows), UvbPool(info, NumaCpus(rows)), k)
  }

  /** The candidate has one affinity node, with a full cluster for each candidate there. */
  predicate HasRoom(info: DeviceInfo, rows: seq<Row>, size: nat, npu: nat)
    requires size > 0
  {
    HasNode(info, CpuNodes(rows), npu) &&
    var k := NpuNode(info, CpuNodes(rows), npu).value.value;
    |Rivals(info, CpuNodes(rows), k)| <= |Free(info, rows, k)| / size
  }

  lemma {:induction false} NodeMapSucceeds(info: DeviceInfo, cpuNode: map<nat, nat>, npus: seq<nat>)
    requires forall n :: n in npus ==> HasNode(info, cpuNode, n)
    ensures NodeMap(info, cpuNode, npus).Ok? && NodeMap(info, cpuNode, npus).value.Some?
  {
    if npus != [] {
      SplitLast(npus);
      var init, last := npus[..|npus| - 1], npus[|npus| - 1];
      NodeMapSucceeds(info, cpuNode, init);
      assert HasNode(info, cpuNode, last);
    }
  }

  lemma RivalsAre(info: DeviceInfo, cpuNode: map<nat, nat>, node: map<nat, nat>, npus: seq<nat>, k: nat)
    requires forall n :: n in npus ==> n in node && NpuNode(info, cpuNode, n) == Ok(Some(node[n]))
    ensures NpusOn(node, npus, k) == Filter(n => NpuNode(info, cpuNode, n) == Ok(Some(k)), npus)
  {
    FilterCongruence(n => n in node && node[n] == k, n => NpuNode(info, cpuNode, n) == Ok(Some(k)), npus);
  }

  lemma EnoughIs(h: ClusterInput, k: nat)
    requires h.size > 0
    ensures h.Enough(k) <==> |NpusOn(h.node, h.npus, k)| <= |Get(h.cpus, k)| / h.size
  {
  }

  lemma EnoughIff(info: DeviceInfo, rows: seq<Row>, node: map<nat, nat>, h: ClusterInput, npu: nat)
    requires h.size > 0 && h.npus == Candidates(info) && h.node == node && npu in node
    requires forall n :: n in h.npus ==> n in node && NpuNode(info, CpuNodes(rows), n) == Ok(Some(node[n]))
    requires npu in h.npus && Get(h.cpus, node[npu]) == Free(info, rows, node[npu])
    ensures h.Enough(node[npu]) <==> HasRoom(info, rows, h.size, npu)
  {
    RivalsAre(info, CpuNodes(rows), node, h.npus, node[npu]);
    EnoughIs(h, node[npu]);
  }

  lemma InputIs(info: DeviceInfo, rows: seq<Row>, node: map<nat, nat>, size: nat, npu: nat)
    requires ValidInfo(info) && size > 0 && npu in node && forall n :: n in node <==> n in Candidates(info)
    ensures var h := InputOf(info, node, NumaCpus(rows), UvbPool(info, NumaCpus(rows)), size);
            && h.Valid() && h.size == size && h.npus == Candidates(info) && h.node == node
            && Get(h.cpus, node[npu]) == Free(info, rows, node[npu])
  {
    assert node[npu] in node.Values;
  }

  lemma EnoughAt(info: DeviceInfo, rows: seq<Row>, node: map<nat, nat>, size: nat, npu: nat, h: ClusterInput)
    requires ValidInfo(info) && size > 0 && NodeMap(info, CpuNodes(rows), Candidates(info)) == Ok(Some(node))
    requires npu in node && forall n :: n in node <==> n in Candidates(info)
    requires h == InputOf(info, node, NumaCpus(rows), UvbPool(info, NumaCpus(rows)), size)
    ensures h.Enough(node[npu]) <==> HasRoom(info, rows, size, npu)
  {
    InputIs(info, rows, node, size, npu);
    EnoughIff(info, rows, node, h, npu);
  }

  lemma AllEnoughIff(info: DeviceInfo, rows: seq<Row>, node: map<nat, nat>, size: nat)
    requires ValidInfo(info) && size > 0 && NodeMap(info, CpuNodes(rows), Candidates(info)) == Ok(Some(node))
    ensures forall n :: n in node <==> n in Candidates(info)
    ensures InputOf(info, node, NumaCpus(rows), UvbPool(info, NumaCpus(rows)), size).AllEnough() <==>
            forall n :: n in Candidates(info) ==> HasRoom(info, rows, size, n)
  {
    var h := InputOf(info, node, NumaCpus(rows), UvbPool(info, NumaCpus(rows)), size);
    assert h.node == node;
    forall n | n in node
      ensures h.Enough(node[n]) <==> HasRoom(info, rows, size, n)
    {
      EnoughAt(info, rows, node, size, n, h);
    }
  }

  lemma VisibleIff(h: ClusterInput, running: seq<nat>)
    requires h.Valid() && forall n :: n in running ==> n in h.node
    ensures VisibleClusters(h, running).Built? <==> h.AllEnough()
  {
  }

  lemma Plan950Is(info: DeviceInfo, cpuNode: map<nat, nat>, numa: map<nat, Cpus>, uvb: Cpus,
                  threadsPerCore: Option<nat>, size: nat)
    requires ValidInfo(info) && info.npuAffinity != map[] && ClusterSize(threadsPerCore) == Some(size)
    ensures var found := NodeMap(info, cpuNode, Candidates(info));
            if found.Ok? && found.value.Some?
            then Plan950(info, cpuNode, numa, uvb, threadsPerCore).Built? <==>
                 VisibleClusters(InputOf(info, found.value.value, numa, uvb, size), info.runningNpus).Built?
            else !Plan950(info, cpuNode, numa, uvb, threadsPerCore).Built?
  {
  }

  /** The node map exists, and every node has enough clusters for its NPUs. */
  ghost predicate Suffices(info: DeviceInfo, rows: seq<Row>, size: nat)
    requires ValidInfo(info) && size > 0
  {
    var found := NodeMap(info, CpuNodes(rows), Candidates(info));
    && found.Ok? && found.value.Some?
    && InputOf(info, found.value.value, NumaCpus(rows), UvbPool(info, NumaCpus(rows)), size).AllEnough()
  }

  lemma PlanIs(info: DeviceInfo, rows: seq<Row>, threadsPerCore: Option<nat>)
    requires ValidInfo(info) && rows != []
    ensures Plan(info, A5, rows, threadsPerCore).Built? <==> ClusterPlan(info, rows, threadsPerCore).Built?
  {
  }

  lemma ClusterPlanIs(info: DeviceInfo, rows: seq<Row>, threadsPerCore: Option<nat>, size: nat)
    requires ValidInfo(info) && info.npuAffinity != map[] && ClusterSize(threadsPerCore) == Some(size)
    ensures var found := NodeMap(info, CpuNodes(rows), Candidates(info));
            ClusterPlan(info, rows, threadsPerCore).Built? <==>
            && found.Ok? && found.value.Some?
            && VisibleClusters(InputOf(info, found.value.value, NumaCpus(rows), UvbPool(info, NumaCpus(rows)), size),
                               info.runningNpus).Built?
  {
    Plan950Is(info, CpuNodes(rows), NumaCpus(rows), UvbPool(info, NumaCpus(rows)), threadsPerCore, size);
  }

  lemma BuiltIffSuffices(info: DeviceInfo, rows: seq<Row>, threadsPerCore: Option<nat>, size: nat)
    requires ValidInfo(info) && info.npuAffinity != map[] && ClusterSize(threadsPerCore) == Some(size)
    requires forall n :: n in info.runningNpus ==> n in info.allLogicNpus
    ensures ClusterPlan(info, rows, threadsPerCore).Built? <==> Suffices(info, rows, size)
  {
    ClusterPlanIs(info, rows, threadsPerCore, size);
    var found := NodeMap(info, CpuNodes(rows), Candidates(info));
    if found.Ok? && found.value.Some? {
      VisibleIff(InputOf(info, found.value.value, NumaCpus(rows), UvbPool(info, NumaCpus(rows)), size),
                 info.runningNpus);
    }
  }

  lemma SufficesIff(info: DeviceInfo, rows: seq<Row>, size: nat)
    requires ValidInfo(info) && size > 0
    ensures Suffices(info, rows, size) <==> forall n :: n in Candidates(info) ==> HasRoom(info, rows, size, n)
  {
    var found := NodeMap(info, CpuNodes(rows), Candidates(info));
    if found.Ok? && found.value.Some? {
      AllEnoughIff(info, rows, found.value.value, size);
    } else if forall n :: n in Candidates(info) ==> HasRoom(info, rows, size, n) {
      NodeMapSucceeds(info, CpuNodes(rows), Candidates(info));
    }
  }

  lemma UnsupportedSkipped(info: DeviceInfo, rows: seq<Row>, threadsPerCore: Option<nat>)
    requires ValidInfo(info) && rows != [] && (info.npuAffinity == map[] || !Threads(threadsPerCore))
    ensures Plan(info, A5, rows, threadsPerCore) == Skipped
  {
  }

  /**
   With visible NPUs that are logical ones, the build succeeds exactly when there is affinity, a core has
   one or two threads, and every candidate lies on one node that has all threads of eight cores for each
   of its candidates. Without affinity, or with any other thread count, it is skipped.
   */
  lemma ClusterPlanBuiltIff(info: DeviceInfo, rows: seq<Row>, threadsPerCore: Option<nat>)
    requires ValidInfo(info) && rows != [] && forall n :: n in info.runningNpus ==> n in info.allLogicNpus
    ensures Plan(info, A5, rows, threadsPerCore).Built? <==>
            && info.npuAffinity != map[] && Threads(threadsPerCore)
            && forall n :: n in Candidates(info) ==> HasRoom(info, rows, 8 * threadsPerCore.value, n)
    ensures info.npuAffinity == map[] || !Threads(threadsPerCore) ==>
              Plan(info, A5, rows, threadsPerCore) == Skipped
  {
    if info.npuAffinity != map[] && Threads(threadsPerCore) {
      PlanIs(info, rows, threadsPerCore);
      BuiltIffSuffices(info, rows, threadsPerCore, 8 * threadsPerCore.value);
      SufficesIff(info, rows, 8 * threadsPerCore.value);
    } else {
      UnsupportedSkipped(info, rows, threadsPerCore);
    }
  }
}
