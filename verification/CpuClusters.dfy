/** The Ascend 950 builder: whole clusters, one owner each, across every worker of the host. */
module CpuClusters {
  import opened Prelude
  import opened Arithmetic
  import opened Devices
  import opened Sorting
  import opened Dictionaries
  import opened CpuPlan
  import opened CpuSlices

  lemma {:induction false} CpuNodesListed(rows: seq<Row>, c: nat)
    ensures c in CpuNodes(rows) <==> exists i :: 0 <= i < |rows| && rows[i].cpu == c
  {
    if rows != [] {
      var init := rows[..|rows| - 1];
      CpuNodesListed(init, c);
      assert forall i :: 0 <= i < |init| ==> init[i] == rows[i];
    }
  }

  /** The list of a node holds exactly the CPUs the node table puts there, each once. */
  lemma {:induction false} NumaMembers(rows: seq<Row>, n: nat)
    requires DistinctCpus(rows)
    ensures forall c :: c in Get(NumaCpus(rows), n) <==> c in CpuNodes(rows) && CpuNodes(rows)[c] == n
    ensures NoDup(Get(NumaCpus(rows), n))
  {
    if rows != [] {
      var init, last := rows[..|rows| - 1], rows[|rows| - 1];
      NumaMembers(init, n);
      CpuNodesListed(init, last.cpu);
      assert last.cpu !in CpuNodes(init);
      assert Get(NumaCpus(rows), n) == Get(NumaCpus(init), n) + if n == last.node then [last.cpu] else [];
    }
  }

  lemma ChunksDisjoint(cpus: Cpus, size: nat, i: nat, j: nat)
    requires NoDup(cpus) && 0 < size && i < j < |cpus| / size
    ensures Disjoint(Chunk(cpus, size, i), Chunk(cpus, size, j))
    ensures Disjoint(Chunk(cpus, size, j), Chunk(cpus, size, i))
  {
    ChunkBounds(|cpus|, size, i);
    ChunkBounds(|cpus|, size, j);
    MulLe(i + 1, j, size);
    SlicesDisjoint(cpus, i * size, (i + 1) * size, j * size, (j + 1) * size);
  }

  /** The lists of the nodes have no CPU twice. */
  ghost predicate CpusOnce(h: ClusterInput) {
    && (forall k :: k in h.cpus ==> NoDup(h.cpus[k]))
    && (forall k, l :: k in h.cpus && l in h.cpus && k != l ==> Disjoint(h.cpus[k], h.cpus[l]))
  }

  lemma RankInRange(h: ClusterInput, n: nat)
    requires h.Valid() && n in h.node && h.Enough(h.node[n])
    ensures var k := h.node[n];
            k in h.cpus && n in h.On(k) && IndexOf(h.On(k), n) < |h.cpus[k]| / h.size
            && h.Cluster(n) == Chunk(h.cpus[k], h.size, IndexOf(h.On(k), n))
  {
  }

  /** Distinct NPUs have disjoint clusters. */
  lemma ClustersDisjoint(h: ClusterInput, n: nat, m: nat)
    requires h.Valid() && CpusOnce(h) && n != m
    requires n in h.node && h.Enough(h.node[n]) && m in h.node && h.Enough(h.node[m])
    ensures Disjoint(h.Cluster(n), h.Cluster(m))
  {
    RankInRange(h, n);
    RankInRange(h, m);
    var k := h.node[n];
    if h.node[m] == k {
      var i, j := IndexOf(h.On(k), n), IndexOf(h.On(k), m);
      if i < j {
        ChunksDisjoint(h.cpus[k], h.size, i, j);
      } else {
        ChunksDisjoint(h.cpus[k], h.size, j, i);
      }
    } else {
      assert Disjoint(h.cpus[k], h.cpus[h.node[m]]);
    }
  }

  lemma InputCpusOnce(rows: seq<Row>, info: DeviceInfo, node: map<nat, nat>, uvb: Cpus, size: nat)
    requires ValidInfo(info) && DistinctCpus(rows) && size > 0 && forall n :: n in node <==> n in Candidates(info)
    ensures CpusOnce(InputOf(info, node, NumaCpus(rows), uvb, size))
  {
    var h := InputOf(info, node, NumaCpus(rows), uvb, size);
    forall k | k in h.cpus
      ensures NoDup(h.cpus[k])
    {
      NumaMembers(rows, k);
    }
    forall k, l | k in h.cpus && l in h.cpus && k != l
      ensures Disjoint(h.cpus[k], h.cpus[l])
    {
      NumaMembers(rows, k);
      NumaMembers(rows, l);
    }
  }

  /** What the owner of a cluster is promised. */
  ghost predicate GoodCluster(info: DeviceInfo, rows: seq<Row>, size: nat, npu: nat, pool: Cpus) {
    && |pool| == size && NoDup(pool)
    && forall c :: c in pool ==>
         && c in info.allowedCpus && c !in UvbPool(info, NumaCpus(rows))
         && c in CpuNodes(rows) && NpuNode(info, CpuNodes(rows), npu) == Ok(Some(CpuNodes(rows)[c]))
  }

  /** One full cluster of allowed CPUs on the NPU's own node, none of them set aside for UVB threads. */
  lemma ClusterSound(rows: seq<Row>, info: DeviceInfo, node: map<nat, nat>, size: nat, npu: nat)
    requires ValidInfo(info) && DistinctCpus(rows) && size > 0
    requires forall n :: n in node <==> n in Candidates(info)
    requires npu in node && NpuNode(info, CpuNodes(rows), npu) == Ok(Some(node[npu]))
    requires InputOf(info, node, NumaCpus(rows), UvbPool(info, NumaCpus(rows)), size).Enough(node[npu])
    ensures var h := InputOf(info, node, NumaCpus(rows), UvbPool(info, NumaCpus(rows)), size);
            GoodCluster(info, rows, size, npu, h.Cluster(npu))
  {
    var h := InputOf(info, node, NumaCpus(rows), UvbPool(info, NumaCpus(rows)), size);
    RankInRange(h, npu);
    NumaMembers(rows, node[npu]);
  }

  /** Node 0 keeps at most CPU 0 outside the UVB pool, so it never has a cluster to give. */
  lemma NodeZeroHasNoCluster(rows: seq<Row>, info: DeviceInfo, size: nat)
    requires DistinctCpus(rows) && size > 1
    ensures Clusters(ClusterCpus(info.allowedCpus, NumaCpus(rows), UvbPool(info, NumaCpus(rows)), 0), size) == []
  {
    NumaMembers(rows, 0);
    var cpus := ClusterCpus(info.allowedCpus, NumaCpus(rows), UvbPool(info, NumaCpus(rows)), 0);
    assert forall c :: c in cpus ==> c == 0;
    AtMostOne(cpus, 0);
    NoChunk(cpus, size);
  }

  lemma NoChunk(cpus: Cpus, size: nat)
    requires |cpus| < size
    ensures Clusters(cpus, size) == []
  {
  }

  lemma AtMostOne(s: seq<nat>, x: nat)
    requires NoDup(s) && forall y :: y in s ==> y == x
    ensures |s| <= 1
  {
    if s != [] {
      assert s[0] in s;
      OneElement(s, x);
    }
  }

  /** The thread counts per physical core that have clusters. */
  predicate Threads(threadsPerCore: Option<nat>) {
    threadsPerCore.Some? && 1 <= threadsPerCore.value <= 2
  }

  /** What a successful build computed on the way. */
  ghost predicate BuiltFrom(info: DeviceInfo, rows: seq<Row>, node: map<nat, nat>, size: nat) {
    && ValidInfo(info) && size >= 8 && info.npuAffinity != map[]
    && NodeMap(info, CpuNodes(rows), Candidates(info)) == Ok(Some(node))
    && (forall n :: n in node <==> n in Candidates(info))
    && InputOf(info, node, NumaCpus(rows), UvbPool(info, NumaCpus(rows)), size).AllEnough()
  }

  lemma PlanBuiltFrom(info: DeviceInfo, rows: seq<Row>, threadsPerCore: Option<nat>)
    returns (node: map<nat, nat>, size: nat)
    requires ValidInfo(info) && Plan(info, A5, rows, threadsPerCore).Built?
    ensures BuiltFrom(info, rows, node, size) && Threads(threadsPerCore) && size == 8 * threadsPerCore.value
    ensures var h := InputOf(info, node, NumaCpus(rows), UvbPool(info, NumaCpus(rows)), size);
            var p := Plan(info, A5, rows, threadsPerCore).pools;
            forall n :: n in info.runningNpus ==> n in node && p.Has(n) && p.At(n) == h.Cluster(n)
  {
    node := NodeMap(info, CpuNodes(rows), Candidates(info)).value.value;
    size := ClusterSize(threadsPerCore).value;
    var h := InputOf(info, node, NumaCpus(rows), UvbPool(info, NumaCpus(rows)), size);
    assert Plan(info, A5, rows, threadsPerCore) == VisibleClusters(h, info.runningNpus);
    VisibleClustersAre(h, info.runningNpus);
  }

  lemma VisibleClustersAre(h: ClusterInput, running: seq<nat>)
    requires h.Valid() && VisibleClusters(h, running).Built?
    ensures h.AllEnough()
    ensures forall n :: n in running ==>
              && n in h.node && VisibleClusters(h, running).pools.Has(n)
              && VisibleClusters(h, running).pools.At(n) == h.Cluster(n)
  {
  }

  /** A successful plan has no candidate on node 0. */
  lemma NoCandidateOnNodeZero(rows: seq<Row>, info: DeviceInfo, threadsPerCore: Option<nat>, npu: nat)
    requires ValidInfo(info) && DistinctCpus(rows) && npu in Candidates(info)
    requires Plan(info, A5, rows, threadsPerCore).Built?
    ensures exists k: nat :: NpuNode(info, CpuNodes(rows), npu) == Ok(Some(k)) && k != 0
  {
    var node, size := PlanBuiltFrom(info, rows, threadsPerCore);
    NodeZeroHasNoCluster(rows, info, size);
    var h := InputOf(info, node, NumaCpus(rows), UvbPool(info, NumaCpus(rows)), size);
    RankInRange(h, npu);
    assert NpuNode(info, CpuNodes(rows), npu) == Ok(Some(node[npu]));
  }

  lemma CandidatesOverlap(info: DeviceInfo, cpuNode: map<nat, nat>, node: map<nat, nat>)
    requires NodeMap(info, cpuNode, Candidates(info)) == Ok(Some(node))
    ensures forall n :: n in Candidates(info) ==> Overlaps(info, n)
  {
    forall n | n in Candidates(info)
      ensures Overlaps(info, n)
    {
      assert n in node && NpuNode(info, cpuNode, n) == Ok(Some(node[n]));
      OverlapsIff(info, n);
    }
  }

  lemma {:induction false} NodeMapCongruence(a: DeviceInfo, b: DeviceInfo, cpuNode: map<nat, nat>, npus: seq<nat>)
    requires SameHost(a, b)
    ensures NodeMap(a, cpuNode, npus) == NodeMap(b, cpuNode, npus)
  {
    if npus != [] {
      NodeMapCongruence(a, b, cpuNode, npus[..|npus| - 1]);
    }
  }

  /** Two workers that get past node detection have the same candidates, nodes and cluster input. */
  lemma BuildsAgree(a: DeviceInfo, b: DeviceInfo, rows: seq<Row>, node: map<nat, nat>, node': map<nat, nat>, size: nat)
    requires SameHost(a, b) && size > 0
    requires NodeMap(a, CpuNodes(rows), Candidates(a)) == Ok(Some(node))
    requires NodeMap(b, CpuNodes(rows), Candidates(b)) == Ok(Some(node'))
    ensures node == node' && Candidates(a) == Candidates(b) && forall n :: n in node <==> n in Candidates(a)
    ensures InputOf(a, node, NumaCpus(rows), UvbPool(a, NumaCpus(rows)), size) ==
            InputOf(b, node, NumaCpus(rows), UvbPool(b, NumaCpus(rows)), size)
  {
    CandidatesOverlap(a, CpuNodes(rows), node);
    CandidatesOverlap(b, CpuNodes(rows), node');
    CandidatesAgree(a, b);
    NodeMapCongruence(a, b, CpuNodes(rows), Candidates(a));
    UvbAgrees(a, b, NumaCpus(rows));
  }

  lemma UvbAgrees(a: DeviceInfo, b: DeviceInfo, numa: map<nat, Cpus>)
    requires SameHost(a, b)
    ensures UvbPool(a, numa) == UvbPool(b, numa)
  {
    FilterCongruence(c => c in a.allowedCpus && c != 0, c => c in b.allowedCpus && c != 0, Get(numa, 0));
  }

  /**
   Two workers that both build an Ascend 950 plan hold parts of one plan: each visible NPU has its own
   full cluster of allowed CPUs on its own node, all threads of eight cores, clear of the UVB pool, the
   same in every process that sees it, and no CPU belongs to two NPUs, whichever processes bind them.
   */
  lemma WorkersShareOneClusterPlan(a: DeviceInfo, b: DeviceInfo, rows: seq<Row>, threadsPerCore: Option<nat>, n: nat,
                                   m: nat)
    requires SameHost(a, b) && DistinctCpus(rows)
    requires Plan(a, A5, rows, threadsPerCore).Built? && Plan(b, A5, rows, threadsPerCore).Built?
    requires n in a.runningNpus && m in b.runningNpus
    ensures var p, q := Plan(a, A5, rows, threadsPerCore).pools, Plan(b, A5, rows, threadsPerCore).pools;
            && p.Has(n) && q.Has(m) && Threads(threadsPerCore)
            && GoodCluster(a, rows, 8 * threadsPerCore.value, n, p.At(n))
            && if n == m then p.At(n) == q.At(m) else Disjoint(p.At(n), q.At(m))
  {
    var node, size := PlanBuiltFrom(a, rows, threadsPerCore);
    var node', _ := PlanBuiltFrom(b, rows, threadsPerCore);
    BuildsAgree(a, b, rows, node, node', size);
    ClusterSound(rows, a, node, size, n);
    if n != m {
      InputCpusOnce(rows, a, node, UvbPool(a, NumaCpus(rows)), size);
      ClustersDisjoint(InputOf(a, node, NumaCpus(rows), UvbPool(a, NumaCpus(rows)), size), n, m);
    }
  }
}
