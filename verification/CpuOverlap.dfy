/** A family of hosts on which the topology build gives CPUs to two NPUs. */
module CpuOverlap {
  import opened Prelude
  import opened Devices
  import opened Sorting
  import opened Dictionaries
  import opened CpuPlan
  import opened CpuGroups
  import opened CpuClusters
  import opened CpuReach

  // ---- three nodes

  function RowsOf(cpus: Cpus, node: nat): (r: seq<Row>)
    ensures |r| == |cpus| && forall i :: 0 <= i < |r| ==> r[i] == Row(cpus[i], node)
  {
    seq(|cpus|, i requires 0 <= i < |cpus| => Row(cpus[i], node))
  }

  function ThreeNodes(a: Cpus, b: Cpus, c: Cpus): seq<Row> {
    RowsOf(a, 0) + RowsOf(b, 1) + RowsOf(c, 2)
  }

  function NodeOf(a: Cpus, b: Cpus, x: nat): nat {
    if x in a then 0 else if x in b then 1 else 2
  }

  /** The CPUs of three nodes: each list without repeats, no CPU on two nodes. */
  ghost predicate Apart(a: Cpus, b: Cpus, c: Cpus) {
    && a != [] && b != [] && c != [] && NoDup(a) && NoDup(b) && NoDup(c)
    && Disjoint(a, b) && Disjoint(a, c) && Disjoint(b, c)
  }

  lemma NoDupJoin(s: Cpus, t: Cpus)
    requires NoDup(s) && NoDup(t) && Disjoint(s, t)
    ensures NoDup(s + t)
  {
    forall i, j | 0 <= i < j < |s + t|
      ensures (s + t)[i] != (s + t)[j]
    {
      if i < |s| <= j {
        assert s[i] in s && t[j - |s|] in t;
      }
    }
  }

  lemma RowAt(a: Cpus, b: Cpus, c: Cpus, i: nat)
    requires Apart(a, b, c) && i < |a + b + c|
    ensures var rows, x := ThreeNodes(a, b, c), (a + b + c)[i];
            i < |rows| && rows[i] == Row(x, NodeOf(a, b, x))
  {
    if i < |a| {
      assert a[i] in a;
    } else if i < |a| + |b| {
      assert b[i - |a|] in b;
    } else {
      assert c[i - |a| - |b|] in c;
    }
  }

  /** A host whose rows name each CPU of a list once, with its node. */
  ghost predicate Lists(rows: seq<Row>, cpus: Cpus, node: nat -> nat) {
    |rows| == |cpus| && forall i :: 0 <= i < |rows| ==> rows[i] == Row(cpus[i], node(cpus[i]))
  }

  lemma {:induction false} NodesOfRows(rows: seq<Row>, cpus: Cpus, node: nat -> nat, x: nat)
    requires Lists(rows, cpus, node)
    ensures x in CpuNodes(rows) <==> x in cpus
    ensures x in cpus ==> CpuNodes(rows)[x] == node(x)
  {
    if rows != [] {
      SplitLast(cpus);
      NodesOfRows(rows[..|rows| - 1], cpus[..|cpus| - 1], node, x);
    }
  }

  lemma {:induction false} NumaOfRows(rows: seq<Row>, cpus: Cpus, node: nat -> nat, k: nat)
    requires Lists(rows, cpus, node)
    ensures k in NumaCpus(rows) <==> exists x :: x in cpus && node(x) == k
  {
    if rows != [] {
      SplitLast(cpus);
      var init, last := cpus[..|cpus| - 1], cpus[|cpus| - 1];
      NumaOfRows(rows[..|rows| - 1], init, node, k);
      if k in NumaCpus(rows) && k != node(last) {
        var x :| x in init && node(x) == k;
        assert x in cpus;
      }
      assert last in cpus;
    }
  }

  lemma ThreeNodesLists(a: Cpus, b: Cpus, c: Cpus)
    requires Apart(a, b, c)
    ensures Lists(ThreeNodes(a, b, c), a + b + c, (x: nat) => NodeOf(a, b, x)) && DistinctCpus(ThreeNodes(a, b, c))
  {
    NoDupJoin(a, b);
    NoDupJoin(a + b, c);
    forall i | 0 <= i < |a + b + c|
      ensures ThreeNodes(a, b, c)[i] == Row((a + b + c)[i], NodeOf(a, b, (a + b + c)[i]))
    {
      RowAt(a, b, c, i);
    }
  }

  /** The tables of the host: three nodes in order, each with its own list. */
  lemma ThreeNodesTables(a: Cpus, b: Cpus, c: Cpus, k: nat, x: nat)
    requires Apart(a, b, c)
    ensures x in CpuNodes(ThreeNodes(a, b, c)) <==> x in a + b + c
    ensures x in a + b + c ==> CpuNodes(ThreeNodes(a, b, c))[x] == NodeOf(a, b, x)
    ensures x in Get(NumaCpus(ThreeNodes(a, b, c)), k) <==> x in a + b + c && NodeOf(a, b, x) == k
  {
    ThreeNodesLists(a, b, c);
    NodesOfRows(ThreeNodes(a, b, c), a + b + c, (x: nat) => NodeOf(a, b, x), x);
    NumaMembers(ThreeNodes(a, b, c), k);
  }

  lemma ThreeNodesInOrder(a: Cpus, b: Cpus, c: Cpus)
    requires Apart(a, b, c)
    ensures NodesInOrder(NumaCpus(ThreeNodes(a, b, c))) && |NumaCpus(ThreeNodes(a, b, c))| == 3
  {
    var numa, all := NumaCpus(ThreeNodes(a, b, c)), a + b + c;
    forall k: nat
      ensures k in numa <==> k < 3
    {
      ThreeNodesLists(a, b, c);
      NumaOfRows(ThreeNodes(a, b, c), all, (x: nat) => NodeOf(a, b, x), k);
      assert a[0] in a && b[0] in b && c[0] in c;
      assert a[0] in all && NodeOf(a, b, a[0]) == 0;
      assert b[0] in all && NodeOf(a, b, b[0]) == 1;
      assert c[0] in all && NodeOf(a, b, c[0]) == 2;
    }
    assert 0 in numa && numa.Keys == {0, 1, 2};
    assert |numa| == |numa.Keys|;
  }

  // ---- two NPUs on neighbouring nodes

  function TwoNpus(a: Cpus, b: Cpus, c: Cpus, n: nat, m: nat): DeviceInfo
    requires n < m
  {
    DeviceInfo(a + b + c, [n, m], map[n := a, m := b], [n, m])
  }

  lemma PairAscending(n: nat, m: nat)
    requires n < m
    ensures StrictlyAscending([n, m])
  {
  }

  lemma TwoNpusValid(a: Cpus, b: Cpus, c: Cpus, n: nat, m: nat)
    requires n < m
    ensures ValidInfo(TwoNpus(a, b, c, n, m))
  {
    PairAscending(n, m);
  }

  /** An NPU whose affinity is the list of one node: its base CPUs are that list, on that node. */
  lemma BaseIs(a: Cpus, b: Cpus, c: Cpus, info: DeviceInfo, npu: nat, own: Cpus, k: nat)
    requires Apart(a, b, c) && info.allowedCpus == a + b + c && Get(info.npuAffinity, npu) == own && own != []
    requires forall x :: x in own ==> x in a + b + c && NodeOf(a, b, x) == k
    ensures HasBase(info, CpuNodes(ThreeNodes(a, b, c)), npu)
    ensures forall x :: x in BaseCpus(info, npu) <==> x in own
    ensures NpuNode(info, CpuNodes(ThreeNodes(a, b, c)), npu) == Ok(Some(k))
  {
    var nodes, base := CpuNodes(ThreeNodes(a, b, c)), BaseCpus(info, npu);
    assert own[0] in own && own[0] in base;
    forall x | x in base
      ensures x in nodes && nodes[x] == k
    {
      ThreeNodesTables(a, b, c, k, x);
    }
    assert base[0] in base;
  }

  lemma ReachIs(a: Cpus, b: Cpus, c: Cpus, info: DeviceInfo, npu: nat, own: Cpus, k: nat, x: nat)
    requires Apart(a, b, c) && info.allowedCpus == a + b + c && Get(info.npuAffinity, npu) == own && own != []
    requires forall y :: y in own ==> y in a + b + c && NodeOf(a, b, y) == k
    requires k < 2
    ensures HasBase(info, CpuNodes(ThreeNodes(a, b, c)), npu) && NumaCpus(ThreeNodes(a, b, c)) != map[]
    ensures x in Reach(info, CpuNodes(ThreeNodes(a, b, c)), NumaCpus(ThreeNodes(a, b, c)), npu) <==>
            x in own || (x in a + b + c && NodeOf(a, b, x) == k + 1)
  {
    ThreeNodesInOrder(a, b, c);
    BaseIs(a, b, c, info, npu, own, k);
    ThreeNodesTables(a, b, c, k + 1, x);
    assert (k + 1) % 3 == k + 1;
    ReachMembers(info, CpuNodes(ThreeNodes(a, b, c)), NumaCpus(ThreeNodes(a, b, c)), npu, k, k + 1, x);
  }

  lemma {:induction false} SubsetLength(s: Cpus, t: Cpus)
    requires NoDup(s) && forall x :: x in s ==> x in t
    ensures |s| <= |t|
    decreases |t|
  {
    if s != [] {
      var x := s[0];
      var i := IndexOf(t, x);
      var rest := t[..i] + t[i + 1..];
      forall y | y in s[1..]
        ensures y in rest
      {
        var j := IndexOf(t, y);
        assert y != x;
        assert rest[if j < i then j else j - 1] == y;
      }
      SubsetLength(s[1..], rest);
    }
  }

  /**
   For any CPUs on three nodes, at least three on each, and any two NPUs with affinity to the first and to
   the second node: the build succeeds, both pools pass the role split, and every CPU of the second node
   is in both.
   */
  lemma TopoGroupsMayOverlap(a: Cpus, b: Cpus, c: Cpus, n: nat, m: nat, x: nat, rows: seq<Row>, info: DeviceInfo)
    requires Apart(a, b, c) && |a| >= 3 && |b| >= 3 && |c| >= 3 && n < m && x in b
    requires rows == ThreeNodes(a, b, c) && info == TwoNpus(a, b, c, n, m)
    ensures ValidInfo(info) && DistinctCpus(rows) && NodesInOrder(NumaCpus(rows))
    ensures var plan := TopoPlan(info, A2, CpuNodes(rows), NumaCpus(rows));
            && plan.Built? && plan.pools.Has(n) && plan.pools.Has(m)
            && |plan.pools.At(n)| >= MinCpusPerNpu(A2) && |plan.pools.At(m)| >= MinCpusPerNpu(A2)
            && x in plan.pools.At(n) && x in plan.pools.At(m)
  {
    TwoNpusValid(a, b, c, n, m);
    ThreeNodesLists(a, b, c);
    ThreeNodesInOrder(a, b, c);
    OverlapPlan(a, b, c, n, m, x, info, CpuNodes(rows), NumaCpus(rows));
  }

  lemma OverlapPlan(a: Cpus, b: Cpus, c: Cpus, n: nat, m: nat, x: nat, info: DeviceInfo, cpuNode: map<nat, nat>,
                    numa: map<nat, Cpus>)
    requires Apart(a, b, c) && |a| >= 3 && |b| >= 3 && |c| >= 3 && n < m && x in b && NodesInOrder(numa)
    requires info == TwoNpus(a, b, c, n, m)
    requires cpuNode == CpuNodes(ThreeNodes(a, b, c)) && numa == NumaCpus(ThreeNodes(a, b, c))
    ensures var plan := TopoPlan(info, A2, cpuNode, numa);
            && plan.Built? && plan.pools.Has(n) && plan.pools.Has(m)
            && |plan.pools.At(n)| >= 6 && |plan.pools.At(m)| >= 6 && x in plan.pools.At(n) && x in plan.pools.At(m)
  {
    TwoReaches(a, b, c, n, m);
    NoDupJoin(a, b);
    NoDupJoin(b, c);
    BothReach(info, cpuNode, numa, a + b, b + c, n, m, x);
  }

  lemma BothReach(info: DeviceInfo, cpuNode: map<nat, nat>, numa: map<nat, Cpus>, p: Cpus, q: Cpus, n: nat, m: nat,
                  x: nat)
    requires NodesInOrder(numa) && n < m && info.runningNpus == info.allLogicNpus == [n, m] && info.npuAffinity != map[]
    requires HasBase(info, cpuNode, n) && HasBase(info, cpuNode, m)
    requires Reach(info, cpuNode, numa, n) != Reach(info, cpuNode, numa, m)
    requires NoDup(p) && NoDup(q) && x in p && x in q
    requires forall y :: y in p ==> y in Reach(info, cpuNode, numa, n)
    requires forall y :: y in q ==> y in Reach(info, cpuNode, numa, m)
    ensures var plan := TopoPlan(info, A2, cpuNode, numa);
            && plan.Built? && plan.pools.Has(n) && plan.pools.Has(m)
            && |plan.pools.At(n)| >= |p| && |plan.pools.At(m)| >= |q|
            && x in plan.pools.At(n) && x in plan.pools.At(m)
  {
    TwoPools(info, cpuNode, numa, n, m);
    SubsetLength(p, Reach(info, cpuNode, numa, n));
    SubsetLength(q, Reach(info, cpuNode, numa, m));
  }

  lemma TwoReaches(a: Cpus, b: Cpus, c: Cpus, n: nat, m: nat)
    requires Apart(a, b, c) && n < m
    ensures var nodes, numa := CpuNodes(ThreeNodes(a, b, c)), NumaCpus(ThreeNodes(a, b, c));
            var info := TwoNpus(a, b, c, n, m);
            && numa != map[] && HasBase(info, nodes, n) && HasBase(info, nodes, m)
            && (forall x :: x in Reach(info, nodes, numa, n) <==> x in a + b)
            && (forall x :: x in Reach(info, nodes, numa, m) <==> x in b + c)
            && Reach(info, nodes, numa, n) != Reach(info, nodes, numa, m)
  {
    var nodes, numa, info := CpuNodes(ThreeNodes(a, b, c)), NumaCpus(ThreeNodes(a, b, c)), TwoNpus(a, b, c, n, m);
    ReachIs(a, b, c, info, n, a, 0, 0);
    ReachIs(a, b, c, info, m, b, 1, 0);
    forall x
      ensures x in Reach(info, nodes, numa, n) <==> x in a + b
      ensures x in Reach(info, nodes, numa, m) <==> x in b + c
    {
      ReachIs(a, b, c, info, n, a, 0, x);
      ReachIs(a, b, c, info, m, b, 1, x);
    }
    assert a[0] in a && a[0] in Reach(info, nodes, numa, n);
  }

  lemma PairCandidates(info: DeviceInfo, cpuNode: map<nat, nat>, n: nat, m: nat)
    requires info.runningNpus == info.allLogicNpus == [n, m]
    requires HasBase(info, cpuNode, n) && HasBase(info, cpuNode, m)
    ensures forall k :: k in Candidates(info) <==> k == n || k == m
    ensures forall k :: k in Candidates(info) ==> HasBase(info, cpuNode, k)
    ensures forall k :: k in info.runningNpus ==> k in info.allLogicNpus
  {
    assert n in info.runningNpus && m in info.runningNpus;
  }

  /** Two candidates with different reach each have their reach as pool. */
  lemma TwoPools(info: DeviceInfo, cpuNode: map<nat, nat>, numa: map<nat, Cpus>, n: nat, m: nat)
    requires NodesInOrder(numa) && n < m && info.runningNpus == info.allLogicNpus == [n, m] && info.npuAffinity != map[]
    requires HasBase(info, cpuNode, n) && HasBase(info, cpuNode, m)
    requires Reach(info, cpuNode, numa, n) != Reach(info, cpuNode, numa, m)
    ensures var plan := TopoPlan(info, A2, cpuNode, numa);
            && plan.Built? && plan.pools.Has(n) && plan.pools.Has(m)
            && plan.pools.At(n) == Reach(info, cpuNode, numa, n) && plan.pools.At(m) == Reach(info, cpuNode, numa, m)
  {
    PairCandidates(info, cpuNode, n, m);
    TopoPlanBuiltIff(info, A2, cpuNode, numa);
    TopoPlanShares(info, A2, cpuNode, numa, n);
    TopoPlanShares(info, A2, cpuNode, numa, m);
    PairShares(info, cpuNode, numa, n, m);
    PairShares(info, cpuNode, numa, m, n);
  }

  lemma PairShares(info: DeviceInfo, cpuNode: map<nat, nat>, numa: map<nat, Cpus>, n: nat, m: nat)
    requires NodesInOrder(numa) && n != m && (forall k :: k in Candidates(info) <==> k == n || k == m)
    requires forall k :: k in Candidates(info) ==> HasBase(info, cpuNode, k)
    requires Reach(info, cpuNode, numa, n) != Reach(info, cpuNode, numa, m)
    ensures var pools := CandidatePools(info, cpuNode, numa).pools;
            pools.Has(n) && TopoShare(pools, n) == Reach(info, cpuNode, numa, n)
  {
    var pools := CandidatePools(info, cpuNode, numa).pools;
    PoolsOf(info, cpuNode, numa, n);
    PoolsOf(info, cpuNode, numa, m);
    forall k | pools.Has(k) && pools.At(k) == pools.At(n)
      ensures k == n
    {
      PoolsOf(info, cpuNode, numa, k);
    }
    GroupAlone(pools, n);
  }

  lemma GroupAlone(pools: Pools, npu: nat)
    requires pools.Valid() && pools.Has(npu) && forall k :: pools.Has(k) && pools.At(k) == pools.At(npu) ==> k == npu
    ensures TopoShare(pools, npu) == pools.At(npu)
  {
    var group := GroupOf(pools.items, pools.keys, pools.At(npu));
    forall y | y in group
      ensures y == npu
    {
      assert pools.Has(y) && pools.At(y) == pools.At(npu);
    }
    OneElement(group, npu);
  }
}
