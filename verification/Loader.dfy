/** What the loader fixes before attaching: the profile (src/main.rs), the compact
    topology (src/bpf.rs) and the read-only data built from both. */
module Loader {
  import opened Numbers
  import opened VirtualTime
  import opened Hierarchy
  import SliceControl
  import Policy

  const NSEC_PER_USEC: nat := 1_000

  datatype Mode = Desktop | Server

  datatype BpfProfile = BpfProfile(
    mode: Mode, sliceNs: nat, sliceMinNs: nat, sliceLagNs: nat, noWakeSync: bool, stickyTasks: bool)

  function UsecToNsec(us: nat): nat {
    SatMul(us, NSEC_PER_USEC)
  }

  function FromOpts(mode: Mode, sliceUs: nat, sliceUsMin: nat): BpfProfile {
    var desktop := mode.Desktop?;
    var slice := if sliceUs > 0 then UsecToNsec(sliceUs) else if desktop then 1_000_000 else 8_000_000;
    var min := if sliceUsMin > 0 then UsecToNsec(sliceUsMin) else if desktop then 250_000 else 1_000_000;
    BpfProfile(mode, Max(slice, min), min, if desktop then 40_000_000 else 1_500_000, !desktop, desktop)
  }

  // ------------------------------------------------------------------- renumbering

  datatype Cpu = Cpu(id: nat, node: int, llc: int)

  datatype Export = Export(nrLlcs: nat, nrNodes: nat, cpuLlc: seq<nat>, cpuNode: seq<nat>, llcNode: seq<nat>)

  /** A first-seen numbering of the keys met so far. */
  ghost predicate Numbering(m: map<int, nat>) {
    && (forall k :: k in m ==> m[k] < |m|)
    && (forall a, b :: a in m && b in m && m[a] == m[b] ==> a == b)
  }

  function Number(m: map<int, nat>, key: int): nat {
    if key in m then m[key] else |m|
  }

  function Extend(m: map<int, nat>, key: int): map<int, nat> {
    if key in m then m else m[key := |m|]
  }

  lemma NumberingGrows(m: map<int, nat>, key: int)
    requires Numbering(m)
    ensures Numbering(Extend(m, key)) && |Extend(m, key)| == |m| + if key in m then 0 else 1
  {
    assert Extend(m, key).Keys == m.Keys + {key};
  }

  predicate Exported(cpu: Cpu) { cpu.id < MAX_CPUS }

  /** What one index array says about the first `n` CPUs under a numbering. */
  ghost predicate Indexed(idx: seq<nat>, m: map<int, nat>, cpus: seq<Cpu>, n: nat, key: Cpu -> int)
    requires |idx| == MAX_CPUS && n <= |cpus|
  {
    forall k :: 0 <= k < n && Exported(cpus[k]) ==> key(cpus[k]) in m && idx[cpus[k].id] == m[key(cpus[k])]
  }

  /** One of the first `n` CPUs is exported with number `v`. */
  ghost predicate UsedBy(idx: seq<nat>, cpus: seq<Cpu>, n: nat, v: nat)
    requires |idx| == MAX_CPUS && n <= |cpus|
  {
    exists k :: 0 <= k < n && Exported(cpus[k]) && idx[cpus[k].id] == v
  }

  /** Numbers appear in order: a CPU numbered above 0 comes after one numbered just below. */
  ghost predicate FirstSeen(idx: seq<nat>, cpus: seq<Cpu>, n: nat)
    requires |idx| == MAX_CPUS && n <= |cpus|
  {
    forall k :: 0 <= k < n && Exported(cpus[k]) && idx[cpus[k].id] > 0 ==> UsedBy(idx, cpus, k, idx[cpus[k].id] - 1)
  }

  /** Every number below `count` belongs to some exported CPU. */
  ghost predicate Dense(idx: seq<nat>, cpus: seq<Cpu>, n: nat, count: nat)
    requires |idx| == MAX_CPUS && n <= |cpus|
  {
    forall v :: 0 <= v < count ==> UsedBy(idx, cpus, n, v)
  }

  /** Every index is in use or still zero. */
  ghost predicate Below(idx: seq<nat>, n: nat) {
    forall i :: 0 <= i < |idx| ==> idx[i] < Max(n, 1)
  }

  ghost predicate Ascending(cpus: seq<Cpu>) {
    forall i, j :: 0 <= i < j < |cpus| ==> cpus[i].id < cpus[j].id
  }

  /** One index array and its numbering after `n` CPUs. */
  ghost predicate Renumbered(idx: seq<nat>, m: map<int, nat>, cpus: seq<Cpu>, n: nat, key: Cpu -> int)
    requires n <= |cpus|
  {
    && |idx| == MAX_CPUS && Numbering(m) && Below(idx, |m|)
    && Indexed(idx, m, cpus, n, key) && Dense(idx, cpus, n, |m|) && FirstSeen(idx, cpus, n)
  }

  lemma UsedStays(idx: seq<nat>, cpus: seq<Cpu>, n: nat, v: nat, x: nat, k: nat)
    requires |idx| == MAX_CPUS && n < |cpus| && Ascending(cpus) && Exported(cpus[n]) && k <= n
    requires UsedBy(idx, cpus, k, v)
    ensures UsedBy(idx[cpus[n].id := x], cpus, k, v) && UsedBy(idx[cpus[n].id := x], cpus, n + 1, v)
  {
    var j :| 0 <= j < k && Exported(cpus[j]) && idx[cpus[j].id] == v;
    assert idx[cpus[n].id := x][cpus[j].id] == v;
  }

  lemma SeenStays(idx: seq<nat>, cpus: seq<Cpu>, n: nat, x: nat)
    requires |idx| == MAX_CPUS && n < |cpus| && Ascending(cpus) && Exported(cpus[n]) && FirstSeen(idx, cpus, n)
    requires x > 0 ==> UsedBy(idx, cpus, n, x - 1)
    ensures FirstSeen(idx[cpus[n].id := x], cpus, n + 1)
  {
    var idx' := idx[cpus[n].id := x];
    forall k | 0 <= k < n + 1 && Exported(cpus[k]) && idx'[cpus[k].id] > 0
      ensures UsedBy(idx', cpus, k, idx'[cpus[k].id] - 1)
    {
      UsedStays(idx, cpus, n, idx'[cpus[k].id] - 1, x, k);
    }
  }

  lemma DenseStays(idx: seq<nat>, cpus: seq<Cpu>, n: nat, x: nat, count: nat)
    requires |idx| == MAX_CPUS && n < |cpus| && Ascending(cpus) && Exported(cpus[n]) && Dense(idx, cpus, n, count)
    ensures Dense(idx[cpus[n].id := x], cpus, n + 1, if x == count then count + 1 else count)
  {
    var idx', after := idx[cpus[n].id := x], n + 1;
    forall v: nat | v < (if x == count then count + 1 else count)
      ensures UsedBy(idx', cpus, after, v)
    {
      if v < count {
        UsedStays(idx, cpus, n, v, x, n);
      } else {
        assert Exported(cpus[n]) && idx'[cpus[n].id] == v;
      }
    }
  }

  lemma SkipStays(idx: seq<nat>, cpus: seq<Cpu>, n: nat, count: nat)
    requires |idx| == MAX_CPUS && n < |cpus| && !Exported(cpus[n]) && Dense(idx, cpus, n, count)
    ensures Dense(idx, cpus, n + 1, count)
  {
    var after := n + 1;
    forall v: nat | v < count
      ensures UsedBy(idx, cpus, after, v)
    {
      assert UsedBy(idx, cpus, n, v);
    }
  }

  lemma BelowStays(idx: seq<nat>, id: nat, m: map<int, nat>, key: int)
    requires Numbering(m) && Below(idx, |m|) && id < |idx|
    ensures Below(idx[id := Number(m, key)], |Extend(m, key)|)
  {
    NumberingGrows(m, key);
  }

  lemma IndexedSkips(idx: seq<nat>, m: map<int, nat>, cpus: seq<Cpu>, n: nat, key: Cpu -> int)
    requires |idx| == MAX_CPUS && n < |cpus| && !Exported(cpus[n]) && Indexed(idx, m, cpus, n, key)
    ensures Indexed(idx, m, cpus, n + 1, key) && (FirstSeen(idx, cpus, n) ==> FirstSeen(idx, cpus, n + 1))
  {
  }

  lemma IndexedStays(idx: seq<nat>, m: map<int, nat>, cpus: seq<Cpu>, n: nat, key: Cpu -> int, own: int)
    requires |idx| == MAX_CPUS && n < |cpus| && Ascending(cpus) && Exported(cpus[n]) && own == key(cpus[n])
    requires Indexed(idx, m, cpus, n, key)
    ensures Indexed(idx[cpus[n].id := Number(m, own)], Extend(m, own), cpus, n + 1, key)
  {
    var idx', m' := idx[cpus[n].id := Number(m, own)], Extend(m, own);
    forall k | 0 <= k < n + 1 && Exported(cpus[k])
      ensures key(cpus[k]) in m' && idx'[cpus[k].id] == m'[key(cpus[k])]
    {
      if k < n {
        assert cpus[k].id < cpus[n].id;
        assert key(cpus[k]) in m && idx[cpus[k].id] == m[key(cpus[k])];
      }
    }
  }

  lemma RenumberSkip(idx: seq<nat>, m: map<int, nat>, cpus: seq<Cpu>, n: nat, key: Cpu -> int)
    requires n < |cpus| && Renumbered(idx, m, cpus, n, key) && !Exported(cpus[n])
    ensures Renumbered(idx, m, cpus, n + 1, key)
  {
    IndexedSkips(idx, m, cpus, n, key);
    SkipStays(idx, cpus, n, |m|);
  }

  /** The number just below a new or reused one is in use. */
  lemma PredecessorIsUsed(idx: seq<nat>, m: map<int, nat>, cpus: seq<Cpu>, n: nat, own: int)
    requires |idx| == MAX_CPUS && n < |cpus| && Numbering(m) && Dense(idx, cpus, n, |m|) && Number(m, own) > 0
    ensures UsedBy(idx, cpus, n, Number(m, own) - 1)
  {
    assert Number(m, own) - 1 < |m|;
  }

  lemma RenumberStep(idx: seq<nat>, m: map<int, nat>, cpus: seq<Cpu>, n: nat, key: Cpu -> int, own: int)
    requires n < |cpus| && Ascending(cpus) && Renumbered(idx, m, cpus, n, key) && Exported(cpus[n])
    requires own == key(cpus[n])
    ensures Renumbered(idx[cpus[n].id := Number(m, own)], Extend(m, own), cpus, n + 1, key)
  {
    var x := Number(m, own);
    NumberingGrows(m, own);
    BelowStays(idx, cpus[n].id, m, own);
    IndexedStays(idx, m, cpus, n, key, own);
    if x > 0 {
      PredecessorIsUsed(idx, m, cpus, n, own);
    }
    SeenStays(idx, cpus, n, x);
    DenseStays(idx, cpus, n, x, |m|);
    assert own in m ==> x != |m|;
  }

  /** Two exported CPUs share an index exactly when they share the original key. */
  ghost predicate Faithful(idx: seq<nat>, cpus: seq<Cpu>, key: Cpu -> int)
    requires |idx| == MAX_CPUS
  {
    forall i, j :: 0 <= i < |cpus| && 0 <= j < |cpus| && Exported(cpus[i]) && Exported(cpus[j])
                   ==> (idx[cpus[i].id] == idx[cpus[j].id] <==> key(cpus[i]) == key(cpus[j]))
  }

  /** The index bounds the steal loops rely on. */
  ghost predicate InRange(e: Export) {
    && 0 < e.nrLlcs <= MAX_LLCS && 0 < e.nrNodes <= MAX_NODES
    && |e.cpuLlc| == |e.cpuNode| == MAX_CPUS && |e.llcNode| == MAX_LLCS
    && (forall i :: 0 <= i < MAX_CPUS ==> e.cpuLlc[i] < e.nrLlcs && e.cpuNode[i] < e.nrNodes)
    && (forall i :: 0 <= i < MAX_LLCS ==> e.llcNode[i] < e.nrNodes)
  }

  ghost predicate LlcsWithinNodes(cpus: seq<Cpu>) {
    forall i, j :: 0 <= i < |cpus| && 0 <= j < |cpus| && cpus[i].llc == cpus[j].llc ==> cpus[i].node == cpus[j].node
  }

  function LlcKey(): Cpu -> int { (cpu: Cpu) => cpu.llc }

  function NodeKey(): Cpu -> int { (cpu: Cpu) => cpu.node }

  /** The topology library's report: CPUs in ascending order, every LLC and node listed. */
  ghost predicate WellFormed(cpus: seq<Cpu>, llcs: set<int>, nodes: set<int>) {
    && Ascending(cpus)
    && (forall i :: 0 <= i < |cpus| ==> cpus[i].llc in llcs && cpus[i].node in nodes)
  }

  predicate Supported(llcs: set<int>, nodes: set<int>) {
    llcs != {} && |llcs| <= MAX_LLCS && |nodes| <= MAX_NODES
  }

  function DefaultExport(): (e: Export)
    ensures InRange(e)
  {
    Export(1, 1, seq(MAX_CPUS, _ => 0), seq(MAX_CPUS, _ => 0), seq(MAX_LLCS, _ => 0))
  }

  /** The LLC-to-node array agrees with the two CPU arrays on the first `n` CPUs. */
  ghost predicate Consistent(cpuLlc: seq<nat>, cpuNode: seq<nat>, llcNode: seq<nat>, cpus: seq<Cpu>, n: nat)
    requires |cpuLlc| == |cpuNode| == MAX_CPUS && n <= |cpus|
  {
    forall k :: 0 <= k < n && Exported(cpus[k]) ==>
                  cpuLlc[cpus[k].id] < |llcNode| && llcNode[cpuLlc[cpus[k].id]] == cpuNode[cpus[k].id]
  }

  lemma ConsistentStep(cpuLlc: seq<nat>, cpuNode: seq<nat>, llcNode: seq<nat>,
                       llcs: map<int, nat>, nodes: map<int, nat>, cpus: seq<Cpu>, n: nat)
    requires n < |cpus| && Ascending(cpus) && LlcsWithinNodes(cpus) && Exported(cpus[n])
    requires Renumbered(cpuLlc, llcs, cpus, n, LlcKey()) && Renumbered(cpuNode, nodes, cpus, n, NodeKey())
    requires Consistent(cpuLlc, cpuNode, llcNode, cpus, n) && Number(llcs, cpus[n].llc) < |llcNode|
    ensures Consistent(cpuLlc[cpus[n].id := Number(llcs, cpus[n].llc)],
                cpuNode[cpus[n].id := Number(nodes, cpus[n].node)],
                       llcNode[Number(llcs, cpus[n].llc) := Number(nodes, cpus[n].node)], cpus, n + 1)
  {
    forall k | 0 <= k < n && Exported(cpus[k]) && cpuLlc[cpus[k].id] == Number(llcs, cpus[n].llc)
      ensures cpuNode[cpus[k].id] == Number(nodes, cpus[n].node)
    {
      assert LlcKey()(cpus[k]) == cpus[n].llc;
      assert NodeKey()(cpus[k]) == cpus[n].node;
    }
  }

  /** Look a key up, numbering it if it is new. */
  method Renumber(remap: map<int, nat>, next: nat, key: int) returns (idx: nat, remap': map<int, nat>, next': nat)
    requires Numbering(remap) && next == |remap|
    ensures idx == Number(remap, key) && remap' == Extend(remap, key) && next' == |remap'|
    ensures remap'.Keys == remap.Keys + {key} && idx < next' && next <= next'
  {
    NumberingGrows(remap, key);
    remap', next' := remap, next;
    if key in remap {
      idx := remap[key];
    } else {
      idx := next;
      remap' := remap[key := idx];
      next' := next + 1;
    }
  }

  /** The renumbering after `n` CPUs: both index arrays, and the array joining them. */
  ghost predicate Progress(e: Export, llcRemap: map<int, nat>, nodeRemap: map<int, nat>,
                           cpus: seq<Cpu>, llcs: set<int>, nodes: set<int>, n: nat)
    requires n <= |cpus|
  {
    && |e.llcNode| == MAX_LLCS && Below(e.llcNode, |nodeRemap|)
    && llcRemap.Keys <= llcs && nodeRemap.Keys <= nodes
    && Renumbered(e.cpuLlc, llcRemap, cpus, n, LlcKey()) && Renumbered(e.cpuNode, nodeRemap, cpus, n, NodeKey())
    && (LlcsWithinNodes(cpus) ==> Consistent(e.cpuLlc, e.cpuNode, e.llcNode, cpus, n))
  }

  /** The arrays once CPU `cpu` has been given its two numbers. */
  function WithCpu(e: Export, cpu: Cpu, llc: nat, node: nat): Export
    requires |e.cpuLlc| == |e.cpuNode| == MAX_CPUS && Exported(cpu) && llc < |e.llcNode|
  {
    e.(cpuLlc := e.cpuLlc[cpu.id := llc], cpuNode := e.cpuNode[cpu.id := node], llcNode := e.llcNode[llc := node])
  }

  lemma ProgressSkip(e: Export, llcRemap: map<int, nat>, nodeRemap: map<int, nat>,
                     cpus: seq<Cpu>, llcs: set<int>, nodes: set<int>, n: nat)
    requires n < |cpus| && WellFormed(cpus, llcs, nodes) && !Exported(cpus[n])
    requires Progress(e, llcRemap, nodeRemap, cpus, llcs, nodes, n)
    ensures Progress(e, llcRemap, nodeRemap, cpus, llcs, nodes, n + 1)
  {
    RenumberSkip(e.cpuLlc, llcRemap, cpus, n, LlcKey());
    RenumberSkip(e.cpuNode, nodeRemap, cpus, n, NodeKey());
  }

  lemma ProgressStep(e: Export, llcRemap: map<int, nat>, nodeRemap: map<int, nat>,
                     cpus: seq<Cpu>, llcs: set<int>, nodes: set<int>, n: nat)
    requires n < |cpus| && WellFormed(cpus, llcs, nodes) && Supported(llcs, nodes) && Exported(cpus[n])
    requires Progress(e, llcRemap, nodeRemap, cpus, llcs, nodes, n)
    ensures Number(llcRemap, cpus[n].llc) < MAX_LLCS
    ensures Progress(WithCpu(e, cpus[n], Number(llcRemap, cpus[n].llc), Number(nodeRemap, cpus[n].node)),
                     Extend(llcRemap, cpus[n].llc), Extend(nodeRemap, cpus[n].node), cpus, llcs, nodes, n + 1)
  {
    RenumberStep(e.cpuLlc, llcRemap, cpus, n, LlcKey(), cpus[n].llc);
    RenumberStep(e.cpuNode, nodeRemap, cpus, n, NodeKey(), cpus[n].node);
    NumberingFits(llcRemap, cpus[n].llc, llcs);
    NumberingGrows(nodeRemap, cpus[n].node);
    if LlcsWithinNodes(cpus) {
      ConsistentStep(e.cpuLlc, e.cpuNode, e.llcNode, llcRemap, nodeRemap, cpus, n);
    }
  }

  /** What the finished export promises about the CPUs it was built from. */
  ghost predicate Describes(e: Export, cpus: seq<Cpu>) {
    && InRange(e)
    && Faithful(e.cpuLlc, cpus, LlcKey()) && Faithful(e.cpuNode, cpus, NodeKey())
    && FirstSeen(e.cpuLlc, cpus, |cpus|) && FirstSeen(e.cpuNode, cpus, |cpus|)
    && ((exists k :: 0 <= k < |cpus| && Exported(cpus[k])) ==>
          Dense(e.cpuLlc, cpus, |cpus|, e.nrLlcs) && Dense(e.cpuNode, cpus, |cpus|, e.nrNodes))
    && (LlcsWithinNodes(cpus) ==> Consistent(e.cpuLlc, e.cpuNode, e.llcNode, cpus, |cpus|))
  }

  lemma ProgressDone(e: Export, llcRemap: map<int, nat>, nodeRemap: map<int, nat>,
                     cpus: seq<Cpu>, llcs: set<int>, nodes: set<int>)
    requires Supported(llcs, nodes) && Progress(e, llcRemap, nodeRemap, cpus, llcs, nodes, |cpus|)
    ensures Describes(e.(nrLlcs := Max(|llcRemap|, 1), nrNodes := Max(|nodeRemap|, 1)), cpus)
  {
    SubsetIsSmaller(llcRemap.Keys, llcs);
    SubsetIsSmaller(nodeRemap.Keys, nodes);
    FaithfulWhenDone(e.cpuLlc, llcRemap, cpus, LlcKey());
    FaithfulWhenDone(e.cpuNode, nodeRemap, cpus, NodeKey());
  }

  lemma NumberingFits(m: map<int, nat>, key: int, keys: set<int>)
    requires Numbering(m) && m.Keys <= keys && key in keys && |keys| <= MAX_LLCS
    ensures Number(m, key) < MAX_LLCS
  {
    NumberingGrows(m, key);
    assert Extend(m, key).Keys == m.Keys + {key};
    SubsetIsSmaller(m.Keys + {key}, keys);
  }

  lemma FaithfulWhenDone(idx: seq<nat>, m: map<int, nat>, cpus: seq<Cpu>, key: Cpu -> int)
    requires Renumbered(idx, m, cpus, |cpus|, key)
    ensures Faithful(idx, cpus, key)
    ensures (exists k :: 0 <= k < |cpus| && Exported(cpus[k])) ==> |m| >= 1
  {
  }

  /** The compact topology handed to the kernel side: three fixed-size index arrays. */
  class TopologyExport {
    var nrLlcs: nat
    var nrNodes: nat
    const cpuLlcIdxMap: array<nat>
    const cpuNodeIdxMap: array<nat>
    const llcNodeIdxMap: array<nat>

    ghost predicate Valid() reads this, cpuLlcIdxMap, cpuNodeIdxMap, llcNodeIdxMap {
      && cpuLlcIdxMap != cpuNodeIdxMap && cpuLlcIdxMap != llcNodeIdxMap && cpuNodeIdxMap != llcNodeIdxMap
      && cpuLlcIdxMap.Length == cpuNodeIdxMap.Length == MAX_CPUS && llcNodeIdxMap.Length == MAX_LLCS
    }

    ghost function Value(): Export reads this, cpuLlcIdxMap, cpuNodeIdxMap, llcNodeIdxMap {
      Export(nrLlcs, nrNodes, cpuLlcIdxMap[..], cpuNodeIdxMap[..], llcNodeIdxMap[..])
    }

    constructor ()
      ensures Valid() && Value() == DefaultExport()
      ensures fresh(cpuLlcIdxMap) && fresh(cpuNodeIdxMap) && fresh(llcNodeIdxMap)
    {
      nrLlcs, nrNodes := 1, 1;
      cpuLlcIdxMap := new nat[MAX_CPUS](_ => 0);
      cpuNodeIdxMap := new nat[MAX_CPUS](_ => 0);
      llcNodeIdxMap := new nat[MAX_LLCS](_ => 0);
      new;
      assert cpuLlcIdxMap[..] == DefaultExport().cpuLlc;
      assert cpuNodeIdxMap[..] == DefaultExport().cpuNode;
      assert llcNodeIdxMap[..] == DefaultExport().llcNode;
    }

    method Place(cpu: Cpu, llcIdx: nat, nodeIdx: nat)
      requires Valid() && Exported(cpu) && llcIdx < MAX_LLCS
      modifies cpuLlcIdxMap, cpuNodeIdxMap, llcNodeIdxMap
      ensures Valid() && Value() == WithCpu(old(Value()), cpu, llcIdx, nodeIdx)
    {
      cpuNodeIdxMap[cpu.id] := nodeIdx;
      cpuLlcIdxMap[cpu.id] := llcIdx;
      llcNodeIdxMap[llcIdx] := nodeIdx;
    }
  }

  /** Renumber LLCs and nodes densely in the order the CPUs mention them. */
  method Detect(cpus: seq<Cpu>, llcs: set<int>, nodes: set<int>) returns (result: TopologyExport)
    requires WellFormed(cpus, llcs, nodes)
    ensures result.Valid() && InRange(result.Value())
    ensures if Supported(llcs, nodes) then Describes(result.Value(), cpus) else result.Value() == DefaultExport()
  {
    result := new TopologyExport();
    if !Supported(llcs, nodes) {
      return;
    }
    var nodeRemap: map<int, nat> := map[];
    var llcRemap: map<int, nat> := map[];
    var nextNode: nat := 0;
    var nextLlc: nat := 0;
    for n := 0 to |cpus|
      invariant fresh(result.cpuLlcIdxMap) && fresh(result.cpuNodeIdxMap) && fresh(result.llcNodeIdxMap)
      invariant result.Valid() && nextLlc == |llcRemap| && nextNode == |nodeRemap|
      invariant Progress(result.Value(), llcRemap, nodeRemap, cpus, llcs, nodes, n)
    {
      var cpu := cpus[n];
      if cpu.id >= MAX_CPUS {
        ProgressSkip(result.Value(), llcRemap, nodeRemap, cpus, llcs, nodes, n);
        continue;
      }
      ProgressStep(result.Value(), llcRemap, nodeRemap, cpus, llcs, nodes, n);
      var nodeIdx, llcIdx;
      nodeIdx, nodeRemap, nextNode := Renumber(nodeRemap, nextNode, cpu.node);
      llcIdx, llcRemap, nextLlc := Renumber(llcRemap, nextLlc, cpu.llc);
      result.Place(cpu, llcIdx, nodeIdx);
    }
    ProgressDone(result.Value(), llcRemap, nodeRemap, cpus, llcs, nodes);
    result.nrNodes := Max(nextNode, 1);
    result.nrLlcs := Max(nextLlc, 1);
  }

  // --------------------------------------------------------------- read-only data

  /** What the kernel and the machine add: CPUs, cache domains, the loader's PID. */
  datatype Host = Host(nrCpuIds: nat, cacheOf: seq<int>, online: nat, pid: int)

  function Rodata(p: BpfProfile, e: Export, h: Host, fallback: bool): Config {
    Config(h.nrCpuIds, e.nrLlcs, e.nrNodes, e.cpuLlc, e.cpuNode, e.llcNode, h.cacheOf, h.online,
           p.mode.Server?, p.stickyTasks, p.sliceNs, p.sliceMinNs, p.sliceLagNs,
           fallback, if fallback then h.pid else 0)
  }

  /** Whatever the options, the read-only data meets every bound the callbacks rely
      on: index ranges, a slice no shorter than its minimum, a known lag budget. */
  lemma RodataIsValid(mode: Mode, sliceUs: nat, sliceUsMin: nat, e: Export, h: Host, fallback: bool)
    requires InRange(e) && 0 < h.nrCpuIds <= MAX_CPUS && |h.cacheOf| == MAX_CPUS
    ensures ValidConfig(Rodata(FromOpts(mode, sliceUs, sliceUsMin), e, h, fallback))
    ensures 0 < FromOpts(mode, sliceUs, sliceUsMin).sliceMinNs <= FromOpts(mode, sliceUs, sliceUsMin).sliceNs <= U64_MAX
  {
    assert UsecToNsec(sliceUs) <= U64_MAX && UsecToNsec(sliceUsMin) <= U64_MAX;
  }

  // ------------------------------------------------------- options that go wrong

  /** `--slice-us 9223372036854776`: two waiters wrap the product that is compared with
      the backlog threshold, and the lag grows from 1 to 21 budgets. */
  lemma LagScaleCanGrow(mode: Mode)
    ensures var slice := FromOpts(mode, 9_223_372_036_854_776, 0).sliceNs;
            LagScale(slice, 1, 64) == 1 && LagScale(slice, 2, 64) == 21
  {
    var slice := FromOpts(mode, 9_223_372_036_854_776, 0).sliceNs;
    assert slice == 9_223_372_036_854_776_000;
    assert QThresh(slice) == 1 && U64(1 * slice) == slice && U64(2 * slice) == 384;
  }

  /** `--slice-us 100 --slice-us-min 50`: a ceiling of 100 us is accepted and then
      exceeded by every update. */
  lemma CeilingCanBeIgnored(mode: Mode, nrRunnable: nat, nrCpus: nat)
    requires nrCpus > 0
    ensures var base := FromOpts(mode, 100, 50).sliceNs;
            base == 100_000 && SliceControl.Slice(SliceControl.Initial(base), nrRunnable, nrCpus) > base
  {
    var base := FromOpts(mode, 100, 50).sliceNs;
    SliceControl.SliceBounds(SliceControl.Initial(base), nrRunnable, nrCpus);
  }

  /** `--slice-us 4611686018427388`: four base slices wrap to 384 ns, and a kernel worker
      gets the minimum slice instead of the base. */
  lemma WorkerCanGetLess(mode: Mode, percpuLocal: bool, front: nat, a: Policy.Arrival)
    requires a.isKernelWorker
    ensures var o := FromOpts(mode, 4_611_686_018_427_388, 0);
            var p := Policy.Profile(o.sliceNs, o.sliceMinNs, percpuLocal);
            Policy.Fits(p) && Policy.Derived(p, front, a).sliceNs == o.sliceMinNs <= 1_000_000 < o.sliceNs
  {
    var o := FromOpts(mode, 4_611_686_018_427_388, 0);
    assert o.sliceNs == 4_611_686_018_427_388_000 && o.sliceNs * 4 % TWO64 == 384;
  }
}
