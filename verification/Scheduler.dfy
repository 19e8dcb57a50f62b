/** Node selection, and why what it admits the allocator then grants. */
module Scheduler {
  import opened Tables

  /** 0 in a field means the resource is not constrained. */
  datatype ResourceRequest = ResourceRequest(cpu: real, mem: nat, gpu: nat)

  datatype Stats = Stats(online: nat, gpuOK: nat, cpuOK: nat, memOK: nat)

  /** freeGPUsOn: unsigned subtraction, clipped at 0. */
  function FreeOn(count: nat, used: nat): nat {
    if used >= count then 0 else count - used
  }

  predicate GpuFits(n: Node, used: nat, req: ResourceRequest) {
    req.gpu > 0 ==> FreeOn(n.gpuCount, used) >= req.gpu
  }

  predicate CpuFits(n: Node, req: ResourceRequest) {
    req.cpu > 0.0 && n.cpuCores > 0 ==> n.cpuCores as real >= req.cpu
  }

  predicate MemFits(n: Node, req: ResourceRequest) {
    req.mem > 0 && n.memTotal > 0 ==> n.memTotal >= req.mem
  }

  predicate Eligible(n: Node, used: nat, req: ResourceRequest) {
    n.online && GpuFits(n, used, req) && CpuFits(n, req) && MemFits(n, req)
  }

  function Ratio(part: nat, whole: nat): real {
    if whole > 0 then part as real / whole as real else 0.0
  }

  /** Lower is better. */
  function Score(n: Node): real {
    0.4 * (n.cpuPercent / 100.0) + 0.3 * Ratio(n.memUsed, n.memTotal)
    + 0.2 * (n.gpuUsage / 100.0) + 0.1 * Ratio(n.gpuMemUsed, n.gpuMemTotal)
  }

  /** How many of the four successive filters a node passes before the first rejection. */
  function Passed(n: Node, used: nat, req: ResourceRequest): nat {
    if !n.online then 0
    else if !GpuFits(n, used, req) then 1
    else if !CpuFits(n, req) then 2
    else if !MemFits(n, req) then 3
    else 4
  }

  /** A listed node survives the first `stage` filters. */
  predicate Survives(db: Db, req: ResourceRequest, n: NodeId, stage: nat)
    requires n in db.nodes
  {
    Passed(db.nodes[n], Usage(db, n), req) >= stage
  }

  /** How many listed nodes survive the first `stage` filters. */
  function Survivors(db: Db, req: ResourceRequest, list: seq<NodeId>, stage: nat): nat
    requires forall n :: n in list ==> n in db.nodes
  {
    if list == [] then 0
    else
      var last := |list| - 1;
      Survivors(db, req, list[..last], stage) + if Survives(db, req, list[last], stage) then 1 else 0
  }

  /** `i` is the earliest listed eligible node of least score. */
  predicate Best(db: Db, req: ResourceRequest, list: seq<NodeId>, i: nat)
    requires forall n :: n in list ==> n in db.nodes
  {
    && i < |list|
    && Survives(db, req, list[i], 4)
    && forall j :: 0 <= j < |list| && Survives(db, req, list[j], 4) ==>
         && Score(db.nodes[list[i]]) <= Score(db.nodes[list[j]])
         && (j < i ==> Score(db.nodes[list[i]]) < Score(db.nodes[list[j]]))
  }

  /** The counters after a node that passes `passed` filters. */
  function Bump(s: Stats, passed: nat): Stats {
    Stats(s.online + (if passed >= 1 then 1 else 0), s.gpuOK + (if passed >= 2 then 1 else 0),
          s.cpuOK + (if passed >= 3 then 1 else 0), s.memOK + (if passed >= 4 then 1 else 0))
  }

  /** The filters of one iteration of the selection loop. */
  method Consider(node: Node, used: nat, req: ResourceRequest, before: Stats) returns (ok: bool, stats: Stats)
    ensures ok <==> Eligible(node, used, req)
    ensures ok <==> Serves(node, used, req)
    ensures stats == Bump(before, Passed(node, used, req))
  {
    ok, stats := false, before;
    if !node.online {
      return;
    }
    stats := stats.(online := stats.online + 1);
    if req.gpu > 0 && FreeOn(node.gpuCount, used) < req.gpu {
      return;
    }
    stats := stats.(gpuOK := stats.gpuOK + 1);
    if req.cpu > 0.0 && node.cpuCores > 0 && node.cpuCores as real < req.cpu {
      return;
    }
    stats := stats.(cpuOK := stats.cpuOK + 1);
    if req.mem > 0 && node.memTotal > 0 && node.memTotal < req.mem {
      return;
    }
    stats := stats.(memOK := stats.memOK + 1);
    ok := true;
  }

  ghost function Counters(db: Db, req: ResourceRequest, list: seq<NodeId>): Stats
    requires forall n :: n in list ==> n in db.nodes
  {
    Stats(Survivors(db, req, list, 1), Survivors(db, req, list, 2),
          Survivors(db, req, list, 3), Survivors(db, req, list, 4))
  }

  /** The selection loop. `best` starts empty where the source starts from +Inf. */
  method Select(db: Db, list: seq<NodeId>, req: ResourceRequest) returns (best: Option<nat>, stats: Stats)
    requires forall n :: n in list ==> n in db.nodes
    ensures best.Some? ==> Best(db, req, list, best.value)
    ensures best.None? <==> forall i :: 0 <= i < |list| ==> !Survives(db, req, list[i], 4)
    ensures best.None? <==> forall i :: 0 <= i < |list| ==> !Serves(db.nodes[list[i]], Usage(db, list[i]), req)
    ensures best.Some? ==> Serves(db.nodes[list[best.value]], Usage(db, list[best.value]), req)
    ensures stats == Counters(db, req, list)
  {
    best, stats := None, Stats(0, 0, 0, 0);
    var i := 0;
    while i < |list|
      invariant 0 <= i <= |list|
      invariant best.Some? ==> Best(db, req, list[..i], best.value)
      invariant best.None? <==> forall j :: 0 <= j < i ==> !Survives(db, req, list[j], 4)
      invariant stats == Counters(db, req, list[..i])
    {
      var node := db.nodes[list[i]];
      Extend(db, req, list, i);
      var ok;
      ok, stats := Consider(node, Usage(db, list[i]), req, stats);
      if ok && (best.None? || Score(node) < Score(db.nodes[list[best.value]])) {
        best := Some(i);
      }
      i := i + 1;
    }
    assert list[..i] == list;
    forall n | n in list ensures Survives(db, req, n, 4) <==> Serves(db.nodes[n], Usage(db, n), req) {
      SurvivesIff(db, req, n);
    }
  }

  lemma Extend(db: Db, req: ResourceRequest, list: seq<NodeId>, i: nat)
    requires forall n :: n in list ==> n in db.nodes
    requires i < |list|
    ensures Counters(db, req, list[..i + 1])
      == Bump(Counters(db, req, list[..i]), Passed(db.nodes[list[i]], Usage(db, list[i]), req))
  {
    assert list[..i + 1][..i] == list[..i];
  }

  /** The four counters never increase along the chain, and the last is zero exactly on rejection. */
  lemma {:induction false} StatsDescend(db: Db, req: ResourceRequest, list: seq<NodeId>)
    requires forall n :: n in list ==> n in db.nodes
    ensures |list| >= Survivors(db, req, list, 1) >= Survivors(db, req, list, 2)
            >= Survivors(db, req, list, 3) >= Survivors(db, req, list, 4)
    ensures Survivors(db, req, list, 4) == 0 <==> forall i :: 0 <= i < |list| ==> !Survives(db, req, list[i], 4)
  {
    if list != [] {
      StatsDescend(db, req, list[..|list| - 1]);
    }
  }

  // ---------- What the answer of a selection means ----------

  /** Online, and with enough of everything that is asked for and reported. */
  ghost predicate Serves(n: Node, used: nat, req: ResourceRequest) {
    && n.online
    && (req.gpu == 0 || used + req.gpu <= n.gpuCount)
    && (req.cpu <= 0.0 || n.cpuCores == 0 || req.cpu <= n.cpuCores as real)
    && (req.mem == 0 || n.memTotal == 0 || req.mem <= n.memTotal)
  }

  /** Which nodes each counter counts. */
  lemma SurvivesIff(db: Db, req: ResourceRequest, n: NodeId)
    requires n in db.nodes
    ensures var node, used := db.nodes[n], Usage(db, n);
      && (Survives(db, req, n, 1) <==> node.online)
      && (Survives(db, req, n, 2) <==> node.online && (req.gpu == 0 || used + req.gpu <= node.gpuCount))
      && (Survives(db, req, n, 3) <==>
            && node.online && (req.gpu == 0 || used + req.gpu <= node.gpuCount)
            && (req.cpu <= 0.0 || node.cpuCores == 0 || req.cpu <= node.cpuCores as real))
      && (Survives(db, req, n, 4) <==> Serves(node, used, req))
  {
  }

  /** A selection has one answer. */
  lemma BestIsUnique(db: Db, req: ResourceRequest, list: seq<NodeId>, i: nat, j: nat)
    requires forall n :: n in list ==> n in db.nodes
    requires Best(db, req, list, i) && Best(db, req, list, j)
    ensures i == j
  {
  }

  /** `part` is `share` of a reported total; of a total that is not reported it is nothing. */
  ghost predicate IsShare(part: nat, whole: nat, share: real) {
    if whole == 0 then share == 0.0 else share * whole as real == part as real
  }

  lemma RatioIsShare(part: nat, whole: nat, share: real)
    requires IsShare(part, whole, share)
    ensures Ratio(part, whole) == share
  {
    if whole > 0 {
      assert share == (share * whole as real) / whole as real;
    }
  }

  /** How busy a node is: CPU and GPU usage in percent, memory and GPU memory as shares. */
  datatype Busy = Busy(cpu: real, mem: real, gpu: real, gpuMem: real)

  ghost predicate IsBusy(n: Node, b: Busy) {
    && n.cpuPercent == b.cpu && n.gpuUsage == b.gpu
    && IsShare(n.memUsed, n.memTotal, b.mem) && IsShare(n.gpuMemUsed, n.gpuMemTotal, b.gpuMem)
  }

  /**
   * Between two nodes that serve the request, the later listed one is chosen exactly when what it has
   * less of outweighs what it has more of: a point of CPU weighs four, of memory three, of GPU usage
   * two and of GPU memory one.
   */
  lemma Tradeoff(db: Db, req: ResourceRequest, a: NodeId, b: NodeId, x: Busy, y: Busy)
    requires a in db.nodes && b in db.nodes
    requires Serves(db.nodes[a], Usage(db, a), req) && Serves(db.nodes[b], Usage(db, b), req)
    requires IsBusy(db.nodes[a], x) && IsBusy(db.nodes[b], y)
    ensures var more := 4.0 * (y.cpu - x.cpu) + 300.0 * (y.mem - x.mem) + 2.0 * (y.gpu - x.gpu) + 100.0 * (y.gpuMem - x.gpuMem);
      && (Best(db, req, [a, b], 1) <==> more < 0.0)
      && (Best(db, req, [a, b], 0) <==> more >= 0.0)
  {
    SurvivesIff(db, req, a);
    SurvivesIff(db, req, b);
    RatioIsShare(db.nodes[a].memUsed, db.nodes[a].memTotal, x.mem);
    RatioIsShare(db.nodes[b].memUsed, db.nodes[b].memTotal, y.mem);
    RatioIsShare(db.nodes[a].gpuMemUsed, db.nodes[a].gpuMemTotal, x.gpuMem);
    RatioIsShare(db.nodes[b].gpuMemUsed, db.nodes[b].gpuMemTotal, y.gpuMem);
    ScoreGap(db.nodes[a], db.nodes[b], x, y);
    assert [a, b][0] == a && [a, b][1] == b;
  }

  lemma ScoreGap(a: Node, b: Node, x: Busy, y: Busy)
    requires a.cpuPercent == x.cpu && a.gpuUsage == x.gpu && Ratio(a.memUsed, a.memTotal) == x.mem
    requires Ratio(a.gpuMemUsed, a.gpuMemTotal) == x.gpuMem
    requires b.cpuPercent == y.cpu && b.gpuUsage == y.gpu && Ratio(b.memUsed, b.memTotal) == y.mem
    requires Ratio(b.gpuMemUsed, b.gpuMemTotal) == y.gpuMem
    ensures 1000.0 * (Score(b) - Score(a))
      == 4.0 * (y.cpu - x.cpu) + 300.0 * (y.mem - x.mem) + 2.0 * (y.gpu - x.gpu) + 100.0 * (y.gpuMem - x.gpuMem)
  {
  }

  /** Points of CPU balanced by 4/3 as many of memory, twice as many of GPU usage, or four times as many of GPU memory. */
  lemma Exchange(db: Db, req: ResourceRequest, a: NodeId, b: NodeId, x: Busy, p: real, y: Busy)
    requires a in db.nodes && b in db.nodes
    requires Serves(db.nodes[a], Usage(db, a), req) && Serves(db.nodes[b], Usage(db, b), req)
    requires IsBusy(db.nodes[a], x) && IsBusy(db.nodes[b], y) && y.cpu == x.cpu - p
    ensures y == x.(cpu := y.cpu, mem := y.mem) ==>
      (Best(db, req, [a, b], 1) <==> 100.0 * (y.mem - x.mem) < 4.0 * p / 3.0)
    ensures y == x.(cpu := y.cpu, gpu := y.gpu) ==>
      (Best(db, req, [a, b], 1) <==> y.gpu - x.gpu < 2.0 * p)
    ensures y == x.(cpu := y.cpu, gpuMem := y.gpuMem) ==>
      (Best(db, req, [a, b], 1) <==> 100.0 * (y.gpuMem - x.gpuMem) < 4.0 * p)
  {
    hide Best, Serves;
    Tradeoff(db, req, a, b, x, y);
  }

  /** The chosen node serves the request, and no listed node that does is less busy in something and busier in nothing. */
  lemma BestIsLeastBusy(db: Db, req: ResourceRequest, list: seq<NodeId>, i: nat, j: nat, x: Busy, y: Busy)
    requires forall n :: n in list ==> n in db.nodes
    requires Best(db, req, list, i) && j < |list|
    requires Serves(db.nodes[list[j]], Usage(db, list[j]), req)
    requires IsBusy(db.nodes[list[i]], x) && IsBusy(db.nodes[list[j]], y)
    ensures Serves(db.nodes[list[i]], Usage(db, list[i]), req)
    ensures y.cpu <= x.cpu && y.mem <= x.mem && y.gpu <= x.gpu && y.gpuMem <= x.gpuMem ==> y == x
    ensures y == x ==> i <= j
  {
    SurvivesIff(db, req, list[i]);
    SurvivesIff(db, req, list[j]);
    RatioIsShare(db.nodes[list[i]].memUsed, db.nodes[list[i]].memTotal, x.mem);
    RatioIsShare(db.nodes[list[j]].memUsed, db.nodes[list[j]].memTotal, y.mem);
    RatioIsShare(db.nodes[list[i]].gpuMemUsed, db.nodes[list[i]].gpuMemTotal, x.gpuMem);
    RatioIsShare(db.nodes[list[j]].gpuMemUsed, db.nodes[list[j]].gpuMemTotal, y.gpuMem);
    ScoreGap(db.nodes[list[i]], db.nodes[list[j]], x, y);
  }

  // ---------- Admission and allocation ----------

  /** Reserved indices the node no longer reports. */
  function Beyond(db: Db, n: NodeId, count: nat): set<nat> {
    set i | i in UsedOn(db, n) && i >= count
  }

  /** The admission count is short of the allocator's by exactly the reservations at or above the total. */
  lemma FreeAccounting(db: Db, n: NodeId, count: nat)
    ensures |FreeSet(UsedOn(db, n), 0, count)| == count - Usage(db, n) + |Beyond(db, n, count)|
  {
    var used := UsedOn(db, n);
    FreeSetSize(used, count);
    UsageCountsIndices(db, n);
    var below := set x | x in used && x < count;
    assert used == below + Beyond(db, n, count);
  }

  /** Whatever is reserved, a node admitted for k GPUs has k for the allocator to pick from the same table. */
  lemma AdmissionImpliesAllocation(db: Db, n: NodeId, c: Cid, req: ResourceRequest)
    requires n in db.nodes && c in db.rows
    requires Eligible(db.nodes[n], Usage(db, n), req)
    ensures AllocLowest(db, n, c, req.gpu, db.nodes[n].gpuCount).Ok?
  {
    FreeAccounting(db, n, db.nodes[n].gpuCount);
    FirstFreeCount(UsedOn(db, n), 0, db.nodes[n].gpuCount, req.gpu);
  }

  /** The allocator succeeds exactly when k indices below the total are free, and then k are added. */
  lemma AllocationIsExact(db: Db, n: NodeId, c: Cid, k: nat, total: nat)
    requires n in db.nodes && c in db.rows && k > 0
    ensures AllocLowest(db, n, c, k, total).Ok? <==> |FreeSet(UsedOn(db, n), 0, total)| >= k
    ensures AllocLowest(db, n, c, k, total).Err? ==> AllocLowest(db, n, c, k, total) == Err(Insufficient)
    ensures AllocLowest(db, n, c, k, total).Ok? ==>
      var (db', idx) := AllocLowest(db, n, c, k, total).value;
      && |idx| == k && CanReserve(db, n, c, idx)
      && Usage(db', n) == Usage(db, n) + k
  {
    var used := UsedOn(db, n);
    FirstFreeCount(used, 0, total, k);
    FirstFreeIsDistinct(used, total, k);
    if |FreeSet(used, 0, total)| >= k {
      var idx := FirstFree(used, 0, total, k);
      assert forall i :: i in idx ==> Slot(n, i) !in db.gpus;
      ReserveGrows(db, n, c, idx);
    }
  }

  lemma ReserveGrows(db: Db, n: NodeId, c: Cid, idx: seq<nat>)
    requires CanReserve(db, n, c, idx)
    ensures Usage(Reserve(db, n, c, idx), n) == Usage(db, n) + |idx|
  {
    var more := SlotsFor(n, idx);
    SlotsForSize(n, idx);
    assert SlotsOn(Reserve(db, n, c, idx), n) == SlotsOn(db, n) + more;
  }

  lemma {:induction false} SlotsForSize(n: NodeId, idx: seq<nat>)
    requires Distinct(idx)
    ensures |SlotsFor(n, idx)| == |idx|
  {
    if idx == [] {
      assert SlotsFor(n, idx) == {};
    } else {
      var last := |idx| - 1;
      SlotsForSize(n, idx[..last]);
      assert SlotsFor(n, idx) == SlotsFor(n, idx[..last]) + {Slot(n, idx[last])};
    }
  }

  /**
   * The admission count is the allocator's count exactly when no reserved index lies at or above
   * the reported total, or nothing is free anyway.
   */
  lemma AdmissionExactCondition(db: Db, n: NodeId, count: nat)
    ensures FreeOn(count, Usage(db, n)) == |FreeSet(UsedOn(db, n), 0, count)|
      <==> Beyond(db, n, count) == {} || FreeSet(UsedOn(db, n), 0, count) == {}
  {
    FreeAccounting(db, n, count);
    if Beyond(db, n, count) != {} {
      assert |Beyond(db, n, count)| > 0;
    }
    if FreeSet(UsedOn(db, n), 0, count) != {} {
      assert |FreeSet(UsedOn(db, n), 0, count)| > 0;
    }
  }

  /** With no such index, the allocator succeeds exactly when the admission count is at least k. */
  lemma AdmissionIsExact(db: Db, n: NodeId, c: Cid, k: nat)
    requires n in db.nodes && c in db.rows && k > 0
    requires Beyond(db, n, db.nodes[n].gpuCount) == {}
    ensures AllocLowest(db, n, c, k, db.nodes[n].gpuCount).Ok?
      <==> FreeOn(db.nodes[n].gpuCount, Usage(db, n)) >= k
  {
    AdmissionExactCondition(db, n, db.nodes[n].gpuCount);
    AllocationIsExact(db, n, c, k, db.nodes[n].gpuCount);
  }

  /** The converse of admission fails once a reservation outlives a falling GPU count. */
  lemma AdmissionIsConservative(n: NodeId, c: Cid, node: Node, row: Row)
    requires node.gpuCount == 1 && row.node == n
    ensures var db := Db(map[n := node], map[c := row], map[Slot(n, 1) := c], map[]);
      FreeOn(1, Usage(db, n)) == 0 && AllocLowest(db, n, c, 1, 1).Ok?
  {
    var db := Db(map[n := node], map[c := row], map[Slot(n, 1) := c], map[]);
    assert SlotsOn(db, n) == {Slot(n, 1)};
    assert 0 in FreeSet(UsedOn(db, n), 0, 1);
    assert |FreeSet(UsedOn(db, n), 0, 1)| > 0;
    AllocationIsExact(db, n, c, 1, 1);
  }
}
