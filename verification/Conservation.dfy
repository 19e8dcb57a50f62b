/** Reservation counts: per node they are what its containers hold, and while reports never fall they fit. */
module Conservation {
  import opened Tables
  import opened Scheduler
  import opened ControlPlane
  import opened GpuSafety

  function RowsOn(db: Db, n: NodeId): set<Cid> {
    set c | c in db.rows && db.rows[c].node == n
  }

  /** The GPUs held by a set of containers, counted container by container. */
  ghost function HeldBy(db: Db, cs: set<Cid>): nat {
    if cs == {} then 0
    else
      var c :| c in cs;
      |Held(db, c)| + HeldBy(db, cs - {c})
  }

  lemma {:induction false} HeldByIsUnion(db: Db, cs: set<Cid>)
    ensures HeldBy(db, cs) == |set s | s in db.gpus && db.gpus[s] in cs|
  {
    if cs == {} {
      assert (set s | s in db.gpus && db.gpus[s] in cs) == {};
    } else {
      var c :| c in cs && HeldBy(db, cs) == |Held(db, c)| + HeldBy(db, cs - {c});
      HeldByIsUnion(db, cs - {c});
      assert (set s | s in db.gpus && db.gpus[s] in cs)
        == Held(db, c) + set s | s in db.gpus && db.gpus[s] in cs - {c};
    }
  }

  /** In every reachable state a node's usage count is the sum of what its containers hold. */
  lemma {:induction false} UsageIsConserved(acts: seq<Action>, n: NodeId)
    ensures var db := Run(INIT, acts).w.db; Usage(db, n) == HeldBy(db, RowsOn(db, n))
  {
    var db := Run(INIT, acts).w.db;
    RunKeeps(INIT, acts);
    HeldByIsUnion(db, RowsOn(db, n));
    assert SlotsOn(db, n) == set s | s in db.gpus && db.gpus[s] in RowsOn(db, n);
  }

  // ---------- Runs on which no node's reported GPU count falls ----------

  ghost predicate Rising(s: System, a: Action) {
    a.Metrics? && a.node in s.w.db.nodes ==> a.report.gpuCount >= s.w.db.nodes[a.node].gpuCount
  }

  ghost predicate RisingRun(acts: seq<Action>) {
    forall k :: 0 <= k < |acts| ==> Rising(Run(INIT, acts[..k]), acts[k])
  }

  predicate Below(db: Db, n: NodeId, idx: seq<nat>) {
    n in db.nodes && forall i :: i in idx ==> i < db.nodes[n].gpuCount
  }

  ghost predicate GrantsBelow(w: World) {
    forall c :: c in w.log.granted ==> c in w.log.home && Below(w.db, w.log.home[c], w.log.granted[c])
  }

  /** A node listing read earlier still names nodes, with counts no larger than now. */
  predicate Stale(db: Db, nodes: map<NodeId, Node>) {
    forall n :: n in nodes ==> n in db.nodes && nodes[n].gpuCount <= db.nodes[n].gpuCount
  }

  predicate TotalBelow(db: Db, n: NodeId, total: nat, req: CreateReq) {
    Below(db, n, req.indices) && total <= db.nodes[n].gpuCount
  }

  predicate TaskBelow(db: Db, t: Task) {
    match t
    case CreateAdmit(_, req, nodes) => Stale(db, nodes) && (req.indices != [] ==> req.node.Some?)
    case CreatePort(_, req, n, total) => TotalBelow(db, n, total, req)
    case CreateInsert(_, req, n, total, _) => TotalBelow(db, n, total, req)
    case CreateGpus(_, req, n, total, _) => TotalBelow(db, n, total, req)
    case _ => true
  }

  ghost predicate AllBelow(s: System) {
    && GrantsBelow(s.w)
    && (forall c :: c in s.creates ==> TaskBelow(s.w.db, s.creates[c]))
    && (forall k :: k in s.tasks ==> TaskBelow(s.w.db, s.tasks[k]))
  }

  ghost predicate BelowAfter(w: World, w': World, t': Task) {
    GrantsBelow(w') && TaskBelow(w'.db, t') && Stale(w'.db, w.db.nodes)
  }

  lemma BatchBelow(w: World, t: Task, env: Env)
    requires WorldOk(w) && GrantsBelow(w) && t.Batch?
    ensures var (w', t') := Step(w, t, env); BelowAfter(w, w', t')
  {
    if t.ops != [] {
      ApplyKeeps(w, t.ops[0], env);
      assert Apply(w, t.ops[0], env).db.nodes == w.db.nodes;
    }
  }

  lemma CreateBelow(w: World, t: Task, env: Env)
    requires WorldOk(w) && TaskOk(w, t) && GrantsBelow(w) && TaskBelow(w.db, t)
    requires t.CreatePlan? || t.CreateAdmit? || t.CreatePort? || t.CreateInsert?
    ensures var (w', t') := Step(w, t, env); BelowAfter(w, w', t')
  {
  }

  lemma CreateGpusBelow(w: World, t: Task, env: Env)
    requires WorldOk(w) && TaskOk(w, t) && GrantsBelow(w) && TaskBelow(w.db, t) && t.CreateGpus?
    ensures var (w', t') := Step(w, t, env); BelowAfter(w, w', t')
  {
    if t.req.res.gpu > 0 && GpuStep(w.db, t.cid, t.req, t.node, t.total).Ok? {
      GpuStepReserves(w.db, t.cid, t.req, t.node, t.total);
    }
  }

  lemma LateBelow(w: World, t: Task, env: Env)
    requires GrantsBelow(w) && IsCreate(t)
    requires t.CreateRecord? || t.CreateRoute? || t.CreateBind? || t.CreateSend?
    ensures var (w', t') := Step(w, t, env); BelowAfter(w, w', t')
  {
  }

  lemma OtherBelow(w: World, t: Task, env: Env)
    requires GrantsBelow(w) && !IsCreate(t) && !t.Batch?
    ensures var (w', t') := Step(w, t, env); BelowAfter(w, w', t')
  {
  }

  lemma {:induction false} StepBelow(w: World, t: Task, env: Env)
    requires WorldOk(w) && TaskOk(w, t) && GrantsBelow(w) && TaskBelow(w.db, t)
    ensures var (w', t') := Step(w, t, env); BelowAfter(w, w', t')
  {
    if t.Batch? { BatchBelow(w, t, env); }
    else if !IsCreate(t) { OtherBelow(w, t, env); }
    else if t.CreateGpus? { CreateGpusBelow(w, t, env); }
    else if t.CreatePlan? || t.CreateAdmit? || t.CreatePort? || t.CreateInsert? { CreateBelow(w, t, env); }
    else { LateBelow(w, t, env); }
  }

  lemma TaskStaysBelow(db: Db, db': Db, t: Task)
    requires TaskBelow(db, t) && Stale(db', db.nodes)
    ensures TaskBelow(db', t)
  {
  }

  lemma {:induction false} ActBelow(s: System, a: Action)
    requires SystemOk(s) && AllBelow(s) && Rising(s, a)
    ensures AllBelow(Act(s, a))
  {
    hide Step, WorldOk, TaskOk;
    var s' := Act(s, a);
    if a.AdvanceCreate? && a.cid in s.creates {
      StepBelow(s.w, s.creates[a.cid], a.env);
    } else if a.Advance? && a.slot in s.tasks {
      StepBelow(s.w, s.tasks[a.slot], a.env);
    }
    assert Stale(s'.w.db, s.w.db.nodes);
    forall t: Task | TaskBelow(s.w.db, t) ensures TaskBelow(s'.w.db, t) {
      TaskStaysBelow(s.w.db, s'.w.db, t);
    }
  }

  lemma {:induction false} RunBelow(acts: seq<Action>)
    requires RisingRun(acts)
    ensures AllBelow(Run(INIT, acts))
  {
    if acts != [] {
      var k := |acts| - 1;
      assert RisingRun(acts[..k]) by {
        forall j | 0 <= j < k ensures Rising(Run(INIT, acts[..k][..j]), acts[..k][j]) {
          assert acts[..k][..j] == acts[..j];
        }
      }
      RunBelow(acts[..k]);
      RunKeeps(INIT, acts[..k]);
      ActBelow(Run(INIT, acts[..k]), acts[k]);
    }
  }

  /** While reports never fall, every reservation is below its node's count, and free plus used is the count. */
  lemma {:induction false} FreePlusUsedIsCount(acts: seq<Action>, n: NodeId)
    requires RisingRun(acts) && n in Run(INIT, acts).w.db.nodes
    ensures var db := Run(INIT, acts).w.db;
      && (forall s :: s in SlotsOn(db, n) ==> s.index < db.nodes[n].gpuCount)
      && FreeOn(db.nodes[n].gpuCount, Usage(db, n)) + Usage(db, n) == db.nodes[n].gpuCount
  {
    var w := Run(INIT, acts).w;
    var count := w.db.nodes[n].gpuCount;
    RunBelow(acts);
    RunKeeps(INIT, acts);
    forall s | s in SlotsOn(w.db, n) ensures s.index < count {
      var c := w.db.gpus[s];
      assert AllOrNothing(w, c) && s in Held(w.db, c);
    }
    assert Beyond(w.db, n, count) == {};
    FreeAccounting(w.db, n, count);
  }

  /**
   * After any report, falling or not: every reserved index is below the new count exactly when the
   * indices free for the allocator plus those used make up the count; and the free count of admission
   * does so exactly when no more indices lie beyond the count than are free below it.
   */
  lemma AfterReport(s: System, n: NodeId, report: Node)
    requires n in s.w.db.nodes
    ensures var db, count := Act(s, Metrics(n, report)).w.db, report.gpuCount;
      && db.nodes[n].gpuCount == count
      && ((forall i :: i in UsedOn(db, n) ==> i < count)
          <==> |FreeSet(UsedOn(db, n), 0, count)| + Usage(db, n) == count)
      && (FreeOn(count, Usage(db, n)) + Usage(db, n) == count
          <==> |Beyond(db, n, count)| <= |FreeSet(UsedOn(db, n), 0, count)|)
  {
    var db, count := Act(s, Metrics(n, report)).w.db, report.gpuCount;
    FreeAccounting(db, n, count);
    if Beyond(db, n, count) == {} {
      forall i | i in UsedOn(db, n) ensures i < count {
        assert i !in Beyond(db, n, count);
      }
    } else {
      assert |Beyond(db, n, count)| > 0;
      var i :| i in Beyond(db, n, count);
      assert i in UsedOn(db, n) && i >= count;
    }
  }

  /** A report never brings a node online or into being; a node that joins keeps what it last reported. */
  lemma ReportsMean(s: System, n: NodeId, report: Node)
    ensures var reported, joined := Act(s, Metrics(n, report)).w, Act(s, NodeUp(n)).w;
      && reported.db == s.w.db.(nodes := reported.db.nodes) && joined.db == s.w.db.(nodes := joined.db.nodes)
      && (forall m :: m in reported.db.nodes <==> m in s.w.db.nodes)
      && (forall m :: m in joined.db.nodes <==> m in s.w.db.nodes || m == n)
      && (forall m :: m in s.w.db.nodes && m != n ==>
            reported.db.nodes[m] == s.w.db.nodes[m] && joined.db.nodes[m] == s.w.db.nodes[m])
      && (n in s.w.db.nodes ==>
            && reported.db.nodes[n].online == s.w.db.nodes[n].online
            && reported.db.nodes[n].(online := report.online) == report
            && joined.db.nodes[n].(online := s.w.db.nodes[n].online) == s.w.db.nodes[n])
      && joined.db.nodes[n].online && (n !in s.w.db.nodes ==> joined.db.nodes[n].gpuCount == 0)
  {
  }

  // ---------- Ports ----------

  /** The ports the master allocates from. */
  function PortRange(): set<nat> {
    FreeSet({}, PORT_MIN, PORT_MAX + 1)
  }

  lemma {:induction false} RangeSize(lo: nat, hi: nat)
    requires lo <= hi
    ensures |FreeSet({}, lo, hi)| == hi - lo
    decreases hi - lo
  {
    if lo == hi {
      assert FreeSet({}, lo, hi) == {};
    } else {
      RangeSize(lo, hi - 1);
      assert FreeSet({}, lo, hi) == FreeSet({}, lo, hi - 1) + {hi - 1};
    }
  }

  lemma StepPorts(w: World, t: Task, env: Env)
    ensures Step(w, t, env).0.db.ports.Keys <= w.db.ports.Keys + PortRange()
  {
  }

  lemma {:induction false} RunPorts(acts: seq<Action>)
    ensures Run(INIT, acts).w.db.ports.Keys <= PortRange()
  {
    if acts != [] {
      var s, a := Run(INIT, acts[..|acts| - 1]), acts[|acts| - 1];
      RunPorts(acts[..|acts| - 1]);
      if a.AdvanceCreate? && a.cid in s.creates {
        StepPorts(s.w, s.creates[a.cid], a.env);
      } else if a.Advance? && a.slot in s.tasks {
        StepPorts(s.w, s.tasks[a.slot], a.env);
      }
    }
  }

  /**
   * Whatever is requested and however it interleaves, only ports of the range are ever allocated, never
   * more than there are, and an allocation fails exactly when all of them are.
   */
  lemma {:induction false} PortsNeverOverflow(acts: seq<Action>, ports: map<nat, Cid>)
    requires ports == Run(INIT, acts).w.db.ports
    ensures
      && (forall p :: p in ports ==> 30000 <= p <= 32767)
      && |ports| <= 2768
      && (LeastFree(ports, PORT_MIN, PORT_MAX).None? <==> |ports| == 2768)
  {
    RunPorts(acts);
    RangeSize(PORT_MIN, PORT_MAX + 1);
    var free := PortRange() - ports.Keys;
    assert PortRange() == ports.Keys + free;
    assert |PortRange()| == |ports.Keys| + |free|;
    assert |ports| == |ports.Keys|;
    var least := LeastFree(ports, PORT_MIN, PORT_MAX);
    if least.Some? {
      assert least.value in free;
    } else {
      assert free == {};
    }
  }
}
