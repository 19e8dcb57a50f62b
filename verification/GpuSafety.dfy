/** GPU exclusivity under every interleaving of handlers, acknowledgements, sweeps and restarts. */
module GpuSafety {
  import opened Tables
  import opened Scheduler
  import opened ControlPlane

  /** The index list fixed when the container was created; empty when it asked for no GPU. */
  function Grant(log: Log, c: Cid): seq<nat> {
    if c in log.granted then log.granted[c] else []
  }

  /** A container holds nothing, or exactly its granted list on its own node. */
  ghost predicate AllOrNothing(w: World, c: Cid)
    requires c in w.db.rows
  {
    Held(w.db, c) == {} || Held(w.db, c) == SlotsFor(w.db.rows[c].node, Grant(w.log, c))
  }

  ghost predicate RowsAgree(w: World) {
    forall c :: c in w.db.rows ==>
      && c in w.log.issued && w.db.rows[c].node in w.db.nodes
      && c in w.log.home && w.log.home[c] == w.db.rows[c].node
      && (w.db.rows[c].indices == [] || w.db.rows[c].indices == Grant(w.log, c))
  }

  /** Every reservation belongs to a live container of the same node. */
  ghost predicate OnOwnNode(db: Db) {
    forall s :: s in db.gpus ==> s.node in db.nodes && db.gpus[s] in db.rows && db.rows[db.gpus[s]].node == s.node
  }

  ghost predicate CommandsAgree(log: Log) {
    forall i :: 0 <= i < |log.sent| && log.sent[i].CreateCommand? ==>
      && log.sent[i].cid in log.home && log.sent[i].node == log.home[log.sent[i].cid]
      && log.sent[i].devices == Grant(log, log.sent[i].cid)
  }

  ghost predicate NoCommand(log: Log, c: Cid) {
    forall i :: 0 <= i < |log.sent| && log.sent[i].CreateCommand? ==> log.sent[i].cid != c
  }

  ghost predicate WorldOk(w: World) {
    && OnOwnNode(w.db)
    && RowsAgree(w)
    && (forall c :: c in w.db.rows ==> AllOrNothing(w, c))
    && (forall c :: c in w.log.granted ==> Distinct(w.log.granted[c]))
    && CommandsAgree(w.log)
    && w.log.home.Keys <= w.log.issued && w.log.granted.Keys <= w.log.issued
  }

  predicate IsCreate(t: Task) {
    t.CreatePlan? || t.CreateAdmit? || t.CreatePort? || t.CreateInsert? || t.CreateGpus?
    || t.CreateRecord? || t.CreateRoute? || t.CreateBind? || t.CreateSend?
  }

  ghost predicate RowCopyOk(w: World, c: Cid, row: Row) {
    && c in w.log.home && row.node == w.log.home[c]
    && (row.indices == [] || row.indices == Grant(w.log, c))
  }

  /** A create that has settled on node `n` and not yet on a list. */
  ghost predicate Ungranted(w: World, c: Cid, n: NodeId) {
    && c in w.log.issued && c in w.log.home && w.log.home[c] == n
    && c !in w.log.granted && NoCommand(w.log, c)
  }

  ghost predicate Granted(w: World, c: Cid, n: NodeId, idx: seq<nat>) {
    c in w.log.home && w.log.home[c] == n && idx == Grant(w.log, c)
  }

  ghost predicate Unplaced(w: World, c: Cid) {
    c in w.log.issued && c !in w.log.home && c !in w.log.granted && NoCommand(w.log, c)
  }

  /** What a task may rely on between its steps, whatever the other tasks do. */
  ghost predicate TaskOk(w: World, t: Task) {
    match t
    case CreatePlan(c, _) => Unplaced(w, c)
    case CreateAdmit(c, _, _) => Unplaced(w, c)
    case CreatePort(c, _, n, _) => Ungranted(w, c, n)
    case CreateInsert(c, _, n, _, _) => Ungranted(w, c, n)
    case CreateGpus(c, _, n, _, _) => Ungranted(w, c, n)
    case CreateRecord(c, _, n, _, idx) => Granted(w, c, n, idx)
    case CreateRoute(c, _, n, _, idx) => Granted(w, c, n, idx)
    case CreateBind(c, _, n, _, idx) => Granted(w, c, n, idx)
    case CreateSend(c, _, n, _, idx) => Granted(w, c, n, idx)
    case StartReserve(c, row) => RowCopyOk(w, c, row)
    case StartMark(c, row) => RowCopyOk(w, c, row)
    case StartSend(c, row) => RowCopyOk(w, c, row)
    case _ => true
  }

  ghost predicate SystemOk(s: System) {
    && WorldOk(s.w)
    && (forall c :: c in s.creates ==> TaskOk(s.w, s.creates[c]) && (IsCreate(s.creates[c]) ==> s.creates[c].cid == c))
    && (forall k :: k in s.tasks ==> TaskOk(s.w, s.tasks[k]) && !IsCreate(s.tasks[k]))
  }

  /** How a step may move the history: only the ids in `own` gain a node or a grant. */
  ghost predicate Grows(w: World, w': World, own: set<Cid>) {
    && w.log.issued <= w'.log.issued
    && (forall c :: c in w.log.home ==> c in w'.log.home && w'.log.home[c] == w.log.home[c])
    && (forall c :: c in w.log.granted ==> c in w'.log.granted && w'.log.granted[c] == w.log.granted[c])
    && (forall c :: c in w'.log.home && c !in own ==> c in w.log.home)
    && (forall c :: c in w'.log.granted && c !in own ==> c in w.log.granted)
    && (forall c :: NoCommand(w.log, c) && c !in own ==> NoCommand(w'.log, c))
  }

  function Own(t: Task): set<Cid> {
    if IsCreate(t) then {t.cid} else {}
  }

  lemma TaskStable(w: World, w': World, t: Task, own: set<Cid>)
    requires TaskOk(w, t) && Grows(w, w', own)
    requires IsCreate(t) ==> t.cid !in own
    ensures TaskOk(w', t)
  {
  }

  // ---------- Database operations keep the invariant ----------

  lemma FreeKeeps(w: World, c: Cid)
    requires WorldOk(w)
    ensures WorldOk(w.(db := FreeGpus(w.db, c)))
  {
    var w' := w.(db := FreeGpus(w.db, c));
    forall d | d in w'.db.rows ensures AllOrNothing(w', d) {
      assert AllOrNothing(w, d);
    }
  }

  lemma DeleteKeeps(w: World, c: Cid)
    requires WorldOk(w)
    ensures WorldOk(w.(db := DeleteRow(w.db, c)))
  {
    if c in w.db.rows {
      FreeKeeps(w, c);
      var w1, w' := w.(db := FreeGpus(w.db, c)), w.(db := DeleteRow(w.db, c));
      forall d | d in w'.db.rows ensures AllOrNothing(w', d) {
        assert AllOrNothing(w1, d);
        assert Held(w'.db, d) == Held(w1.db, d);
      }
    }
  }

  lemma RowUpdateKeeps(w: World, c: Cid, row: Row)
    requires WorldOk(w) && c in w.db.rows && row.node == w.db.rows[c].node
    requires row.indices == [] || row.indices == Grant(w.log, c)
    ensures WorldOk(w.(db := w.db.(rows := w.db.rows[c := row])))
  {
    var w' := w.(db := w.db.(rows := w.db.rows[c := row]));
    forall d | d in w'.db.rows ensures AllOrNothing(w', d) {
      assert AllOrNothing(w, d);
      assert Held(w'.db, d) == Held(w.db, d);
    }
  }

  /** A task's remaining plain operations are harmless in any order, whatever it read before. */
  lemma ApplyKeeps(w: World, op: Op, env: Env)
    requires WorldOk(w)
    ensures WorldOk(Apply(w, op, env)) && Apply(w, op, env).log == w.log
  {
    match op
    case OpState(c, docker, state, status) =>
      if c in w.db.rows {
        RowUpdateKeeps(w, c, SetState(w.db, c, docker, state, status).rows[c]);
      }
    case OpFreeGpus(c) => FreeKeeps(w, c);
    case OpDelete(c) => DeleteKeeps(w, c);
    case OpFreePort(p) => SameTables(w, Apply(w, op, env));
    case OpRegister(p, route) => SameTables(w, Apply(w, op, env));
    case OpBind(p) => SameTables(w, Apply(w, op, env));
    case OpUnregister(p) => SameTables(w, Apply(w, op, env));
  }

  lemma SameTables(w: World, w': World)
    requires WorldOk(w)
    requires w'.db.rows == w.db.rows && w'.db.gpus == w.db.gpus && w.db.nodes.Keys <= w'.db.nodes.Keys
    requires w'.log.granted == w.log.granted && w.log.issued <= w'.log.issued
    requires forall c :: c in w.log.home ==> c in w'.log.home && w'.log.home[c] == w.log.home[c]
    requires CommandsAgree(w'.log) && w'.log.home.Keys <= w'.log.issued
    ensures WorldOk(w')
  {
    forall c | c in w'.db.rows ensures AllOrNothing(w', c) {
      assert AllOrNothing(w, c);
      assert Held(w'.db, c) == Held(w.db, c);
    }
  }

  /** Reserving a container's own list when it holds nothing. */
  lemma ReserveKeeps(w: World, c: Cid, idx: seq<nat>)
    requires WorldOk(w) && c in w.db.rows
    requires idx != [] && idx == Grant(w.log, c)
    requires CanReserve(w.db, w.db.rows[c].node, c, idx)
    ensures Held(w.db, c) == {}
    ensures WorldOk(w.(db := Reserve(w.db, w.db.rows[c].node, c, idx)))
  {
    var n := w.db.rows[c].node;
    var w' := w.(db := Reserve(w.db, n, c, idx));
    assert AllOrNothing(w, c);
    assert Slot(n, idx[0]) in SlotsFor(n, idx) && Slot(n, idx[0]) !in Held(w.db, c);
    assert forall s :: s in w.db.gpus ==> w.db.gpus[s] != c by {
      assert forall s :: s in w.db.gpus && w.db.gpus[s] == c ==> s in Held(w.db, c);
    }
    assert Held(w'.db, c) == SlotsFor(n, idx);
    forall d | d in w'.db.rows ensures AllOrNothing(w', d) {
      assert AllOrNothing(w, d);
      if d != c {
        assert Held(w'.db, d) == Held(w.db, d);
      }
    }
  }

  // ---------- Steps keep the invariant ----------

  lemma GrantKeeps(w: World, c: Cid, idx: seq<nat>)
    requires WorldOk(w) && c !in w.log.granted && Distinct(idx)
    requires c in w.db.rows ==> Held(w.db, c) == {} && w.db.rows[c].indices == []
    requires NoCommand(w.log, c) && c in w.log.issued
    ensures WorldOk(w.(log := w.log.(granted := w.log.granted[c := idx])))
  {
    var w' := w.(log := w.log.(granted := w.log.granted[c := idx]));
    forall d | d in w'.db.rows ensures AllOrNothing(w', d) {
      assert AllOrNothing(w, d);
    }
  }

  lemma SentKeeps(w: World, cmd: Command)
    requires WorldOk(w)
    requires cmd.CreateCommand? ==> Granted(w, cmd.cid, cmd.node, cmd.devices)
    ensures WorldOk(Sent(w, cmd))
    ensures Grows(w, Sent(w, cmd), if cmd.CreateCommand? then {cmd.cid} else {})
  {
    SameTables(w, Sent(w, cmd));
  }

  /** The steps of createContainer before its row exists. */
  lemma CreateEarlyStep(w: World, t: Task, env: Env)
    requires WorldOk(w) && TaskOk(w, t)
    requires t.CreatePlan? || t.CreatePort?
    ensures var (w', t') := Step(w, t, env); StepOk(w, t, w', t')
  {
    var (w', t') := Step(w, t, env);
    assert w'.log == w.log && w'.db == w.db.(ports := w'.db.ports);
    SameTables(w, w');
  }

  lemma CreateAdmitStep(w: World, t: Task, env: Env)
    requires WorldOk(w) && TaskOk(w, t) && t.CreateAdmit?
    ensures var (w', t') := Step(w, t, env); StepOk(w, t, w', t')
  {
    var (w', t') := Step(w, t, env);
    assert w'.db == w.db && w'.log == w.log.(home := w'.log.home);
    SameTables(w, w');
  }

  /** The steps of createContainer after its list is persisted. */
  lemma CreateRouteStep(w: World, t: Task, env: Env)
    requires WorldOk(w) && TaskOk(w, t)
    requires t.CreateRoute? || t.CreateBind?
    ensures var (w', t') := Step(w, t, env); StepOk(w, t, w', t')
  {
    var (w', t') := Step(w, t, env);
    assert w'.db == w.db && w'.log == w.log;
    SameTables(w, w');
  }

  lemma CreateSendStep(w: World, t: Task, env: Env)
    requires WorldOk(w) && TaskOk(w, t) && t.CreateSend?
    ensures var (w', t') := Step(w, t, env); StepOk(w, t, w', t')
  {
    SentKeeps(w, CreateCommand(t.cid, t.node, t.idx));
  }

  /** The three steps that write `containers` and `gpu_alloc`. */
  lemma CreateInsertStep(w: World, t: Task, env: Env)
    requires WorldOk(w) && TaskOk(w, t) && t.CreateInsert?
    ensures var (w', t') := Step(w, t, env); StepOk(w, t, w', t')
  {
    var (w', t') := Step(w, t, env);
    var c := t.cid;
    if c !in w.db.rows && t.node in w.db.nodes {
      forall d | d in w'.db.rows ensures AllOrNothing(w', d) {
        assert Held(w'.db, d) == Held(w.db, d);
        if d != c {
          assert AllOrNothing(w, d);
        } else {
          assert forall s :: s in w.db.gpus ==> w.db.gpus[s] in w.db.rows;
        }
      }
    }
  }

  lemma GrantAndReserve(w: World, c: Cid, n: NodeId, idx: seq<nat>)
    requires WorldOk(w) && Ungranted(w, c, n) && idx != [] && CanReserve(w.db, n, c, idx)
    ensures WorldOk(w.(db := Reserve(w.db, n, c, idx), log := w.log.(granted := w.log.granted[c := idx])))
  {
    assert AllOrNothing(w, c);
    GrantKeeps(w, c, idx);
    ReserveKeeps(w.(log := w.log.(granted := w.log.granted[c := idx])), c, idx);
  }

  lemma CreateGpusStep(w: World, t: Task, env: Env)
    requires WorldOk(w) && TaskOk(w, t) && t.CreateGpus?
    ensures var (w', t') := Step(w, t, env); StepOk(w, t, w', t')
  {
    hide Apply;
    var CreateGpus(c, req, n, total, ext) := t;
    var (w', t') := Step(w, t, env);
    if req.res.gpu > 0 && GpuStep(w.db, c, req, n, total).Ok? {
      var idx := GpuStep(w.db, c, req, n, total).value.1;
      GpuStepReserves(w.db, c, req, n, total);
      GrantAndReserve(w, c, n, idx);
    }
  }

  /** A successful GPU step of createContainer reserves a nonempty list without duplicates. */
  lemma GpuStepReserves(db: Db, c: Cid, req: CreateReq, n: NodeId, total: nat)
    requires req.res.gpu > 0 && GpuStep(db, c, req, n, total).Ok?
    ensures var (db', idx) := GpuStep(db, c, req, n, total).value;
      && idx != [] && CanReserve(db, n, c, idx) && db' == Reserve(db, n, c, idx)
      && (req.indices == [] ==> |idx| == req.res.gpu && forall i :: i in idx ==> i < total)
      && (req.indices != [] ==> idx == req.indices)
  {
    FirstFreeIsDistinct(UsedOn(db, n), total, req.res.gpu);
    FirstFreeIsLowest(UsedOn(db, n), 0, total, req.res.gpu);
    var idx := GpuStep(db, c, req, n, total).value.1;
    if req.indices == [] {
      assert forall i :: i in idx ==> Slot(n, i) !in db.gpus;
    }
  }

  lemma CreateRecordStep(w: World, t: Task, env: Env)
    requires WorldOk(w) && TaskOk(w, t) && t.CreateRecord?
    ensures var (w', t') := Step(w, t, env); StepOk(w, t, w', t')
  {
    if t.idx != [] && t.cid in w.db.rows {
      RowUpdateKeeps(w, t.cid, w.db.rows[t.cid].(indices := t.idx));
    }
  }

  lemma BatchStep(w: World, t: Task, env: Env)
    requires WorldOk(w) && t.Batch?
    ensures var (w', t') := Step(w, t, env); StepOk(w, t, w', t')
  {
    if t.ops != [] {
      ApplyKeeps(w, t.ops[0], env);
    }
  }

  lemma StartReserveStep(w: World, t: Task, env: Env)
    requires WorldOk(w) && TaskOk(w, t) && t.StartReserve?
    ensures var (w', t') := Step(w, t, env); StepOk(w, t, w', t')
  {
    if t.row.indices != [] && CanReserve(w.db, t.row.node, t.cid, t.row.indices) {
      ReserveKeeps(w, t.cid, t.row.indices);
    }
  }

  lemma MarkStep(w: World, t: Task, env: Env)
    requires WorldOk(w) && TaskOk(w, t) && (t.StartMark? || t.StopMark?)
    ensures var (w', t') := Step(w, t, env); StepOk(w, t, w', t')
  {
    var state := if t.StartMark? then "starting" else "stopping";
    ApplyKeeps(w, OpState(t.cid, t.row.docker, state, state), env);
  }

  lemma ReadStep(w: World, t: Task, env: Env)
    requires WorldOk(w) && (t.StartRead? || t.StopRead? || t.DeleteRead? || t.Observe? || t.Sweep?)
    ensures var (w', t') := Step(w, t, env); StepOk(w, t, w', t')
  {
    assert Step(w, t, env).0 == w;
  }

  lemma SendStep(w: World, t: Task, env: Env)
    requires WorldOk(w) && TaskOk(w, t) && (t.StartSend? || t.StopSend? || t.DeleteSend?)
    ensures var (w', t') := Step(w, t, env); StepOk(w, t, w', t')
  {
    SentKeeps(w, if t.StartSend? then StartCommand(t.cid) else StopCommand(t.cid, t.DeleteSend?));
  }

  lemma DisconnectStep(w: World, t: Task, env: Env)
    requires WorldOk(w) && t.Disconnect?
    ensures var (w', t') := Step(w, t, env); StepOk(w, t, w', t')
  {
    SameTables(w, Step(w, t, env).0);
  }

  /** One step of one task: the invariant holds again, and every other task's assumptions survive. */
  ghost predicate StepOk(w: World, t: Task, w': World, t': Task) {
    && WorldOk(w') && TaskOk(w', t') && Grows(w, w', Own(t))
    && (IsCreate(t') ==> IsCreate(t) && t'.cid == t.cid)
  }

  lemma {:induction false} StepKeeps(w: World, t: Task, env: Env)
    requires WorldOk(w) && TaskOk(w, t)
    ensures var (w', t') := Step(w, t, env); StepOk(w, t, w', t')
  {
    if t.Batch? { BatchStep(w, t, env); }
    else if t.StartReserve? { StartReserveStep(w, t, env); }
    else if t.StartMark? || t.StopMark? { MarkStep(w, t, env); }
    else if t.StartSend? || t.StopSend? || t.DeleteSend? { SendStep(w, t, env); }
    else if t.Disconnect? { DisconnectStep(w, t, env); }
    else if !IsCreate(t) { ReadStep(w, t, env); }
    else if t.CreateInsert? { CreateInsertStep(w, t, env); }
    else if t.CreateGpus? { CreateGpusStep(w, t, env); }
    else if t.CreateRecord? { CreateRecordStep(w, t, env); }
    else if t.CreateRoute? || t.CreateBind? { CreateRouteStep(w, t, env); }
    else if t.CreateSend? { CreateSendStep(w, t, env); }
    else if t.CreateAdmit? { CreateAdmitStep(w, t, env); }
    else { CreateEarlyStep(w, t, env); }
  }

  // ---------- Runs ----------

  lemma {:induction false} CreateMoveKeeps(s: System, c: Cid, env: Env)
    requires SystemOk(s) && c in s.creates
    ensures SystemOk(Act(s, AdvanceCreate(c, env)))
  {
    var t := s.creates[c];
    var s' := Act(s, AdvanceCreate(c, env));
    StepKeeps(s.w, t, env);
    forall d | d in s'.creates && d != c ensures TaskOk(s'.w, s'.creates[d]) {
      TaskStable(s.w, s'.w, s.creates[d], Own(t));
    }
    forall k | k in s'.tasks ensures TaskOk(s'.w, s'.tasks[k]) {
      TaskStable(s.w, s'.w, s.tasks[k], Own(t));
    }
  }

  lemma {:induction false} TaskMoveKeeps(s: System, k: nat, env: Env)
    requires SystemOk(s) && k in s.tasks
    ensures SystemOk(Act(s, Advance(k, env)))
  {
    var t := s.tasks[k];
    var s' := Act(s, Advance(k, env));
    StepKeeps(s.w, t, env);
    forall d | d in s'.creates ensures TaskOk(s'.w, s'.creates[d]) {
      TaskStable(s.w, s'.w, s.creates[d], Own(t));
    }
    forall j | j in s'.tasks && j != k ensures TaskOk(s'.w, s'.tasks[j]) {
      TaskStable(s.w, s'.w, s.tasks[j], Own(t));
    }
  }

  lemma WorldMoveKeeps(s: System, w': World)
    requires SystemOk(s) && WorldOk(w') && Grows(s.w, w', {})
    ensures SystemOk(s.(w := w'))
  {
    forall d | d in s.creates ensures TaskOk(w', s.creates[d]) {
      TaskStable(s.w, w', s.creates[d], {});
    }
    forall k | k in s.tasks ensures TaskOk(w', s.tasks[k]) {
      TaskStable(s.w, w', s.tasks[k], {});
    }
  }

  lemma IssueKeeps(s: System, c: Cid, req: CreateReq)
    requires SystemOk(s) && c !in s.w.log.issued
    ensures SystemOk(Act(s, ReceiveCreate(c, req)))
  {
    var w' := s.w.(log := s.w.log.(issued := s.w.log.issued + {c}));
    SameTables(s.w, w');
    WorldMoveKeeps(s, w');
    assert TaskOk(w', CreatePlan(c, req));
  }

  /** Node and metrics rows, and the proxy, are outside the invariant. */
  lemma OutsideKeeps(s: System, a: Action)
    requires SystemOk(s) && (a.NodeUp? || a.Metrics?)
    ensures SystemOk(Act(s, a))
  {
    SameTables(s.w, Act(s, a).w);
    WorldMoveKeeps(s, Act(s, a).w);
  }

  lemma {:induction false} ActKeeps(s: System, a: Action)
    requires SystemOk(s)
    ensures SystemOk(Act(s, a))
  {
    match a
    case ReceiveCreate(c, req) => if c !in s.w.log.issued { IssueKeeps(s, c, req); }
    case Receive(k, arrival) =>
    case AdvanceCreate(c, env) => if c in s.creates { CreateMoveKeeps(s, c, env); }
    case Advance(k, env) => if k in s.tasks { TaskMoveKeeps(s, k, env); }
    case NodeUp(n) => OutsideKeeps(s, a);
    case Metrics(n, report) => OutsideKeeps(s, a);
    case Restart(order, listens) => SameTables(s.w, Reboot(s.w, order, listens));
  }

  lemma {:induction false} RunKeeps(s: System, acts: seq<Action>)
    requires SystemOk(s)
    ensures SystemOk(Run(s, acts))
  {
    if acts != [] {
      RunKeeps(s, acts[..|acts| - 1]);
      ActKeeps(Run(s, acts[..|acts| - 1]), acts[|acts| - 1]);
    }
  }

  // ---------- Main results ----------

  /** The exclusivity promise, about tables and commands alone. */
  ghost predicate Exclusive(w: World) {
    // A container holds nothing, or exactly the list its create settled on, on its own node.
    && (forall c :: c in w.db.rows ==> AllOrNothing(w, c))
    && OnOwnNode(w.db)
    // The list in a Create command is that list.
    && CommandsAgree(w.log)
    // The list a start would re-reserve is that list.
    && (forall c :: c in w.db.rows ==> w.db.rows[c].indices == [] || w.db.rows[c].indices == Grant(w.log, c))
    // Two containers both holding on one node were given disjoint devices.
    && (forall c, d, i | BothHold(w.db, c, d) && i in Grant(w.log, c) :: i !in Grant(w.log, d))
  }

  predicate BothHold(db: Db, c: Cid, d: Cid) {
    && c in db.rows && d in db.rows && c != d && db.rows[c].node == db.rows[d].node
    && Held(db, c) != {} && Held(db, d) != {}
  }

  lemma WorldOkExclusive(w: World)
    requires WorldOk(w)
    ensures Exclusive(w)
  {
    forall c, d, i | BothHold(w.db, c, d) && i in Grant(w.log, c)
      ensures i !in Grant(w.log, d)
    {
      var n := w.db.rows[c].node;
      assert AllOrNothing(w, c) && AllOrNothing(w, d);
      assert Slot(n, i) in Held(w.db, c) && Slot(n, i) !in Held(w.db, d);
    }
  }

  /** Exclusivity holds after any interleaving of any requests, messages, sweeps, failures and restarts. */
  lemma {:induction false} ExclusiveAlways(acts: seq<Action>, s: System)
    requires s == Run(INIT, acts)
    ensures Exclusive(s.w)
  {
    RunKeeps(INIT, acts);
    WorldOkExclusive(s.w);
  }
}
