/** External ports and proxy routes over serial runs: one request at a time, with restarts in between. */
module Ports {
  import opened Tables
  import opened Scheduler
  import opened ControlPlane
  import opened GpuSafety
  import opened Lifecycle
  import opened Creation

  // ---------- The invariant ----------

  /** `port_alloc` is a bijection with the containers that have an external port. */
  ghost predicate Bijective(db: Db) {
    && (forall c :: c in db.rows && db.rows[c].ext != 0 ==> db.rows[c].ext in db.ports && db.ports[db.rows[c].ext] == c)
    && (forall p :: p in db.ports ==>
          30000 <= p <= 32767 && db.ports[p] in db.rows && db.rows[db.ports[p]].ext == p)
  }

  /** A route that names a live container is on that container's port and leads to its node and host port. */
  ghost predicate RoutesOwn(db: Db, routes: map<nat, Route>) {
    forall p :: p in routes && routes[p].cid in db.rows ==>
      && p in db.ports && db.ports[p] == routes[p].cid
      && var row := db.rows[routes[p].cid];
      routes[p].node == row.node && routes[p].hostPort == if |row.hostPorts| == 0 then 0 else row.hostPorts[0]
  }

  /** Every id in use was issued, so a fresh id meets no old row and no stale route. */
  ghost predicate IdsIssued(w: World) {
    w.db.rows.Keys <= w.log.issued && forall p :: p in w.routes ==> w.routes[p].cid in w.log.issued
  }

  ghost predicate PortsOk(w: World) {
    Bijective(w.db) && RoutesOwn(w.db, w.routes) && IdsIssued(w)
  }

  // ---------- Serial runs ----------

  datatype Request =
    | CreateCall(cid: Cid, req: CreateReq, env: Env)
    | Call(arrival: Arrival, env: Env)
    | NodeJoin(node: NodeId)
    | NodeReport(node: NodeId, report: Node)
    | MasterRestart(order: seq<Cid>, listens: set<nat>)

  function Issue(w: World, c: Cid): World {
    w.(log := w.log.(issued := w.log.issued + {c}))
  }

  /** One request run to its end; a create is given a fresh id. */
  function Serve(w: World, r: Request): World {
    match r
    case CreateCall(c, req, env) => if c in w.log.issued then w else Finish(Issue(w, c), CreatePlan(c, req), env)
    case Call(arrival, env) => Finish(w, Initial(arrival), env)
    case NodeJoin(n) => Act(System(w, map[], map[]), NodeUp(n)).w
    case NodeReport(n, report) => Act(System(w, map[], map[]), Metrics(n, report)).w
    case MasterRestart(order, listens) => Reboot(w, order, listens)
  }

  function ServeAll(w: World, rs: seq<Request>): World {
    if rs == [] then w else Serve(ServeAll(w, rs[..|rs| - 1]), rs[|rs| - 1])
  }

  // ---------- Requests that touch neither ports nor routes ----------

  predicate Neutral(op: Op) {
    op.OpState? || op.OpFreeGpus?
  }

  /** Same rows up to state, status, docker id and indices; same ports and routes. */
  ghost predicate SamePorts(w: World, w': World) {
    && w'.db.rows.Keys == w.db.rows.Keys
    && (forall c :: c in w.db.rows ==> w'.db.rows[c].ext == w.db.rows[c].ext)
    && (forall c :: c in w.db.rows ==> RouteOf(c, w'.db.rows[c]) == RouteOf(c, w.db.rows[c]))
    && w'.db.ports == w.db.ports && w'.routes == w.routes && w'.log.issued == w.log.issued
  }

  lemma SamePortsKeep(w: World, w': World)
    requires PortsOk(w) && SamePorts(w, w')
    ensures PortsOk(w')
  {
  }

  lemma NeutralOp(w: World, op: Op, env: Env)
    requires Neutral(op)
    ensures SamePorts(w, Apply(w, op, env))
  {
  }

  lemma {:induction false} NeutralKeeps(w: World, ops: seq<Op>, env: Env)
    requires PortsOk(w) && forall i :: 0 <= i < |ops| ==> Neutral(ops[i])
    ensures PortsOk(RunOps(w, ops, env))
    decreases |ops|
  {
    if ops != [] {
      var w1 := Apply(w, ops[0], env);
      NeutralOp(w, ops[0], env);
      SamePortsKeep(w, w1);
      NeutralKeeps(w1, ops[1..], env);
    }
  }

  lemma {:induction false} SweepIsNeutral(rows: map<Cid, Row>, order: seq<Cid>, n: NodeId, status: string)
    ensures forall i :: 0 <= i < |SweepOps(rows, order, n, status)| ==> Neutral(SweepOps(rows, order, n, status)[i])
  {
    if order != [] {
      SweepIsNeutral(rows, order[..|order| - 1], n, status);
    }
  }

  lemma DisconnectKeeps(w: World, n: NodeId, status: string, env: Env)
    requires PortsOk(w)
    ensures PortsOk(Finish(w, Disconnect(n, status), env))
  {
    var w1 := w.(db := SetOnline(w.db, n, false));
    var ops := SweepOps(w.db.rows, env.order, n, status);
    DisconnectUnfolds(w, n, status, env);
    FinishBatch(w1, ops, env);
    SweepIsNeutral(w.db.rows, env.order, n, status);
    SamePortsKeep(w, w1);
    NeutralKeeps(w1, ops, env);
  }

  /** Acknowledgements, observed changes and disconnects. */
  lemma MessageKeeps(w: World, a: Arrival, env: Env)
    requires PortsOk(w) && !a.StartRequest? && !a.StopRequest? && !a.DeleteRequest?
    ensures PortsOk(Finish(w, Initial(a), env))
  {
    match a
    case Lost(n, reason) => DisconnectKeeps(w, n, "agent disconnected: " + reason, env);
    case StateChanged(c, docker, action, state, status) => ObserveKeeps(w, c, docker, action, state, status, env);
    case Created(_, _, _) => BatchKeeps(w, Initial(a).ops, env);
    case Started(_, _, _) => BatchKeeps(w, Initial(a).ops, env);
    case Stopped(_, _, _) => BatchKeeps(w, Initial(a).ops, env);
  }

  lemma BatchKeeps(w: World, ops: seq<Op>, env: Env)
    requires PortsOk(w) && forall i :: 0 <= i < |ops| ==> Neutral(ops[i])
    ensures PortsOk(Finish(w, Batch(ops), env))
  {
    FinishBatch(w, ops, env);
    NeutralKeeps(w, ops, env);
  }

  lemma ObserveKeeps(w: World, c: Cid, docker: string, action: string, state: string, status: string, env: Env)
    requires PortsOk(w)
    ensures PortsOk(Finish(w, Observe(c, docker, action, state, status), env))
  {
    var (w1, t1) := Step(w, Observe(c, docker, action, state, status), env);
    assert Finish(w, Observe(c, docker, action, state, status), env) == Finish(w, t1, env);
    BatchKeeps(w, t1.ops, env);
  }

  // ---------- Start, stop, delete ----------

  lemma StartKeepsPorts(w: World, c: Cid, env: Env)
    requires WorldOk(w) && PortsOk(w)
    ensures PortsOk(Finish(w, StartRead(c), env))
  {
    hide Finish, Step, WorldOk, CanReserve, Starting, Bijective, RoutesOwn, IdsIssued;
    StartOutcome(w, c, env);
    if Startable(w.db, c) && env.reachable && env.sendOk {
      var w1 := w.(db := Starting(w.db, c));
      StartingSamePorts(w, c);
      SamePortsKeep(w, w1);
      OwnRouteKeeps(w1, Finish(w, StartRead(c), env), c);
    }
  }

  lemma StartingSamePorts(w: World, c: Cid)
    requires c in w.db.rows
    ensures SamePorts(w, w.(db := Starting(w.db, c)))
    ensures RouteOf(c, Starting(w.db, c).rows[c]) == RouteOf(c, w.db.rows[c])
  {
  }

  lemma OwnRouteKeeps(w: World, w': World, c: Cid)
    requires PortsOk(w) && c in w.db.rows && w'.db == w.db && w'.log.issued == w.log.issued
    requires w'.routes == if w.db.rows[c].ext == 0 then w.routes
                          else w.routes[w.db.rows[c].ext := RouteOf(c, w.db.rows[c])]
    ensures PortsOk(w')
  {
  }

  lemma StopKeepsPorts(w: World, c: Cid, env: Env)
    requires PortsOk(w)
    ensures PortsOk(Finish(w, StopRead(c), env))
  {
    hide Finish, Step;
    StopOutcome(w, c, env);
    if c in w.db.rows && env.reachable && env.sendOk {
      var docker := w.db.rows[c].docker;
      SamePortsKeep(w, w.(db := FreeGpus(SetState(w.db, c, docker, "stopping", "stopping"), c)));
    }
  }

  /** A delete that reaches its agent removes row, reservations, port and route; otherwise nothing changes. */
  lemma DeleteOutcome(w: World, c: Cid, env: Env)
    ensures var w' := Finish(w, DeleteRead(c), env);
      if c in w.db.rows && env.reachable && env.sendOk
      then var p := w.db.rows[c].ext;
           && w'.db == (if p == 0 then DeleteRow(w.db, c) else FreePort(DeleteRow(w.db, c), p))
           && w'.routes == (if p == 0 then w.routes else w.routes - {p})
           && w'.log == Sent(w, StopCommand(c, true)).log
           && HasDeleted(w, w', c)
      else w' == w
  {
    hide Finish, Step;
    DeleteReads(w, c, env);
    if c in w.db.rows && env.reachable && env.sendOk {
      DeleteSent(w, c, w.db.rows[c], env);
      DeleteTail(Sent(w, StopCommand(c, true)), c, w.db.rows[c], env);
    }
  }

  lemma DeleteReads(w: World, c: Cid, env: Env)
    ensures Finish(w, DeleteRead(c), env)
      == if c in w.db.rows && env.reachable && env.sendOk then Finish(w, DeleteSend(c, w.db.rows[c]), env) else w
  {
    hide Apply, StepCreate;
    if c in w.db.rows {
      assert Step(w, DeleteRead(c), env) == (w, DeleteSend(c, w.db.rows[c]));
      assert Finish(w, DeleteRead(c), env) == Finish(w, DeleteSend(c, w.db.rows[c]), env);
      if !(env.reachable && env.sendOk) {
        assert Step(w, DeleteSend(c, w.db.rows[c]), env) == (w, DONE);
        assert Finish(w, DONE, env) == w;
      }
    }
  }

  lemma DeleteSent(w: World, c: Cid, row: Row, env: Env)
    requires env.reachable && env.sendOk
    ensures Finish(w, DeleteSend(c, row), env) == Finish(Sent(w, StopCommand(c, true)), Batch(AfterDelete(c, row)), env)
  {
    hide Apply, StepCreate;
    assert Step(w, DeleteSend(c, row), env) == (Sent(w, StopCommand(c, true)), Batch(AfterDelete(c, row)));
  }

  lemma DeleteTail(w: World, c: Cid, row: Row, env: Env)
    ensures var w' := Finish(w, Batch(AfterDelete(c, row)), env);
      && w'.db == (if row.ext == 0 then DeleteRow(FreeGpus(w.db, c), c)
                   else DeleteRow(FreeGpus(FreePort(w.db, row.ext), c), c))
      && w'.routes == (if row.ext == 0 then w.routes else w.routes - {row.ext}) && w'.log == w.log
      && w'.listeners == (if row.ext == 0 then w.listeners else w.listeners - {row.ext})
      && (c in w.db.rows ==>
            w'.db == if row.ext == 0 then DeleteRow(w.db, c) else FreePort(DeleteRow(w.db, c), row.ext))
  {
    FinishBatch(w, AfterDelete(c, row), env);
    var first := if row.ext != 0 then [OpUnregister(row.ext), OpFreePort(row.ext)] else [];
    assert AfterDelete(c, row) == first + [OpFreeGpus(c), OpDelete(c)];
    RunConcat(w, first, [OpFreeGpus(c), OpDelete(c)], env);
    RunTwo(RunOps(w, first, env), OpFreeGpus(c), OpDelete(c), env);
    if row.ext != 0 {
      RunTwo(w, OpUnregister(row.ext), OpFreePort(row.ext), env);
      if c in w.db.rows { FreeThenDelete(FreePort(w.db, row.ext), c); }
    } else if c in w.db.rows {
      FreeThenDelete(w.db, c);
    }
  }

  lemma DeleteKeepsPorts(w: World, c: Cid, env: Env)
    requires PortsOk(w)
    ensures PortsOk(Finish(w, DeleteRead(c), env))
  {
    hide Finish, Step;
    DeleteOutcome(w, c, env);
  }

  // ---------- Create ----------

  /**
   * A create keeps the invariant exactly when its external port was not chosen by the caller, or it
   * is not admitted, or it is rolled back and the chosen port belonged to no one.
   */
  lemma CreateKeepsPortsIff(w: World, c: Cid, req: CreateReq, env: Env)
    requires WorldOk(w) && PortsOk(w) && c !in w.log.issued
    ensures PortsOk(Serve(w, CreateCall(c, req, env)))
      <==> || req.ext == 0 || !Admitted(w.db, req, env)
           || (!PinnedHeld(w.db, req) && !env.sendOk && req.ext !in w.db.ports)
  {
    hide Admitted, PinnedHeld;
    VerdictIff(w.db, c, req, env);
    var w1 := Issue(w, c);
    var w' := Finish(w1, CreatePlan(c, req), env);
    var v := VerdictOf(w.db, c, req, env);
    CreateOutcome(w1, c, req, env);
    IssuedGrows(w, c, req, env);
    VerdictPort(w.db, c, req, env);
    if v.Rejected? {
      assert w'.db == w.db && w'.routes == w.routes;
    } else if v.SendFailed? {
      RolledBackPorts(w1, w', c, Effective(req), v.node, v.ext);
    } else if req.ext == 0 {
      AutoPortKept(w1, w', c, Effective(req), v.node, v.ext, if v.HandedOff? then v.idx else []);
    } else {
      ChosenPortBreaks(w1, w', c, Effective(req), v.node, v.ext, if v.HandedOff? then v.idx else []);
    }
  }

  /** The tables of a create that left its row behind. */
  ghost predicate RowAdded(w: World, w': World, c: Cid, req: CreateReq, n: NodeId, p: nat, idx: seq<nat>) {
    && c !in w.db.rows && (forall q :: q in w.routes ==> w.routes[q].cid != c)
    && ChosenPort(w.db, req) == Some(p)
    && w'.db.rows == w.db.rows[c := NewRow(req, n, p).(indices := idx)]
    && w'.db.ports == Inserted(w.db, c, req, n, p).ports
  }

  lemma AutoPortKept(w: World, w': World, c: Cid, req: CreateReq, n: NodeId, p: nat, idx: seq<nat>)
    requires PortsOk(w) && RowAdded(w, w', c, req, n, p, idx) && req.ext == 0 && c in w'.log.issued
    requires w'.routes == w.routes || w'.routes == RoutedCreate(w, c, req, n, p)
    requires w.log.issued <= w'.log.issued
    ensures PortsOk(w')
  {
    assert Bijective(w'.db);
    assert RoutesOwn(w'.db, w'.routes);
  }

  lemma ChosenPortBreaks(w: World, w': World, c: Cid, req: CreateReq, n: NodeId, p: nat, idx: seq<nat>)
    requires PortsOk(w) && RowAdded(w, w', c, req, n, p, idx) && req.ext != 0
    ensures !Bijective(w'.db)
  {
    assert c in w'.db.rows && w'.db.rows[c].ext == p && w'.db.ports == w.db.ports;
    assert p in w.db.ports ==> w.db.ports[p] != c;
  }

  /** A create whose send failed: the row is gone, the port row is deleted, the route may stay behind. */
  lemma RolledBackPorts(w: World, w': World, c: Cid, req: CreateReq, n: NodeId, p: nat)
    requires PortsOk(w) && c !in w.db.rows && c in w.log.issued
    requires ChosenPort(w.db, req) == Some(p)
    requires w'.db == Unallocated(w.db, c, req, p)
    requires w'.routes == RoutedCreate(w, c, req, n, p)
    requires w.log.issued <= w'.log.issued
    ensures PortsOk(w') <==> req.ext == 0 || req.ext !in w.db.ports
  {
    if req.ext == 0 || req.ext !in w.db.ports {
      assert w'.db.ports == w.db.ports;
    } else {
      var a := w.db.ports[req.ext];
      assert a in w'.db.rows && w'.db.rows[a].ext == req.ext && req.ext !in w'.db.ports;
    }
  }

  lemma IssuedGrows(w: World, c: Cid, req: CreateReq, env: Env)
    requires WorldOk(w) && c !in w.log.issued
    ensures WorldOk(Finish(Issue(w, c), CreatePlan(c, req), env))
    ensures w.log.issued + {c} <= Finish(Issue(w, c), CreatePlan(c, req), env).log.issued
  {
    SameTables(w, Issue(w, c));
    FinishKeeps(Issue(w, c), CreatePlan(c, req), env);
  }

  // ---------- Restart ----------

  /** What a restart rebuilds, read off the port table: no listing order in sight. */
  ghost predicate RebuiltFrom(db: Db, cs: set<Cid>, routes: map<nat, Route>) {
    && (forall c :: c in cs && c in db.rows && db.rows[c].ext != 0 && db.rows[c].hostPorts != [] ==>
          db.rows[c].ext in routes && routes[db.rows[c].ext] == RouteOf(c, db.rows[c]))
    && (forall p :: p in routes ==>
          && p in db.ports && db.ports[p] in cs && db.ports[p] in db.rows && db.rows[db.ports[p]].hostPorts != []
          && routes[p] == RouteOf(db.ports[p], db.rows[db.ports[p]]))
  }

  lemma {:induction false} ReboundIsExact(db: Db, order: seq<Cid>)
    requires Bijective(db)
    ensures RebuiltFrom(db, (set c | c in order), Rebound(db.rows, order))
    decreases |order|
  {
    if order != [] {
      var last := |order| - 1;
      var c := order[last];
      ReboundIsExact(db, order[..last]);
      assert (set d | d in order) == (set d | d in order[..last]) + {c};
    }
  }

  /**
   * After a restart the route table is exactly the owners' routes: every container with an external
   * port and a port mapping has its route back, also the stopped ones, and no other route is left.
   */
  lemma RestartRoutes(w: World, order: seq<Cid>, listens: set<nat>)
    requires PortsOk(w) && Enumerates(order, w.db.rows.Keys)
    ensures PortsOk(Reboot(w, order, listens))
    ensures var w' := Reboot(w, order, listens);
      && w'.db == w.db
      && w'.routes == (map p | p in w.db.ports && w.db.rows[w.db.ports[p]].hostPorts != []
                       :: Route(w.db.ports[p], w.db.rows[w.db.ports[p]].node, w.db.rows[w.db.ports[p]].hostPorts[0]))
      && w'.listeners == set p | p in w.db.ports && w.db.rows[w.db.ports[p]].hostPorts != [] && p in listens
  {
    ReboundIsExact(w.db, order);
    assert (set c | c in order) == w.db.rows.Keys;
    var routes := Rebound(w.db.rows, order);
    forall p | p in w.db.ports && w.db.rows[w.db.ports[p]].hostPorts != [] ensures p in routes {
      assert w.db.rows[w.db.ports[p]].ext == p;
    }
  }

  lemma RestartKeepsPorts(w: World, order: seq<Cid>, listens: set<nat>)
    requires PortsOk(w)
    ensures PortsOk(Reboot(w, order, listens))
  {
    ReboundIsExact(w.db, order);
  }

  // ---------- Main results ----------

  predicate AutoPort(r: Request) {
    r.CreateCall? ==> r.req.ext == 0
  }

  lemma ServeKeepsWorld(w: World, r: Request)
    requires WorldOk(w)
    ensures WorldOk(Serve(w, r))
  {
    match r
    case CreateCall(c, req, env) => if c !in w.log.issued { IssuedGrows(w, c, req, env); }
    case Call(arrival, env) => FinishKeeps(w, Initial(arrival), env);
    case NodeJoin(n) => SameTables(w, Serve(w, r));
    case NodeReport(n, report) => SameTables(w, Serve(w, r));
    case MasterRestart(order, listens) => SameTables(w, Serve(w, r));
  }

  lemma ServeKeepsPorts(w: World, r: Request)
    requires WorldOk(w) && PortsOk(w) && AutoPort(r)
    ensures PortsOk(Serve(w, r))
  {
    hide Finish, Step, Admitted, PinnedHeld;
    match r
    case CreateCall(c, req, env) => if c !in w.log.issued { CreateKeepsPortsIff(w, c, req, env); }
    case Call(arrival, env) =>
      if arrival.StartRequest? { StartKeepsPorts(w, arrival.cid, env); }
      else if arrival.StopRequest? { StopKeepsPorts(w, arrival.cid, env); }
      else if arrival.DeleteRequest? { DeleteKeepsPorts(w, arrival.cid, env); }
      else { MessageKeeps(w, arrival, env); }
    case NodeJoin(n) => SamePortsKeep(w, Serve(w, r));
    case NodeReport(n, report) => SamePortsKeep(w, Serve(w, r));
    case MasterRestart(order, listens) => RestartKeepsPorts(w, order, listens);
  }

  /**
   * Over every serial run with auto-allocated ports, `port_alloc` is a bijection with the containers
   * that have a port, and no route ever leads a port to a live container other than its owner.
   */
  lemma {:induction false} SerialPorts(rs: seq<Request>)
    requires forall i :: 0 <= i < |rs| ==> AutoPort(rs[i])
    ensures WorldOk(ServeAll(EMPTY_WORLD, rs)) && PortsOk(ServeAll(EMPTY_WORLD, rs))
    decreases |rs|
  {
    if rs != [] {
      var before := rs[..|rs| - 1];
      SerialPorts(before);
      ServeKeepsWorld(ServeAll(EMPTY_WORLD, before), rs[|rs| - 1]);
      ServeKeepsPorts(ServeAll(EMPTY_WORLD, before), rs[|rs| - 1]);
    }
  }

  // ---------- Listeners ----------

  /** What neither reserves, routes nor sends: the messages of agents. */
  ghost predicate IsMessage(t: Task) {
    t.Observe? || t.Disconnect? || t.Sweep? || (t.Batch? && forall i :: 0 <= i < |t.ops| ==> Neutral(t.ops[i]))
  }

  lemma MessageStep(w: World, t: Task, env: Env)
    requires IsMessage(t)
    ensures var (w', t') := Step(w, t, env); IsMessage(t') && w'.routes == w.routes && w'.listeners == w.listeners
  {
    hide StepCreate, SweepOps;
    if t.Sweep? {
      SweepIsNeutral(w.db.rows, env.order, t.node, t.status);
    }
  }

  lemma {:induction false} MessageTouchesNoPort(w: World, t: Task, env: Env)
    requires IsMessage(t)
    ensures Finish(w, t, env).routes == w.routes && Finish(w, t, env).listeners == w.listeners
    decreases Rank(t), if t.Batch? then |t.ops| else 0
  {
    hide Step, IsMessage;
    if t != DONE {
      StepDescends(w, t, env);
      MessageStep(w, t, env);
      MessageTouchesNoPort(Step(w, t, env).0, Step(w, t, env).1, env);
    }
  }

  lemma CallKeepsListeners(w: World, a: Arrival, env: Env)
    requires WorldOk(w) && w.listeners <= w.routes.Keys
    ensures var w' := Finish(w, Initial(a), env); w'.listeners <= w'.routes.Keys
  {
    hide Finish, Step, WorldOk, Starting, Startable;
    if a.StartRequest? {
      StartOutcome(w, a.cid, env);
    } else if a.StopRequest? {
      StopOutcome(w, a.cid, env);
    } else if a.DeleteRequest? {
      DeleteOutcome(w, a.cid, env);
    } else {
      MessageTouchesNoPort(w, Initial(a), env);
    }
  }

  lemma CreateKeepsListeners(w: World, c: Cid, req: CreateReq, env: Env)
    requires WorldOk(w) && w.listeners <= w.routes.Keys
    ensures var w' := Finish(w, CreatePlan(c, req), env); w'.listeners <= w'.routes.Keys
  {
    hide Finish, Admitted, PinnedHeld, Added, LowestFree;
    var n, p, idx := CreateLeaves(w, c, req, env);
  }

  lemma ServeKeepsListeners(w: World, r: Request)
    requires WorldOk(w) && w.listeners <= w.routes.Keys
    ensures Serve(w, r).listeners <= Serve(w, r).routes.Keys
  {
    hide Finish, Step, WorldOk;
    match r
    case CreateCall(c, req, env) =>
      if c !in w.log.issued {
        IssueKeepsWorld(w, c);
        CreateKeepsListeners(Issue(w, c), c, req, env);
      }
    case Call(arrival, env) => CallKeepsListeners(w, arrival, env);
    case NodeJoin(n) =>
    case NodeReport(n, report) =>
    case MasterRestart(order, listens) =>
  }

  lemma IssueKeepsWorld(w: World, c: Cid)
    requires WorldOk(w)
    ensures WorldOk(Issue(w, c))
  {
    SameTables(w, Issue(w, c));
  }

  /** Over every serial run, with ports chosen by callers or not, whatever listens has a route. */
  lemma {:induction false} SerialListeners(rs: seq<Request>)
    ensures var w := ServeAll(EMPTY_WORLD, rs); WorldOk(w) && w.listeners <= w.routes.Keys
    decreases |rs|
  {
    hide Serve;
    if rs != [] {
      var before := rs[..|rs| - 1];
      SerialListeners(before);
      ServeKeepsWorld(ServeAll(EMPTY_WORLD, before), rs[|rs| - 1]);
      ServeKeepsListeners(ServeAll(EMPTY_WORLD, before), rs[|rs| - 1]);
    }
  }

  /**
   * A container with a port is stopped, then started: it is listened on and routed again exactly when
   * no other container holds one of its GPUs.
   */
  lemma StopStartRebindsIff(w: World, c: Cid, stop: Env, start: Env)
    requires WorldOk(w) && c in w.db.rows && w.db.rows[c].ext != 0
    requires stop.reachable && stop.sendOk && start.reachable && start.sendOk && start.listenOk
    ensures var row := w.db.rows[c];
      var w1 := Finish(w, StopRead(c), stop);
      var w2 := Finish(w1, StartRead(c), start);
      && row.ext !in w1.listeners && row.ext !in w1.routes
      && (row.ext in w2.listeners && row.ext in w2.routes
          <==> forall i :: i in row.indices && Slot(row.node, i) in w.db.gpus ==> w.db.gpus[Slot(row.node, i)] == c)
  {
    hide Finish, Step, Starting, WorldOk;
    var row, w1 := w.db.rows[c], Finish(w, StopRead(c), stop);
    StopOutcome(w, c, stop);
    FinishKeeps(w, StopRead(c), stop);
    StartOutcome(w1, c, start);
    ListIsDistinct(w1, c);
    assert Startable(w1.db, c) <==> forall i :: i in row.indices ==> Slot(row.node, i) !in w1.db.gpus;
  }

  lemma ListIsDistinct(w: World, c: Cid)
    requires WorldOk(w) && c in w.db.rows
    ensures Distinct(w.db.rows[c].indices) && w.db.rows[c].node in w.db.nodes
  {
  }

  // ---------- Serial runs are interleavings ----------

  /** One request served on a system with nothing else in flight but creates that have ended. */
  lemma ServeIsRun(s: System, r: Request) returns (acts: seq<Action>)
    requires s.tasks == map[]
    ensures Run(s, acts).w == Serve(s.w, r) && Run(s, acts).tasks == map[]
  {
    hide Finish, Step;
    match r
    case CreateCall(c, req, env) =>
      acts := [];
      if c !in s.w.log.issued {
        var s1 := Act(s, ReceiveCreate(c, req));
        var rest := FinishCreateIsRun(s1, c, env);
        RunFromFront(s, ReceiveCreate(c, req), rest);
        acts := [ReceiveCreate(c, req)] + rest;
      }
    case Call(arrival, env) =>
      var s1 := Act(s, Receive(0, arrival));
      var rest := FinishIsRun(s1, 0, env);
      RunFromFront(s, Receive(0, arrival), rest);
      acts := [Receive(0, arrival)] + rest;
    case NodeJoin(n) =>
      acts := [NodeUp(n)];
      RunFromFront(s, NodeUp(n), []);
    case NodeReport(n, report) =>
      acts := [Metrics(n, report)];
      RunFromFront(s, Metrics(n, report), []);
    case MasterRestart(order, listens) =>
      acts := [Restart(order, listens)];
      RunFromFront(s, Restart(order, listens), []);
  }

  /** Every serial run is one of the interleavings. */
  lemma {:induction false} ServeAllIsRun(rs: seq<Request>) returns (acts: seq<Action>)
    ensures Run(INIT, acts).w == ServeAll(EMPTY_WORLD, rs) && Run(INIT, acts).tasks == map[]
    decreases |rs|
  {
    hide Serve, Act;
    acts := [];
    if rs != [] {
      var before := ServeAllIsRun(rs[..|rs| - 1]);
      var last := ServeIsRun(Run(INIT, before), rs[|rs| - 1]);
      RunThenRun(INIT, before, last);
      acts := before + last;
    }
  }

  // ---------- What interleaving breaks ----------

  /**
   * A delete that read its row earlier and sends now, in any world: it keeps the invariant exactly
   * when its port is free by now, or still its container's own.
   */
  lemma {:induction false} LateDeleteIff(w: World, c: Cid, row: Row, env: Env)
    requires PortsOk(w) && env.reachable && env.sendOk && row.ext != 0
    requires c in w.db.rows ==> w.db.rows[c].ext == row.ext
    ensures PortsOk(Finish(w, DeleteSend(c, row), env))
      <==> row.ext !in w.db.ports || w.db.ports[row.ext] == c
  {
    hide Finish, Step;
    DeleteSent(w, c, row, env);
    DeleteTail(Sent(w, StopCommand(c, true)), c, row, env);
    if row.ext in w.db.ports && w.db.ports[row.ext] != c {
      var w2, d := Finish(w, DeleteSend(c, row), env), w.db.ports[row.ext];
      assert d in w2.db.rows && w2.db.rows[d].ext == row.ext && row.ext !in w2.db.ports;
    }
  }

  // ---------- Anything served between the two halves of a delete ----------

  /** A container that is there keeps its external port, whoever else is served. */
  ghost predicate ExtKept(w: World, w': World, c: Cid) {
    && (c in w'.db.rows ==> c in w.db.rows && w'.db.rows[c].ext == w.db.rows[c].ext)
    && w.log.issued <= w'.log.issued
  }

  lemma ApplyKeepsExt(w: World, op: Op, env: Env, c: Cid)
    ensures ExtKept(w, Apply(w, op, env), c)
  {
  }

  lemma CreateKeepsExt(w: World, t: Task, env: Env, c: Cid)
    requires IsCreate(t) && t.cid != c
    ensures var (w', t') := Step(w, t, env); ExtKept(w, w', c) && (IsCreate(t') ==> t'.cid != c)
  {
    hide Apply;
    if t.CreateRoute? {
      ApplyKeepsExt(w, OpRegister(t.ext, Route(t.cid, t.node, if t.req.hostPorts == [] then 0 else t.req.hostPorts[0])), env, c);
    } else if t.CreateBind? {
      ApplyKeepsExt(w, OpBind(t.ext), env, c);
    }
  }

  lemma StepKeepsExt(w: World, t: Task, env: Env, c: Cid)
    requires IsCreate(t) ==> t.cid != c
    ensures var (w', t') := Step(w, t, env); ExtKept(w, w', c) && (IsCreate(t') ==> t'.cid != c)
  {
    hide Apply, StepCreate;
    if IsCreate(t) {
      CreateKeepsExt(w, t, env, c);
    } else if t.Batch? && t.ops != [] {
      ApplyKeepsExt(w, t.ops[0], env, c);
    }
  }

  lemma {:induction false} FinishKeepsExt(w: World, t: Task, env: Env, c: Cid)
    requires IsCreate(t) ==> t.cid != c
    ensures ExtKept(w, Finish(w, t, env), c)
    decreases Rank(t), if t.Batch? then |t.ops| else 0
  {
    hide Step;
    if t != DONE {
      StepDescends(w, t, env);
      StepKeepsExt(w, t, env, c);
      FinishKeepsExt(Step(w, t, env).0, Step(w, t, env).1, env, c);
    }
  }

  lemma ServeKeepsExt(w: World, r: Request, c: Cid)
    requires c in w.log.issued
    ensures ExtKept(w, Serve(w, r), c)
  {
    hide Finish, Step;
    match r
    case CreateCall(d, req, env) =>
      if d !in w.log.issued { FinishKeepsExt(Issue(w, d), CreatePlan(d, req), env, c); }
    case Call(arrival, env) => FinishKeepsExt(w, Initial(arrival), env, c);
    case NodeJoin(n) =>
    case NodeReport(n, report) =>
    case MasterRestart(order, listens) =>
  }

  lemma {:induction false} ServeAllKeeps(w: World, rs: seq<Request>, c: Cid)
    requires WorldOk(w) && PortsOk(w) && c in w.log.issued
    requires forall i :: 0 <= i < |rs| ==> AutoPort(rs[i])
    ensures WorldOk(ServeAll(w, rs)) && PortsOk(ServeAll(w, rs)) && ExtKept(w, ServeAll(w, rs), c)
    decreases |rs|
  {
    hide Serve, WorldOk, PortsOk;
    if rs != [] {
      var before, r := rs[..|rs| - 1], rs[|rs| - 1];
      ServeAllKeeps(w, before, c);
      ServeKeepsWorld(ServeAll(w, before), r);
      ServeKeepsPorts(ServeAll(w, before), r);
      ServeKeepsExt(ServeAll(w, before), r, c);
    }
  }

  /**
   * A delete reads its row, anything at all is served, then the delete sends. The invariant survives
   * exactly when by then the port is free or still belongs to the container deleted.
   */
  lemma OverlappingDeleteIff(w: World, c: Cid, rs: seq<Request>, env: Env)
    requires WorldOk(w) && PortsOk(w) && c in w.db.rows && w.db.rows[c].ext != 0
    requires forall i :: 0 <= i < |rs| ==> AutoPort(rs[i])
    requires env.reachable && env.sendOk
    ensures var row, w2 := w.db.rows[c], ServeAll(w, rs);
      && Step(w, DeleteRead(c), env) == (w, DeleteSend(c, row))
      && (PortsOk(Finish(w2, DeleteSend(c, row), env)) <==> row.ext !in w2.db.ports || w2.db.ports[row.ext] == c)
  {
    hide Finish, Serve, ServeAll, Apply, StepCreate;
    ServeAllKeeps(w, rs, c);
    LateDeleteIff(ServeAll(w, rs), c, w.db.rows[c], env);
  }

  /** A create on a known node that wants a port and no GPU, and is sent. */
  predicate PlainCreate(w: World, req: CreateReq, mid: Env) {
    && req.node.Some? && req.node.value in w.db.nodes && req.res.gpu == 0 && req.indices == []
    && req.hostPorts != [] && req.ext == 0 && mid.reachable && mid.sendOk
  }

  /** No free port is smaller than this one. */
  predicate NextFree(ports: map<nat, Cid>, p: nat) {
    forall q :: PORT_MIN <= q < p ==> q in ports
  }

  /** Such a create is handed the least port of the range. */
  lemma PlainVerdict(w: World, d: Cid, req: CreateReq, mid: Env, p: nat)
    requires PlainCreate(w, req, mid) && d !in w.db.rows
    requires PORT_MIN <= p <= PORT_MAX && p !in w.db.ports && NextFree(w.db.ports, p)
    ensures VerdictOf(w.db, d, req, mid) == HandedOff(req.node.value, p, [])
  {
    var least := LeastFree(w.db.ports, PORT_MIN, PORT_MAX);
    assert least == Some(p);
    assert Validated(req) == Some(req);
    assert Target(req, w.db.nodes, w.db, mid.pick) == req.node;
  }

  /** A delete that is sent frees the port for the next create. */
  lemma DeleteFreesPort(w: World, c: Cid, first: Env, req: CreateReq, mid: Env)
    requires WorldOk(w) && PortsOk(w) && c in w.db.rows && w.db.rows[c].ext != 0
    requires first.reachable && first.sendOk
    requires PlainCreate(w, req, mid) && NextFree(w.db.ports, w.db.rows[c].ext)
    ensures var w1, p := Serve(w, Call(DeleteRequest(c), first)), w.db.rows[c].ext;
      && WorldOk(w1) && PortsOk(w1) && w1.log.issued == w.log.issued
      && PlainCreate(w1, req, mid) && PORT_MIN <= p <= PORT_MAX && p !in w1.db.ports && NextFree(w1.db.ports, p)
  {
    hide Finish, Step, WorldOk, RoutesOwn;
    DeleteOutcome(w, c, first);
    DeleteKeepsPorts(w, c, first);
    FinishKeeps(w, DeleteRead(c), first);
  }

  /** A plain create takes the least port. */
  lemma PlainTakesPort(w: World, d: Cid, req: CreateReq, mid: Env, p: nat)
    requires WorldOk(w) && PortsOk(w) && d !in w.log.issued && PlainCreate(w, req, mid)
    requires PORT_MIN <= p <= PORT_MAX && p !in w.db.ports && NextFree(w.db.ports, p)
    ensures var w2 := Serve(w, CreateCall(d, req, mid)); d in w2.db.rows && w2.db.rows[d].ext == p
  {
    hide Finish, Step, VerdictOf, RoutesOwn, Bijective, AllOrNothing, CommandsAgree;
    PlainVerdict(w, d, req, mid, p);
    CreateOutcome(Issue(w, d), d, req, mid);
  }

  /** A create that takes over the port of a container just deleted. */
  lemma ReusedPort(w: World, c: Cid, first: Env, d: Cid, req: CreateReq, mid: Env)
    requires WorldOk(w) && PortsOk(w) && c in w.db.rows && w.db.rows[c].ext != 0
    requires first.reachable && first.sendOk
    requires d !in w.log.issued && PlainCreate(w, req, mid) && NextFree(w.db.ports, w.db.rows[c].ext)
    ensures var w2 := Serve(Serve(w, Call(DeleteRequest(c), first)), CreateCall(d, req, mid));
      PortsOk(w2) && d != c && d in w2.db.rows && w2.db.rows[d].ext == w.db.rows[c].ext
  {
    hide Serve, WorldOk, Bijective, RoutesOwn;
    var w1 := Serve(w, Call(DeleteRequest(c), first));
    DeleteFreesPort(w, c, first, req, mid);
    PlainTakesPort(w1, d, req, mid, w.db.rows[c].ext);
    ServeKeepsPorts(w1, CreateCall(d, req, mid));
  }

  /**
   * Two deletes of one container: the first runs to its end and a create reuses the port before the
   * second proceeds. The second then frees the port of the new container.
   */
  lemma {:induction false} InterleavedDeletesBreak(w: World, c: Cid, first: Env, d: Cid, req: CreateReq, mid: Env, second: Env)
    requires WorldOk(w) && PortsOk(w) && c in w.db.rows && w.db.rows[c].ext != 0
    requires first.reachable && first.sendOk && second.reachable && second.sendOk
    requires d !in w.log.issued && PlainCreate(w, req, mid) && NextFree(w.db.ports, w.db.rows[c].ext)
    ensures var w2 := ServeAll(w, [Call(DeleteRequest(c), first), CreateCall(d, req, mid)]);
      PortsOk(w2) && !PortsOk(Finish(w2, DeleteSend(c, w.db.rows[c]), second))
  {
    hide Finish, Serve, Apply, StepCreate;
    var rs := [Call(DeleteRequest(c), first), CreateCall(d, req, mid)];
    ReusedPort(w, c, first, d, req, mid);
    ServeTwo(w, rs[0], rs[1]);
    OverlappingDeleteIff(w, c, rs, second);
  }

  lemma ServeTwo(w: World, first: Request, second: Request)
    ensures ServeAll(w, [first, second]) == Serve(Serve(w, first), second)
  {
    hide Serve;
    assert [first, second][..1] == [first] && [first][..0] == [];
    assert ServeAll(w, [first]) == Serve(ServeAll(w, []), first);
  }
}
