/**
 * The master as a machine. A request handler, an acknowledgement or a disconnect sweep is a `Task`
 * that advances one store operation, proxy operation or send at a time; `System` interleaves any
 * number of them. Running one task alone to its end is `Finish`.
 */
module ControlPlane {
  import opened Tables
  import opened Scheduler

  const PORT_MIN: nat := 30000
  const PORT_MAX: nat := 32767

  datatype Route = Route(cid: Cid, node: NodeId, hostPort: nat)

  /** What the master has sent to agents. */
  datatype Command =
    | CreateCommand(cid: Cid, node: NodeId, devices: seq<nat>)
    | StartCommand(cid: Cid)
    | StopCommand(cid: Cid, remove: bool)

  /**
   * History, which no step reads: ids handed out, the node and the GPU list each create settled on,
   * and the commands sent.
   */
  datatype Log = Log(issued: set<Cid>, home: map<Cid, NodeId>, granted: map<Cid, seq<nat>>, sent: seq<Command>)

  datatype World = World(db: Db, routes: map<nat, Route>, listeners: set<nat>, log: Log)

  datatype CreateReq = CreateReq(
    node: Option<NodeId>,
    res: ResourceRequest,
    indices: seq<nat>,
    hostPorts: seq<nat>,
    ext: nat)

  /** The outcomes a step cannot decide itself. */
  datatype Env = Env(pick: NodeId, reachable: bool, sendOk: bool, listenOk: bool, order: seq<Cid>)

  /** An operation whose effect depends on nothing its handler still holds. */
  datatype Op =
    | OpState(cid: Cid, docker: string, state: string, status: string)
    | OpFreeGpus(cid: Cid)
    | OpDelete(cid: Cid)
    | OpFreePort(port: nat)
    | OpRegister(port: nat, route: Route)
    | OpBind(port: nat)
    | OpUnregister(port: nat)

  datatype Task =
    | CreatePlan(cid: Cid, req: CreateReq)
    | CreateAdmit(cid: Cid, req: CreateReq, nodes: map<NodeId, Node>)
    | CreatePort(cid: Cid, req: CreateReq, node: NodeId, total: nat)
    | CreateInsert(cid: Cid, req: CreateReq, node: NodeId, total: nat, ext: nat)
    | CreateGpus(cid: Cid, req: CreateReq, node: NodeId, total: nat, ext: nat)
    | CreateRecord(cid: Cid, req: CreateReq, node: NodeId, ext: nat, idx: seq<nat>)
    | CreateRoute(cid: Cid, req: CreateReq, node: NodeId, ext: nat, idx: seq<nat>)
    | CreateBind(cid: Cid, req: CreateReq, node: NodeId, ext: nat, idx: seq<nat>)
    | CreateSend(cid: Cid, req: CreateReq, node: NodeId, ext: nat, idx: seq<nat>)
    | StartRead(cid: Cid)
    | StartReserve(cid: Cid, row: Row)
    | StartMark(cid: Cid, row: Row)
    | StartSend(cid: Cid, row: Row)
    | StopRead(cid: Cid)
    | StopMark(cid: Cid, row: Row)
    | StopSend(cid: Cid, row: Row)
    | DeleteRead(cid: Cid)
    | DeleteSend(cid: Cid, row: Row)
    | Observe(cid: Cid, docker: string, action: string, state: string, status: string)
    | Disconnect(node: NodeId, status: string)
    | Sweep(node: NodeId, status: string)
    | Batch(ops: seq<Op>)

  const DONE: Task := Batch([])

  // ---------- Single operations ----------

  function Apply(w: World, op: Op, env: Env): World {
    match op
    case OpState(c, docker, state, status) => w.(db := SetState(w.db, c, docker, state, status))
    case OpFreeGpus(c) => w.(db := FreeGpus(w.db, c))
    case OpDelete(c) => w.(db := DeleteRow(w.db, c))
    case OpFreePort(p) => w.(db := FreePort(w.db, p))
    case OpRegister(p, route) => w.(routes := w.routes[p := route])
    case OpBind(p) => if p !in w.listeners && env.listenOk then w.(listeners := w.listeners + {p}) else w
    case OpUnregister(p) => w.(routes := w.routes - {p}, listeners := w.listeners - {p})
  }

  // ---------- createContainer ----------

  /** The up-front validation of pinned indices; the GPU count is then derived from them. */
  function Validated(req: CreateReq): Option<CreateReq> {
    if req.indices == [] then Some(req)
    else if req.node.None? || !Distinct(req.indices) || (req.res.gpu != 0 && req.res.gpu != |req.indices|) then None
    else Some(req.(res := req.res.(gpu := |req.indices|)))
  }

  /** The node the request settles on, from a listing of nodes and the current usage. */
  function Target(req: CreateReq, nodes: map<NodeId, Node>, db: Db, pick: NodeId): Option<NodeId> {
    match req.node
    case Some(n) =>
      if n !in nodes || (exists i :: i in req.indices && i >= nodes[n].gpuCount) then None
      else if req.res.gpu > 0 && req.indices == [] && FreeOn(nodes[n].gpuCount, Usage(db, n)) < req.res.gpu then None
      else Some(n)
    case None =>
      if pick in nodes && Eligible(nodes[pick], Usage(db, pick), req.res) then Some(pick) else None
  }

  function NewRow(req: CreateReq, node: NodeId, ext: nat): Row {
    Row(node, "", "starting", "starting", req.hostPorts, req.res.gpu, [], ext)
  }

  function GpuStep(db: Db, cid: Cid, req: CreateReq, node: NodeId, total: nat): Result<(Db, seq<nat>)> {
    if req.indices != [] then
      match AllocSpecific(db, node, cid, req.indices)
      case Ok(db') => Ok((db', req.indices))
      case Err(e) => Err(e)
    else AllocLowest(db, node, cid, req.res.gpu, total)
  }

  function Rollback(cid: Cid, req: CreateReq, ext: nat): seq<Op> {
    (if req.res.gpu > 0 then [OpFreeGpus(cid)] else []) + [OpDelete(cid)]
    + (if ext != 0 then [OpFreePort(ext)] else [])
  }

  function StepCreate(w: World, t: Task, env: Env): (World, Task)
    requires t.CreatePlan? || t.CreateAdmit? || t.CreatePort? || t.CreateInsert? || t.CreateGpus?
             || t.CreateRecord? || t.CreateRoute? || t.CreateBind? || t.CreateSend?
  {
    match t
    case CreatePlan(cid, req) =>
      (match Validated(req)
       case None => (w, DONE)
       case Some(r) => (w, CreateAdmit(cid, r, w.db.nodes)))
    case CreateAdmit(cid, req, nodes) =>
      (match Target(req, nodes, w.db, env.pick)
       case None => (w, DONE)
       case Some(n) =>
         if !env.reachable || n !in nodes then (w, DONE)
         else (w.(log := w.log.(home := w.log.home[cid := n])), CreatePort(cid, req, n, nodes[n].gpuCount)))
    case CreatePort(cid, req, n, total) =>
      if req.ext != 0 || req.hostPorts == [] then (w, CreateInsert(cid, req, n, total, req.ext))
      else
        (match LeastFree(w.db.ports, PORT_MIN, PORT_MAX)
         case None => (w, DONE)
         case Some(p) => (w.(db := w.db.(ports := w.db.ports[p := cid])), CreateInsert(cid, req, n, total, p)))
    case CreateInsert(cid, req, n, total, ext) =>
      (match InsertRow(w.db, cid, NewRow(req, n, ext))
       case Ok(db) => (w.(db := db), CreateGpus(cid, req, n, total, ext))
       case Err(_) => (w, Batch(if ext != 0 then [OpFreePort(ext)] else [])))
    case CreateGpus(cid, req, n, total, ext) =>
      if req.res.gpu == 0 then (w, CreateRecord(cid, req, n, ext, []))
      else
        (match GpuStep(w.db, cid, req, n, total)
         case Ok((db, idx)) =>
           (w.(db := db, log := w.log.(granted := w.log.granted[cid := idx])), CreateRecord(cid, req, n, ext, idx))
         case Err(_) => (w, DONE))
    case CreateRecord(cid, req, n, ext, idx) =>
      (if idx != [] then w.(db := SetIndices(w.db, cid, idx)) else w, CreateRoute(cid, req, n, ext, idx))
    case CreateRoute(cid, req, n, ext, idx) =>
      (if ext != 0 && req.hostPorts != [] then Apply(w, OpRegister(ext, Route(cid, n, req.hostPorts[0])), env) else w,
       CreateBind(cid, req, n, ext, idx))
    case CreateBind(cid, req, n, ext, idx) =>
      (if ext != 0 && req.hostPorts != [] then Apply(w, OpBind(ext), env) else w, CreateSend(cid, req, n, ext, idx))
    case CreateSend(cid, req, n, ext, idx) =>
      if env.sendOk then (Sent(w, CreateCommand(cid, n, idx)), DONE)
      else (w, Batch(Rollback(cid, req, ext)))
  }

  function Sent(w: World, cmd: Command): World {
    w.(log := w.log.(sent := w.log.sent + [cmd]))
  }

  // ---------- startContainer, stopContainer, deleteContainer ----------

  /** The route of a container: its node and its first host port. */
  function RouteOf(cid: Cid, row: Row): Route {
    Route(cid, row.node, if row.hostPorts == [] then 0 else row.hostPorts[0])
  }

  function AfterStart(cid: Cid, row: Row): seq<Op> {
    if row.ext == 0 then [] else [OpRegister(row.ext, RouteOf(cid, row)), OpBind(row.ext)]
  }

  function UndoStart(cid: Cid, row: Row): seq<Op> {
    [OpState(cid, row.docker, row.state, row.status)] + if row.indices != [] then [OpFreeGpus(cid)] else []
  }

  function AfterStop(cid: Cid, row: Row): seq<Op> {
    (if row.ext != 0 then [OpUnregister(row.ext)] else []) + [OpFreeGpus(cid)]
  }

  function AfterDelete(cid: Cid, row: Row): seq<Op> {
    (if row.ext != 0 then [OpUnregister(row.ext), OpFreePort(row.ext)] else []) + [OpFreeGpus(cid), OpDelete(cid)]
  }

  // ---------- Messages from agents ----------

  /** The docker actions after which the master releases a container's GPUs. */
  predicate TerminalGpuAction(action: string) {
    action in {"die", "stop", "kill", "destroy"}
  }

  /** The transient containers of a node, in listing order: mark as error, then release. */
  function SweepOps(rows: map<Cid, Row>, order: seq<Cid>, node: NodeId, status: string): seq<Op> {
    if order == [] then []
    else
      var last := |order| - 1;
      SweepOps(rows, order[..last], node, status) + SweepOne(rows, order[last], node, status)
  }

  predicate Transient(row: Row, node: NodeId) {
    row.node == node && (row.state == "starting" || row.state == "stopping")
  }

  function SweepOne(rows: map<Cid, Row>, c: Cid, node: NodeId, status: string): seq<Op> {
    if c in rows && Transient(rows[c], node)
    then [OpState(c, rows[c].docker, "error", status), OpFreeGpus(c)]
    else []
  }

  // ---------- One step of a task ----------

  function Step(w: World, t: Task, env: Env): (World, Task) {
    match t
    case StartRead(c) => (w, if c in w.db.rows && env.reachable then StartReserve(c, w.db.rows[c]) else DONE)
    case StartReserve(c, row) =>
      (match AllocSpecific(w.db, row.node, c, row.indices)
       case Ok(db) => (w.(db := db), StartMark(c, row))
       case Err(_) => (w, DONE))
    case StartMark(c, row) => (w.(db := SetState(w.db, c, row.docker, "starting", "starting")), StartSend(c, row))
    case StartSend(c, row) =>
      if env.sendOk then (Sent(w, StartCommand(c)), Batch(AfterStart(c, row))) else (w, Batch(UndoStart(c, row)))
    case StopRead(c) => (w, if c in w.db.rows then StopMark(c, w.db.rows[c]) else DONE)
    case StopMark(c, row) => (w.(db := SetState(w.db, c, row.docker, "stopping", "stopping")), StopSend(c, row))
    case StopSend(c, row) =>
      if env.reachable && env.sendOk then (Sent(w, StopCommand(c, false)), Batch(AfterStop(c, row)))
      else (w, Batch([OpState(c, row.docker, row.state, row.status)]))
    case DeleteRead(c) => (w, if c in w.db.rows then DeleteSend(c, w.db.rows[c]) else DONE)
    case DeleteSend(c, row) =>
      if env.reachable && env.sendOk then (Sent(w, StopCommand(c, true)), Batch(AfterDelete(c, row)))
      else (w, DONE)
    case Observe(c, docker, action, state, status) =>
      (w, if c.id == "" || state == "" || c !in w.db.rows then DONE
          else Batch([OpState(c, docker, state, status)]
                     + if TerminalGpuAction(action) then [OpFreeGpus(c)] else []))
    case Disconnect(n, status) => (w.(db := SetOnline(w.db, n, false)), Sweep(n, status))
    case Sweep(n, status) => (w, Batch(SweepOps(w.db.rows, env.order, n, status)))
    case Batch(ops) => if ops == [] then (w, t) else (Apply(w, ops[0], env), Batch(ops[1..]))
    case _ => StepCreate(w, t, env)
  }

  // ---------- One task alone ----------

  function Rank(t: Task): nat {
    match t
    case Batch(_) => 0
    case CreateSend(_, _, _, _, _) => 1
    case CreateBind(_, _, _, _, _) => 2
    case CreateRoute(_, _, _, _, _) => 3
    case CreateRecord(_, _, _, _, _) => 4
    case CreateGpus(_, _, _, _, _) => 5
    case CreateInsert(_, _, _, _, _) => 6
    case CreatePort(_, _, _, _) => 7
    case CreateAdmit(_, _, _) => 8
    case CreatePlan(_, _) => 9
    case StartSend(_, _) => 1
    case StartMark(_, _) => 2
    case StartReserve(_, _) => 3
    case StartRead(_) => 4
    case StopSend(_, _) => 1
    case StopMark(_, _) => 2
    case StopRead(_) => 3
    case DeleteSend(_, _) => 1
    case DeleteRead(_) => 2
    case Observe(_, _, _, _, _) => 1
    case Sweep(_, _) => 1
    case Disconnect(_, _) => 2
  }

  /** The remaining steps of a task with nothing in between. */
  function Finish(w: World, t: Task, env: Env): World
    decreases Rank(t), if t.Batch? then |t.ops| else 0
  {
    if t == DONE then w
    else
      var (w', t') := Step(w, t, env);
      Finish(w', t', env)
  }

  // ---------- Many tasks ----------

  /** A request or message that starts a task. */
  datatype Arrival =
    | StartRequest(cid: Cid)
    | StopRequest(cid: Cid)
    | DeleteRequest(cid: Cid)
    | Created(cid: Cid, docker: string, error: string)
    | Started(cid: Cid, docker: string, error: string)
    | Stopped(cid: Cid, docker: string, error: string)
    | StateChanged(cid: Cid, docker: string, action: string, state: string, status: string)
    | Lost(node: NodeId, reason: string)

  function Outcome(cid: Cid, docker: string, error: string, good: string): Op {
    if error != "" then OpState(cid, docker, "error", error) else OpState(cid, docker, good, good)
  }

  function Initial(a: Arrival): Task {
    match a
    case StartRequest(c) => StartRead(c)
    case StopRequest(c) => StopRead(c)
    case DeleteRequest(c) => DeleteRead(c)
    case Created(c, docker, error) =>
      Batch((if error != "" then [OpFreeGpus(c)] else []) + [Outcome(c, docker, error, "running")])
    case Started(c, docker, error) =>
      Batch((if error != "" then [OpFreeGpus(c)] else []) + [Outcome(c, docker, error, "running")])
    case Stopped(c, docker, error) => Batch([Outcome(c, docker, error, "exited")])
    case StateChanged(c, docker, action, state, status) => Observe(c, docker, action, state, status)
    case Lost(n, reason) => Disconnect(n, "agent disconnected: " + reason)
  }

  /** In-flight creates, keyed by the id each minted, and all other in-flight tasks. */
  datatype System = System(w: World, creates: map<Cid, Task>, tasks: map<nat, Task>)

  datatype Action =
    | ReceiveCreate(cid: Cid, req: CreateReq)
    | Receive(slot: nat, arrival: Arrival)
    | AdvanceCreate(cid: Cid, env: Env)
    | Advance(slot: nat, env: Env)
    | NodeUp(node: NodeId)
    | Metrics(node: NodeId, report: Node)
    | Restart(order: seq<Cid>, listens: set<nat>)

  const NEW_NODE: Node := Node(true, 0.0, 0, 0, 0, 0, 0, 0, 0.0)

  /** The route table rebuilt from the container rows, in listing order. */
  function Rebound(rows: map<Cid, Row>, order: seq<Cid>): map<nat, Route> {
    if order == [] then map[]
    else
      var last := |order| - 1;
      var c := order[last];
      var before := Rebound(rows, order[..last]);
      if c in rows && rows[c].ext != 0 && rows[c].hostPorts != []
      then before[rows[c].ext := RouteOf(c, rows[c])]
      else before
  }

  /** A restart loses every task and listener and keeps the database. */
  function Reboot(w: World, order: seq<Cid>, listens: set<nat>): World {
    var routes := Rebound(w.db.rows, order);
    w.(routes := routes, listeners := routes.Keys * listens)
  }

  function Act(s: System, a: Action): System {
    match a
    case ReceiveCreate(c, req) =>
      if c in s.w.log.issued then s
      else s.(w := s.w.(log := s.w.log.(issued := s.w.log.issued + {c})), creates := s.creates[c := CreatePlan(c, req)])
    case Receive(k, arrival) => if k in s.tasks then s else s.(tasks := s.tasks[k := Initial(arrival)])
    case AdvanceCreate(c, env) =>
      if c !in s.creates then s
      else
        var (w, t) := Step(s.w, s.creates[c], env);
        s.(w := w, creates := s.creates[c := t])
    case Advance(k, env) =>
      if k !in s.tasks then s
      else
        var (w, t) := Step(s.w, s.tasks[k], env);
        s.(w := w, tasks := if t == DONE then s.tasks - {k} else s.tasks[k := t])
    case NodeUp(n) =>
      var node := if n in s.w.db.nodes then s.w.db.nodes[n].(online := true) else NEW_NODE;
      s.(w := s.w.(db := s.w.db.(nodes := s.w.db.nodes[n := node])))
    case Metrics(n, report) =>
      if n !in s.w.db.nodes then s
      else s.(w := s.w.(db := s.w.db.(nodes := s.w.db.nodes[n := report.(online := s.w.db.nodes[n].online)])))
    case Restart(order, listens) => System(Reboot(s.w, order, listens), map[], map[])
  }

  function Run(s: System, acts: seq<Action>): System {
    if acts == [] then s else Act(Run(s, acts[..|acts| - 1]), acts[|acts| - 1])
  }

  const EMPTY_WORLD: World := World(Db(map[], map[], map[], map[]), map[], {}, Log({}, map[], map[], []))

  const INIT: System := System(EMPTY_WORLD, map[], map[])
}
