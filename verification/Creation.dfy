/** createContainer from start to end: what it leaves behind for every way it can end. */
module Creation {
  import opened Tables
  import opened Scheduler
  import opened ControlPlane
  import opened GpuSafety
  import opened Lifecycle

  datatype Verdict =
    | Rejected
    | NotInserted(ext: nat)
    | NoGpus(node: NodeId, ext: nat)
    | SendFailed(node: NodeId, ext: nat)
    | HandedOff(node: NodeId, ext: nat, idx: seq<nat>)

  function ChosenPort(db: Db, req: CreateReq): Option<nat> {
    if req.ext != 0 || req.hostPorts == [] then Some(req.ext) else LeastFree(db.ports, PORT_MIN, PORT_MAX)
  }

  /** The tables once the port is allocated and the row inserted. */
  function Inserted(db: Db, c: Cid, req: CreateReq, n: NodeId, ext: nat): Db {
    db.(ports := if req.ext != 0 || req.hostPorts == [] then db.ports else db.ports[ext := c],
        rows := db.rows[c := NewRow(req, n, ext)])
  }

  /** The tables once the port of a failed create is freed again, also when the caller chose it. */
  function Unallocated(db: Db, c: Cid, req: CreateReq, ext: nat): Db {
    db.(ports := if ext == 0 then db.ports
                 else (if req.ext != 0 || req.hostPorts == [] then db.ports else db.ports[ext := c]) - {ext})
  }

  /** How a create on a settled, reachable node ends. */
  function DecideOn(db: Db, c: Cid, req: CreateReq, n: NodeId, sendOk: bool): Verdict
    requires n in db.nodes
  {
    match ChosenPort(db, req)
    case None => Rejected
    case Some(p) =>
      if c in db.rows then NotInserted(p)
      else if req.res.gpu == 0 then if sendOk then HandedOff(n, p, []) else SendFailed(n, p)
      else
        var r := GpuStep(Inserted(db, c, req, n, p), c, req, n, db.nodes[n].gpuCount);
        if r.Err? then NoGpus(n, p) else if sendOk then HandedOff(n, p, r.value.1) else SendFailed(n, p)
  }

  /** How a create ends. `req` has been validated. */
  function Decide(db: Db, c: Cid, req: CreateReq, env: Env): Verdict {
    match Target(req, db.nodes, db, env.pick)
    case None => Rejected
    case Some(n) => if env.reachable then DecideOn(db, c, req, n, env.sendOk) else Rejected
  }

  function RoutedCreate(w: World, c: Cid, req: CreateReq, n: NodeId, p: nat): map<nat, Route> {
    if p != 0 && req.hostPorts != [] then w.routes[p := RouteOf(c, NewRow(req, n, p))] else w.routes
  }

  function BoundCreate(w: World, req: CreateReq, p: nat, listenOk: bool): set<nat> {
    if p != 0 && req.hostPorts != [] && listenOk then w.listeners + {p} else w.listeners
  }

  /** Nothing routed, bound or sent. */
  ghost predicate Untouched(w: World, w': World) {
    w'.routes == w.routes && w'.listeners == w.listeners && w'.log.sent == w.log.sent
  }

  /** The tables, routes, listeners and commands a create leaves behind, by how it ended. */
  ghost predicate Left(w: World, w': World, c: Cid, req: CreateReq, v: Verdict, listenOk: bool) {
    match v
    case Rejected => w'.db == w.db && Untouched(w, w')
    case NotInserted(p) => w'.db == Unallocated(w.db, c, req, p) && Untouched(w, w')
    case NoGpus(n, p) => w'.db == Inserted(w.db, c, req, n, p) && Untouched(w, w')
    case SendFailed(n, p) =>
      && w'.db == Unallocated(w.db, c, req, p)
      && w'.routes == RoutedCreate(w, c, req, n, p)
      && w'.listeners == BoundCreate(w, req, p, listenOk)
      && w'.log.sent == w.log.sent
    case HandedOff(n, p, idx) =>
      && w'.db.nodes == w.db.nodes
      && w'.db.rows == w.db.rows[c := NewRow(req, n, p).(indices := idx)]
      && w'.db.gpus == Reserve(w.db, n, c, idx).gpus
      && w'.db.ports == Inserted(w.db, c, req, n, p).ports
      && w'.routes == RoutedCreate(w, c, req, n, p)
      && w'.listeners == BoundCreate(w, req, p, listenOk)
      && w'.log.sent == w.log.sent + [CreateCommand(c, n, idx)]
  }

  /** Releasing before deleting makes no difference: the delete cascades. */
  lemma FreeThenDelete(db: Db, c: Cid)
    requires c in db.rows
    ensures DeleteRow(FreeGpus(db, c), c) == DeleteRow(db, c)
  {
    assert FreeGpus(FreeGpus(db, c), c).gpus == FreeGpus(db, c).gpus;
  }

  lemma RollbackRuns(w: World, c: Cid, req: CreateReq, p: nat, env: Env)
    requires c in w.db.rows
    ensures Finish(w, Batch(Rollback(c, req, p)), env)
      == w.(db := if p == 0 then DeleteRow(w.db, c) else FreePort(DeleteRow(w.db, c), p))
  {
    FinishBatch(w, Rollback(c, req, p), env);
    FreeThenDelete(w.db, c);
    var free := if req.res.gpu > 0 then [OpFreeGpus(c)] else [];
    var tail := if p != 0 then [OpDelete(c), OpFreePort(p)] else [OpDelete(c)];
    assert Rollback(c, req, p) == free + tail;
    RunConcat(w, free, tail, env);
    var w1 := RunOps(w, free, env);
    RunOne(w, OpFreeGpus(c), env);
    if p != 0 {
      RunTwo(w1, OpDelete(c), OpFreePort(p), env);
    } else {
      RunOne(w1, OpDelete(c), env);
    }
  }

  /** Deleting a row just inserted, with what it reserved, restores the tables. */
  lemma InsertThenDelete(db0: Db, db: Db, c: Cid)
    requires OnOwnNode(db0) && c !in db0.rows && c in db.rows
    requires db.rows == db0.rows[c := db.rows[c]] && db.nodes == db0.nodes
    requires forall s :: s in db0.gpus ==> s in db.gpus && db.gpus[s] == db0.gpus[s]
    requires forall s :: s in db.gpus ==> s in db0.gpus || db.gpus[s] == c
    ensures DeleteRow(db, c) == db0.(ports := db.ports)
  {
    forall s | s in db0.gpus ensures db0.gpus[s] != c {
      assert db0.gpus[s] in db0.rows;
    }
    assert DeleteRow(db, c).rows == db0.rows;
    assert DeleteRow(db, c).gpus == db0.gpus;
  }

  /** The world when a create is about to send. */
  function ReadyToSend(w: World, c: Cid, req: CreateReq, n: NodeId, p: nat, idx: seq<nat>, env: Env): World
    requires c in w.db.rows
  {
    w.(db := w.db.(rows := w.db.rows[c := w.db.rows[c].(indices := idx)]),
       routes := RoutedCreate(w, c, req, n, p),
       listeners := BoundCreate(w, req, p, env.listenOk))
  }

  /** From the persisting of the list to the send. */
  lemma CreateMiddle(w: World, c: Cid, req: CreateReq, n: NodeId, p: nat, idx: seq<nat>, env: Env)
    requires c in w.db.rows && w.db.rows[c] == NewRow(req, n, p)
    ensures Finish(w, CreateRecord(c, req, n, p, idx), env)
      == Finish(ReadyToSend(w, c, req, n, p, idx, env), CreateSend(c, req, n, p, idx), env)
  {
    var w1 := if idx != [] then w.(db := SetIndices(w.db, c, idx)) else w;
    assert w1.db.rows == w.db.rows[c := w.db.rows[c].(indices := idx)];
    assert Step(w, CreateRecord(c, req, n, p, idx), env) == (w1, CreateRoute(c, req, n, p, idx));
    var w2 := w1.(routes := RoutedCreate(w, c, req, n, p));
    assert Step(w1, CreateRoute(c, req, n, p, idx), env) == (w2, CreateBind(c, req, n, p, idx));
    var w3 := ReadyToSend(w, c, req, n, p, idx, env);
    assert w3.listeners == if p != 0 && req.hostPorts != [] then Apply(w2, OpBind(p), env).listeners else w2.listeners;
    assert Step(w2, CreateBind(c, req, n, p, idx), env) == (w3, CreateSend(c, req, n, p, idx));
    assert Finish(w, CreateRecord(c, req, n, p, idx), env) == Finish(w1, CreateRoute(c, req, n, p, idx), env);
    assert Finish(w1, CreateRoute(c, req, n, p, idx), env) == Finish(w2, CreateBind(c, req, n, p, idx), env);
  }

  lemma CreateSendFails(w: World, c: Cid, req: CreateReq, n: NodeId, p: nat, idx: seq<nat>, env: Env)
    requires c in w.db.rows && !env.sendOk
    ensures Finish(w, CreateSend(c, req, n, p, idx), env)
      == w.(db := if p == 0 then DeleteRow(w.db, c) else FreePort(DeleteRow(w.db, c), p))
  {
    assert Step(w, CreateSend(c, req, n, p, idx), env) == (w, Batch(Rollback(c, req, p)));
    RollbackRuns(w, c, req, p, env);
  }

  lemma CreateSendWorks(w: World, c: Cid, req: CreateReq, n: NodeId, p: nat, idx: seq<nat>, env: Env)
    requires env.sendOk
    ensures Finish(w, CreateSend(c, req, n, p, idx), env) == Sent(w, CreateCommand(c, n, idx))
  {
    assert Step(w, CreateSend(c, req, n, p, idx), env) == (Sent(w, CreateCommand(c, n, idx)), DONE);
  }

  /** What holds between the GPU step and the rest: the row is in, the list is reserved. */
  ghost predicate Reserved(w0: World, w: World, c: Cid, req: CreateReq, n: NodeId, p: nat, idx: seq<nat>) {
    && OnOwnNode(w0.db) && c !in w0.db.rows && (p == 0 ==> req.hostPorts == [])
    && w.db == Inserted(w0.db, c, req, n, p).(gpus := Reserve(w0.db, n, c, idx).gpus)
    && (forall i :: i in idx ==> Slot(n, i) !in w0.db.gpus)
    && Untouched(w0, w)
  }

  lemma CreateHandedOff(w0: World, w: World, c: Cid, req: CreateReq, n: NodeId, p: nat, idx: seq<nat>, env: Env)
    requires Reserved(w0, w, c, req, n, p, idx) && env.sendOk
    ensures Left(w0, Finish(w, CreateRecord(c, req, n, p, idx), env), c, req, HandedOff(n, p, idx), env.listenOk)
  {
    hide Finish, Step;
    CreateMiddle(w, c, req, n, p, idx, env);
    var w1 := ReadyToSend(w, c, req, n, p, idx, env);
    CreateSendWorks(w1, c, req, n, p, idx, env);
    assert w1.db.rows == w0.db.rows[c := NewRow(req, n, p).(indices := idx)];
  }

  lemma CreateRolledBack(w0: World, w: World, c: Cid, req: CreateReq, n: NodeId, p: nat, idx: seq<nat>, env: Env)
    requires Reserved(w0, w, c, req, n, p, idx) && !env.sendOk
    ensures Left(w0, Finish(w, CreateRecord(c, req, n, p, idx), env), c, req, SendFailed(n, p), env.listenOk)
  {
    hide Finish, Step;
    CreateMiddle(w, c, req, n, p, idx, env);
    var w1 := ReadyToSend(w, c, req, n, p, idx, env);
    CreateSendFails(w1, c, req, n, p, idx, env);
    assert w1.db.rows == w0.db.rows[c := w1.db.rows[c]];
    InsertThenDelete(w0.db, w1.db, c);
  }

  lemma CreateFromGpus(w0: World, w: World, c: Cid, req: CreateReq, n: NodeId, total: nat, p: nat, env: Env)
    requires OnOwnNode(w0.db) && c !in w0.db.rows && (p == 0 ==> req.hostPorts == [])
    requires w.db == Inserted(w0.db, c, req, n, p) && Untouched(w0, w)
    ensures var w', r := Finish(w, CreateGpus(c, req, n, total, p), env), GpuStep(w.db, c, req, n, total);
      Left(w0, w', c, req,
           if req.res.gpu > 0 && r.Err? then NoGpus(n, p)
           else if !env.sendOk then SendFailed(n, p)
           else HandedOff(n, p, if req.res.gpu == 0 then [] else r.value.1), env.listenOk)
  {
    hide Apply;
    var t := CreateGpus(c, req, n, total, p);
    if req.res.gpu == 0 {
      assert Step(w, t, env) == (w, CreateRecord(c, req, n, p, []));
      assert Reserve(w0.db, n, c, []).gpus == w0.db.gpus;
      if env.sendOk { CreateHandedOff(w0, w, c, req, n, p, [], env); }
      else { CreateRolledBack(w0, w, c, req, n, p, [], env); }
    } else if GpuStep(w.db, c, req, n, total).Ok? {
      var (db, idx) := GpuStep(w.db, c, req, n, total).value;
      GpuStepReserves(w.db, c, req, n, total);
      var w1 := w.(db := db, log := w.log.(granted := w.log.granted[c := idx]));
      assert Step(w, t, env) == (w1, CreateRecord(c, req, n, p, idx));
      if env.sendOk { CreateHandedOff(w0, w1, c, req, n, p, idx, env); }
      else { CreateRolledBack(w0, w1, c, req, n, p, idx, env); }
    } else {
      assert Step(w, t, env) == (w, DONE);
    }
  }

  /** From the settled node to the inserted row. */
  lemma CreateFromPort(w: World, c: Cid, req: CreateReq, n: NodeId, total: nat, p: nat, env: Env)
    requires c !in w.db.rows && n in w.db.nodes && ChosenPort(w.db, req) == Some(p)
    ensures Finish(w, CreatePort(c, req, n, total), env)
      == Finish(w.(db := Inserted(w.db, c, req, n, p)), CreateGpus(c, req, n, total, p), env)
  {
    var w1 := w.(db := Inserted(w.db, c, req, n, p).(rows := w.db.rows));
    assert Step(w, CreatePort(c, req, n, total), env) == (w1, CreateInsert(c, req, n, total, p));
    assert Step(w1, CreateInsert(c, req, n, total, p), env)
      == (w.(db := Inserted(w.db, c, req, n, p)), CreateGpus(c, req, n, total, p));
    assert Finish(w, CreatePort(c, req, n, total), env) == Finish(w1, CreateInsert(c, req, n, total, p), env);
  }

  lemma AdmitRefuses(w: World, c: Cid, req: CreateReq, env: Env)
    requires Target(req, w.db.nodes, w.db, env.pick).None? || !env.reachable
    ensures Finish(w, CreateAdmit(c, req, w.db.nodes), env) == w
  {
    assert Step(w, CreateAdmit(c, req, w.db.nodes), env) == (w, DONE);
    assert Finish(w, DONE, env) == w;
  }

  function Placed(w: World, c: Cid, n: NodeId): World {
    w.(log := w.log.(home := w.log.home[c := n]))
  }

  lemma AdmitSettles(w: World, c: Cid, req: CreateReq, n: NodeId, env: Env)
    requires Target(req, w.db.nodes, w.db, env.pick) == Some(n) && env.reachable
    ensures n in w.db.nodes
    ensures Finish(w, CreateAdmit(c, req, w.db.nodes), env)
      == Finish(Placed(w, c, n), CreatePort(c, req, n, w.db.nodes[n].gpuCount), env)
  {
    assert Step(w, CreateAdmit(c, req, w.db.nodes), env)
      == (Placed(w, c, n), CreatePort(c, req, n, w.db.nodes[n].gpuCount));
  }

  lemma PortRefuses(w: World, c: Cid, req: CreateReq, n: NodeId, total: nat, env: Env)
    requires ChosenPort(w.db, req).None?
    ensures Finish(w, CreatePort(c, req, n, total), env) == w
  {
    assert Step(w, CreatePort(c, req, n, total), env) == (w, DONE);
    assert Finish(w, DONE, env) == w;
  }

  lemma InsertRefuses(w: World, c: Cid, req: CreateReq, n: NodeId, total: nat, p: nat, env: Env)
    requires c in w.db.rows && ChosenPort(w.db, req) == Some(p)
    ensures Finish(w, CreatePort(c, req, n, total), env) == w.(db := Unallocated(w.db, c, req, p))
  {
    var w1 := w.(db := Inserted(w.db, c, req, n, p).(rows := w.db.rows));
    var ops := if p != 0 then [OpFreePort(p)] else [];
    assert Step(w, CreatePort(c, req, n, total), env) == (w1, CreateInsert(c, req, n, total, p));
    assert Step(w1, CreateInsert(c, req, n, total, p), env) == (w1, Batch(ops));
    assert Finish(w, CreatePort(c, req, n, total), env) == Finish(w1, CreateInsert(c, req, n, total, p), env);
    FinishBatch(w1, ops, env);
    RunOne(w1, OpFreePort(p), env);
  }

  /** A validated create, from admission to its end. */
  lemma CreateFromAdmit(w: World, c: Cid, req: CreateReq, env: Env)
    requires OnOwnNode(w.db)
    ensures Left(w, Finish(w, CreateAdmit(c, req, w.db.nodes), env), c, req, Decide(w.db, c, req, env), env.listenOk)
  {
    var target := Target(req, w.db.nodes, w.db, env.pick);
    if target.None? || !env.reachable {
      AdmitRefuses(w, c, req, env);
    } else {
      var n := target.value;
      AdmitSettles(w, c, req, n, env);
      var total, w1 := w.db.nodes[n].gpuCount, Placed(w, c, n);
      if ChosenPort(w.db, req).None? {
        PortRefuses(w1, c, req, n, total, env);
      } else {
        var p := ChosenPort(w.db, req).value;
        if c in w.db.rows {
          InsertRefuses(w1, c, req, n, total, p, env);
          return;
        }
        CreateFromPort(w1, c, req, n, total, p, env);
        CreateFromGpus(w, w1.(db := Inserted(w.db, c, req, n, p)), c, req, n, total, p, env);
      }
    }
  }

  function VerdictOf(db: Db, c: Cid, req: CreateReq, env: Env): Verdict {
    match Validated(req)
    case None => Rejected
    case Some(r) => Decide(db, c, r, env)
  }

  /** What a create leaves behind, for every way it can end. */
  lemma CreateOutcome(w: World, c: Cid, req: CreateReq, env: Env)
    requires OnOwnNode(w.db)
    ensures Left(w, Finish(w, CreatePlan(c, req), env), c, Effective(req), VerdictOf(w.db, c, req, env), env.listenOk)
  {
    match Validated(req)
    case None => assert Step(w, CreatePlan(c, req), env) == (w, DONE);
    case Some(r) =>
      assert Step(w, CreatePlan(c, req), env) == (w, CreateAdmit(c, r, w.db.nodes));
      assert Finish(w, CreatePlan(c, req), env) == Finish(w, CreateAdmit(c, r, w.db.nodes), env);
      CreateFromAdmit(w, c, r, env);
  }

  /** The request with its GPU count derived from pinned indices. */
  function Effective(req: CreateReq): CreateReq {
    match Validated(req)
    case None => req
    case Some(r) => r
  }

  // ---------- How a create ends, read off the request and the tables ----------

  /** The request is valid, finds its node and a port, and the node's agent is connected. */
  ghost predicate Admitted(db: Db, req: CreateReq, env: Env) {
    && env.reachable
    // A port is not wanted, or given, or free in the range.
    && (req.hostPorts == [] || req.ext != 0 || exists p :: 30000 <= p <= 32767 && p !in db.ports)
    // Pinned indices come with their node, without duplicates, and agree with the count.
    && (req.indices != [] ==>
          && req.node.Some? && (req.res.gpu == 0 || req.res.gpu == |req.indices|)
          && forall i, j :: 0 <= i < j < |req.indices| ==> req.indices[i] != req.indices[j])
    && if req.node.Some? then
         && req.node.value in db.nodes
         && (forall i :: i in req.indices ==> i < db.nodes[req.node.value].gpuCount)
         && (req.indices == [] ==>
               req.res.gpu == 0 || Usage(db, req.node.value) + req.res.gpu <= db.nodes[req.node.value].gpuCount)
       else env.pick in db.nodes && Serves(db.nodes[env.pick], Usage(db, env.pick), req.res)
  }

  /** The handler's checks, one after the other, amount to that. */
  lemma AdmittedIff(db: Db, req: CreateReq, env: Env)
    ensures Admitted(db, req, env)
      <==> && Validated(req).Some? && env.reachable && ChosenPort(db, req).Some?
           && Target(Validated(req).value, db.nodes, db, env.pick).Some?
    ensures Validated(req).Some? ==>
      Validated(req).value == req.(res := req.res.(gpu := if req.indices == [] then req.res.gpu else |req.indices|))
    ensures Admitted(db, req, env) ==>
      var p := ChosenPort(db, req).value;
      && Target(Validated(req).value, db.nodes, db, env.pick).value == (if req.node.Some? then req.node.value else env.pick)
      && if req.hostPorts == [] || req.ext != 0 then p == req.ext
         else 30000 <= p <= 32767 && p !in db.ports && forall q :: 30000 <= q < p ==> q in db.ports
  {
  }

  /** Some index the request pins is already reserved. */
  predicate PinnedHeld(db: Db, req: CreateReq) {
    req.node.Some? && exists i :: i in req.indices && Slot(req.node.value, i) in db.gpus
  }

  /** What admission counted as free, the allocator finds: an unpinned reservation never fails. */
  lemma UnpinnedSucceeds(db: Db, c: Cid, req: CreateReq, n: NodeId, pick: NodeId, p: nat)
    requires req.indices == [] && req.res.gpu > 0 && Target(req, db.nodes, db, pick) == Some(n)
    ensures n in db.nodes && GpuStep(Inserted(db, c, req, n, p), c, req, n, db.nodes[n].gpuCount).Ok?
  {
    var db1, count := Inserted(db, c, req, n, p), db.nodes[n].gpuCount;
    assert SlotsOn(db1, n) == SlotsOn(db, n);
    FreeAccounting(db1, n, count);
    FirstFreeCount(UsedOn(db1, n), 0, count, req.res.gpu);
  }

  /** A pinned reservation fails exactly when a pinned index is held. */
  lemma PinnedSucceedsIff(db: Db, c: Cid, req: CreateReq, n: NodeId, pick: NodeId, p: nat)
    requires req.indices != [] && Distinct(req.indices) && req.node.Some?
    requires Target(req, db.nodes, db, pick) == Some(n)
    ensures n in db.nodes
    ensures GpuStep(Inserted(db, c, req, n, p), c, req, n, db.nodes[n].gpuCount).Ok? <==> !PinnedHeld(db, req)
  {
    var db1 := Inserted(db, c, req, n, p);
    assert CanReserve(db1, n, c, req.indices) <==> forall i :: i in req.indices ==> Slot(n, i) !in db.gpus;
  }

  /** Every verdict, from what a caller can see before the call and whether the row and the send succeed. */
  lemma VerdictIff(db: Db, c: Cid, req: CreateReq, env: Env)
    ensures var v := VerdictOf(db, c, req, env);
      && (v.Rejected? <==> !Admitted(db, req, env))
      && (v.NotInserted? <==> Admitted(db, req, env) && c in db.rows)
      && (v.NoGpus? <==> Admitted(db, req, env) && c !in db.rows && PinnedHeld(db, req))
      && (v.SendFailed? <==> Admitted(db, req, env) && c !in db.rows && !PinnedHeld(db, req) && !env.sendOk)
      && (v.HandedOff? <==> Admitted(db, req, env) && c !in db.rows && !PinnedHeld(db, req) && env.sendOk)
  {
    AdmittedIff(db, req, env);
    if Admitted(db, req, env) {
      var r := Validated(req).value;
      var n, p := Target(r, db.nodes, db, env.pick).value, ChosenPort(db, r).value;
      assert PinnedHeld(db, r) == PinnedHeld(db, req);
      if r.indices != [] {
        PinnedSucceedsIff(db, c, r, n, env.pick, p);
      } else if r.res.gpu > 0 {
        UnpinnedSucceeds(db, c, r, n, env.pick, p);
      }
    }
  }

  /**
   * What a create leaves behind, spelt out: `n` is its node, `p` its port (0 when it has none) and
   * `idx` the list it was handed off with.
   */
  ghost predicate Leaves(w: World, w': World, c: Cid, req: CreateReq, env: Env, n: NodeId, p: nat, idx: seq<nat>) {
    if !Admitted(w.db, req, env) then
      w'.db == w.db && w'.routes == w.routes && w'.listeners == w.listeners && w'.log.sent == w.log.sent
    else
      var gpu := if req.indices == [] then req.res.gpu else |req.indices|;
      var auto := req.hostPorts != [] && req.ext == 0;
      var restored := w.db.(ports := if p == 0 then w.db.ports else w.db.ports - {p});
      var ports := if auto then w.db.ports[p := c] else w.db.ports;
      && n == (if req.node.Some? then req.node.value else env.pick) && n in w.db.nodes
      && (if auto then 30000 <= p <= 32767 && p !in w.db.ports && forall q :: 30000 <= q < p ==> q in w.db.ports
          else p == req.ext)
      && if c in w.db.rows then
           w'.db == restored && w'.routes == w.routes && w'.listeners == w.listeners && w'.log.sent == w.log.sent
         else if PinnedHeld(w.db, req) then
           && w'.db == w.db.(ports := ports, rows := w.db.rows[c := Row(n, "", "starting", "starting", req.hostPorts, gpu, [], p)])
           && w'.routes == w.routes && w'.listeners == w.listeners && w'.log.sent == w.log.sent
         else
           && w'.routes == (if req.hostPorts == [] then w.routes else w.routes[p := Route(c, n, req.hostPorts[0])])
           && w'.listeners == (if req.hostPorts != [] && env.listenOk then w.listeners + {p} else w.listeners)
           && if !env.sendOk then w'.db == restored && w'.log.sent == w.log.sent
              else
                && w'.db.nodes == w.db.nodes && w'.db.ports == ports
                && w'.db.rows == w.db.rows[c := Row(n, "", "starting", "starting", req.hostPorts, gpu, idx, p)]
                && Added(w.db.gpus, w'.db.gpus, n, c, idx) && |idx| == gpu
                && (if req.indices == [] then LowestFree(w.db.gpus, n, w.db.nodes[n].gpuCount, idx) else idx == req.indices)
                && w'.log.sent == w.log.sent + [CreateCommand(c, n, idx)]
  }

  /** The list a create that succeeds is handed off with. */
  lemma HandedOffList(db: Db, c: Cid, req: CreateReq, env: Env)
    requires VerdictOf(db, c, req, env).HandedOff?
    ensures var v, gpu := VerdictOf(db, c, req, env), if req.indices == [] then req.res.gpu else |req.indices|;
      && v.node in db.nodes && |v.idx| == gpu && (forall i :: i in v.idx ==> Slot(v.node, i) !in db.gpus)
      && if req.indices == [] then LowestFree(db.gpus, v.node, db.nodes[v.node].gpuCount, v.idx) else v.idx == req.indices
  {
    AdmittedIff(db, req, env);
    var r := Validated(req).value;
    var n, p := Target(r, db.nodes, db, env.pick).value, ChosenPort(db, r).value;
    var db1 := Inserted(db, c, r, n, p);
    assert UsedOn(db1, n) == UsedOn(db, n);
    if r.indices == [] && r.res.gpu > 0 {
      AllocLowestMeans(db1, n, c, r.res.gpu, db.nodes[n].gpuCount);
    }
  }

  lemma LeftMeans(w: World, w': World, c: Cid, req: CreateReq, env: Env) returns (n: NodeId, p: nat, idx: seq<nat>)
    requires Left(w, w', c, Effective(req), VerdictOf(w.db, c, req, env), env.listenOk)
    ensures Leaves(w, w', c, req, env, n, p, idx)
  {
    hide VerdictOf, Admitted, PinnedHeld;
    AdmittedIff(w.db, req, env);
    VerdictIff(w.db, c, req, env);
    VerdictPort(w.db, c, req, env);
    var v := VerdictOf(w.db, c, req, env);
    n, p, idx := if req.node.Some? then req.node.value else env.pick, if v.Rejected? then 0 else v.ext, if v.HandedOff? then v.idx else [];
    VerdictNode(w.db, c, req, env);
    if v.Rejected? {
    } else if v.HandedOff? {
      HandedOffList(w.db, c, req, env);
      ReservedIsAdded(w.db, n, c, idx);
    } else if v.SendFailed? || v.NotInserted? {
      assert w'.db == w.db.(ports := if p == 0 then w.db.ports else w.db.ports - {p});
    } else {
      assert v.NoGpus?;
    }
  }

  lemma ReservedIsAdded(db: Db, n: NodeId, c: Cid, idx: seq<nat>)
    requires forall i :: i in idx ==> Slot(n, i) !in db.gpus
    ensures Added(db.gpus, Reserve(db, n, c, idx).gpus, n, c, idx)
  {
    assert forall s :: s in SlotsFor(n, idx) <==> s.node == n && s.index in idx;
  }

  lemma VerdictNode(db: Db, c: Cid, req: CreateReq, env: Env)
    ensures var v, n := VerdictOf(db, c, req, env), if req.node.Some? then req.node.value else env.pick;
      && (!v.Rejected? ==> n in db.nodes)
      && (v.NoGpus? || v.SendFailed? || v.HandedOff? ==> v.node == n)
  {
    AdmittedIff(db, req, env);
  }

  /** A create leaves exactly that, whatever becomes of it. */
  lemma CreateLeaves(w: World, c: Cid, req: CreateReq, env: Env) returns (n: NodeId, p: nat, idx: seq<nat>)
    requires OnOwnNode(w.db)
    ensures Leaves(w, Finish(w, CreatePlan(c, req), env), c, req, env, n, p, idx)
  {
    hide Finish, VerdictOf, Left, Leaves;
    CreateOutcome(w, c, req, env);
    n, p, idx := LeftMeans(w, Finish(w, CreatePlan(c, req), env), c, req, env);
  }

  /**
   * A create restores the tables exactly when it is not admitted, or it is cleaned up (its row was
   * refused, or its send failed with every pinned index free) and the cleanup frees no port that the
   * caller chose and another container owns. A held pinned index fails before the cleanup is armed.
   */
  lemma FailedCreateRestores(w: World, c: Cid, req: CreateReq, env: Env)
    requires OnOwnNode(w.db)
    ensures Finish(w, CreatePlan(c, req), env).db == w.db
      <==> || !Admitted(w.db, req, env)
           || ((c in w.db.rows || (!PinnedHeld(w.db, req) && !env.sendOk))
               && (req.ext == 0 || req.ext !in w.db.ports))
  {
    hide Finish, VerdictOf, Admitted, PinnedHeld;
    CreateOutcome(w, c, req, env);
    VerdictIff(w.db, c, req, env);
    VerdictPort(w.db, c, req, env);
    var v, db' := VerdictOf(w.db, c, req, env), Finish(w, CreatePlan(c, req), env).db;
    if v.SendFailed? || v.NotInserted? {
      if req.ext == 0 || req.ext !in w.db.ports {
        assert db'.ports == w.db.ports;
      } else {
        assert req.ext !in db'.ports;
      }
    } else if !v.Rejected? {
      assert c in db'.rows && c !in w.db.rows;
    }
  }

  lemma VerdictPort(db: Db, c: Cid, req: CreateReq, env: Env)
    ensures var v := VerdictOf(db, c, req, env); !v.Rejected? ==> ChosenPort(db, Effective(req)) == Some(v.ext)
    ensures VerdictOf(db, c, req, env).NotInserted? ==> c in db.rows
    ensures Effective(req).ext == req.ext && Effective(req).hostPorts == req.hostPorts
  {
  }

  /** The tables with one GPU, held by one container. */
  function OneGpuTaken(n: NodeId, a: Cid): Db {
    Db(map[n := NEW_NODE.(gpuCount := 1)], map[a := Row(n, "", "running", "running", [], 1, [0], 0)],
       map[Slot(n, 0) := a], map[])
  }

  /** Pinning that GPU for another container leaves its row and its port behind, whatever becomes of the send. */
  lemma HeldPinLeavesRow(n: NodeId, a: Cid, c: Cid, env: Env)
    requires a != c && env.reachable
    ensures var req := CreateReq(Some(n), ResourceRequest(0.0, 0, 1), [0], [80], 0);
      var db' := Finish(EMPTY_WORLD.(db := OneGpuTaken(n, a)), CreatePlan(c, req), env).db;
      && db'.rows.Keys == {a, c} && db'.ports == map[PORT_MIN := c] && db'.gpus == map[Slot(n, 0) := a]
  {
    hide Finish, VerdictOf;
    var w, req := EMPTY_WORLD.(db := OneGpuTaken(n, a)), CreateReq(Some(n), ResourceRequest(0.0, 0, 1), [0], [80], 0);
    assert 0 in req.indices && Slot(n, 0) in w.db.gpus;
    assert LeastFree(w.db.ports, PORT_MIN, PORT_MAX) == Some(PORT_MIN);
    VerdictIff(w.db, c, req, env);
    VerdictPort(w.db, c, req, env);
    CreateOutcome(w, c, req, env);
  }
}
