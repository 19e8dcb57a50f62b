/** The master's handlers as they run when nothing else does, on the store and the proxy. */
module Masters {
  import opened Tables
  import opened Scheduler
  import opened Stores
  import opened ControlPlane
  import opened Lifecycle
  import opened Creation
  import GpuSafety

  class Proxy {
    var routes: map<nat, Route>
    var listeners: set<nat>

    constructor ()
      ensures routes == map[] && listeners == {}
    {
      routes, listeners := map[], {};
    }

    method RegisterRoute(port: nat, route: Route)
      modifies `routes
      ensures routes == old(routes)[port := route]
    {
      routes := routes[port := route];
    }

    /** A second bind of a bound port fails; a first one succeeds when the listen does. */
    method BindPort(port: nat, listenOk: bool) returns (ok: bool)
      modifies `listeners
      ensures ok <==> port !in old(listeners) && listenOk
      ensures listeners == if ok then old(listeners) + {port} else old(listeners)
    {
      if port in listeners || !listenOk {
        return false;
      }
      listeners := listeners + {port};
      return true;
    }

    method UnregisterRoute(port: nat)
      modifies this
      ensures routes == old(routes) - {port} && listeners == old(listeners) - {port}
    {
      routes := routes - {port};
      listeners := listeners - {port};
    }
  }

  class Master {
    const store: Store
    const proxy: Proxy
    /** The commands sent to agents, in order. */
    var outbox: seq<Command>

    /** The master's state as the world the tasks of the control plane act on. */
    ghost function W(): World
      reads this, store, proxy
    {
      World(store.Snapshot(), proxy.routes, proxy.listeners, Log({}, map[], map[], outbox))
    }

    constructor ()
      ensures fresh(store) && fresh(proxy)
      ensures W() == EMPTY_WORLD
    {
      store := new Store();
      proxy := new Proxy();
      outbox := [];
    }

    // ---------- createContainer ----------

    /** Rejects duplicate pinned indices with a seen-set, and derives the GPU count from them. */
    method Validate(req: CreateReq) returns (r: Option<CreateReq>)
      ensures r == Validated(req)
    {
      if |req.indices| == 0 {
        return Some(req);
      }
      if req.node.None? {
        return None;
      }
      var seen: set<nat> := {};
      var k := 0;
      while k < |req.indices|
        invariant 0 <= k <= |req.indices|
        invariant forall x :: x in seen <==> x in req.indices[..k]
        invariant forall i, j :: 0 <= i < j < k ==> req.indices[i] != req.indices[j]
      {
        if req.indices[k] in seen {
          var j :| 0 <= j < k && req.indices[..k][j] == req.indices[k];
          assert req.indices[j] == req.indices[k];
          return None;
        }
        assert forall j :: 0 <= j < k ==> req.indices[j] in req.indices[..k];
        seen := seen + {req.indices[k]};
        assert req.indices[..k + 1] == req.indices[..k] + [req.indices[k]];
        k := k + 1;
      }
      if req.res.gpu != 0 && req.res.gpu != |req.indices| {
        return None;
      }
      return Some(req.(res := req.res.(gpu := |req.indices|)));
    }

    /** The pinned node after its checks, or the scheduler's choice. */
    method PickNode(req: CreateReq) returns (target: Option<NodeId>, ghost pick: NodeId)
      requires req.indices != [] ==> req.node.Some?
      ensures target == Target(req, store.nodes, store.Snapshot(), pick)
      ensures target.Some? ==> target.value in store.nodes
      ensures req.node.None? && target.None? ==>
        forall n :: n in store.nodes ==> !Serves(store.nodes[n], Usage(store.Snapshot(), n), req.res)
      ensures req.node.None? && target.Some? ==> IsSelected(store.Snapshot(), req.res, target.value)
    {
      pick := NodeId("");
      if req.node.Some? {
        var n := req.node.value;
        if n !in store.nodes {
          return None, pick;
        }
        var k := 0;
        while k < |req.indices|
          invariant 0 <= k <= |req.indices|
          invariant forall j :: 0 <= j < k ==> req.indices[j] < store.nodes[n].gpuCount
        {
          if req.indices[k] >= store.nodes[n].gpuCount {
            assert req.indices[k] in req.indices;
            return None, pick;
          }
          k := k + 1;
        }
        var used := ReservedOn(n);
        if req.res.gpu > 0 && |req.indices| == 0 && FreeOn(store.nodes[n].gpuCount, used) < req.res.gpu {
          return None, pick;
        }
        return Some(n), pick;
      }
      var list := store.ListNodes();
      ghost var db := store.Snapshot();
      var best, stats := Select(Db(store.nodes, store.rows, store.gpus, store.ports), list, req.res);
      if best.None? {
        forall n | n in store.nodes
          ensures !Serves(store.nodes[n], Usage(db, n), req.res) && !Eligible(store.nodes[n], Usage(db, n), req.res)
        {
          assert n in list;
          var i :| 0 <= i < |list| && list[i] == n;
          assert !Survives(db, req.res, list[i], 4);
        }
        return None, pick;
      }
      pick := list[best.value];
      assert Survives(db, req.res, pick, 4);
      return Some(list[best.value]), pick;
    }

    method ReservedOn(n: NodeId) returns (used: nat)
      ensures used == Usage(store.Snapshot(), n)
    {
      used := |set s | s in store.gpus && s.node == n|;
    }

    /** The GPU reservation of a create: the pinned list, or the lowest free indices. */
    method ReserveForCreate(c: Cid, req: CreateReq, n: NodeId, total: nat) returns (r: Result<seq<nat>>)
      requires req.res.gpu > 0
      modifies store`gpus
      ensures var g := GpuStep(old(store.Snapshot()), c, req, n, total);
        if g.Err? then r == Err(g.error) && store.Snapshot() == old(store.Snapshot())
        else r == Ok(g.value.1) && store.Snapshot() == g.value.0
    {
      if |req.indices| > 0 {
        var taken := store.AllocSpecificGPUs(n, c, req.indices);
        if taken.Err? {
          return Err(taken.error);
        }
        return Ok(req.indices);
      }
      r := store.AllocGPUs(n, c, req.res.gpu, total);
    }

    /** The deferred cleanup of a create that was not handed off. */
    method CleanUp(c: Cid, gpuAllocated: bool, ext: nat)
      modifies store
      ensures var db := old(store.Snapshot());
        var cleaned := if c in db.rows then DeleteRow(db, c) else if gpuAllocated then FreeGpus(db, c) else db;
        store.Snapshot() == if ext == 0 then cleaned else Tables.FreePort(cleaned, ext)
    {
      if c in store.rows {
        FreeThenDelete(store.Snapshot(), c);
      }
      if gpuAllocated {
        store.FreeGPUs(c);
      }
      store.DeleteContainer(c);
      if ext != 0 {
        store.FreePort(ext);
      }
    }

    /** Routes and binds the port, sends the command, and hands off or cleans up. */
    method Dispatch(c: Cid, req: CreateReq, n: NodeId, ext: nat, idx: seq<nat>, sendOk: bool, listenOk: bool, ghost w0: World)
      requires Reserved(w0, W(), c, req, n, ext, idx)
      modifies this`outbox, store, proxy
      ensures Left(w0, W(), c, req, if sendOk then HandedOff(n, ext, idx) else SendFailed(n, ext), listenOk)
    {
      if |idx| > 0 {
        store.UpdateContainerGPUIndices(c, idx);
      }
      assert store.rows == w0.db.rows[c := NewRow(req, n, ext).(indices := idx)];
      if ext != 0 && |req.hostPorts| > 0 {
        proxy.RegisterRoute(ext, Route(c, n, req.hostPorts[0]));
        var bound := proxy.BindPort(ext, listenOk);
      }
      assert proxy.routes == RoutedCreate(w0, c, req, n, ext);
      if !sendOk {
        InsertThenDelete(w0.db, store.Snapshot(), c);
        CleanUp(c, req.res.gpu > 0, ext);
        return;
      }
      outbox := outbox + [CreateCommand(c, n, idx)];
    }

    /** createContainer once it has settled on a node it can reach. */
    method CreateOn(c: Cid, req: CreateReq, n: NodeId, sendOk: bool, listenOk: bool)
      requires GpuSafety.OnOwnNode(store.Snapshot()) && n in store.nodes
      modifies this`outbox, store, proxy
      ensures Left(old(W()), W(), c, req, DecideOn(old(store.Snapshot()), c, req, n, sendOk), listenOk)
    {
      hide Added, LowestFree, Unreserved, AllocSpecific, AllocLowest;
      ghost var w0 := W();
      var total := store.nodes[n].gpuCount;
      var ext := req.ext;
      if ext == 0 && |req.hostPorts| > 0 {
        var p := store.AllocPort(PORT_MIN, PORT_MAX, c);
        if p.None? {
          return;
        }
        ext := p.value;
      }
      var inserted := store.InsertContainer(c, NewRow(req, n, ext));
      if !inserted {
        if ext != 0 {
          store.FreePort(ext);
        }
        return;
      }
      assert store.Snapshot() == Inserted(w0.db, c, req, n, ext);
      var idx: seq<nat> := [];
      if req.res.gpu > 0 {
        var r := ReserveForCreate(c, req, n, total);
        if r.Err? {
          return;
        }
        GpuSafety.GpuStepReserves(Inserted(w0.db, c, req, n, ext), c, req, n, total);
        idx := r.value;
      }
      assert store.gpus == Reserve(w0.db, n, c, idx).gpus;
      Dispatch(c, req, n, ext, idx, sendOk, listenOk, w0);
    }

    /** createContainer, with the id minted for it. `env.pick` is the node the scheduler settled on. */
    method CreateContainer(c: Cid, request: CreateReq, reachable: bool, sendOk: bool, listenOk: bool)
      returns (ghost env: Env)
      requires GpuSafety.OnOwnNode(store.Snapshot())
      modifies this`outbox, store, proxy
      ensures env == Env(env.pick, reachable, sendOk, listenOk, [])
      ensures Left(old(W()), W(), c, Effective(request), VerdictOf(old(store.Snapshot()), c, request, env), listenOk)
      ensures exists n, p, idx :: Leaves(old(W()), W(), c, request, env, n, p, idx)
      ensures request.node.None? && Admitted(old(store.Snapshot()), request, env) ==>
        IsSelected(old(store.Snapshot()), request.res, env.pick)
    {
      hide Left, Leaves, Admitted, VerdictOf;
      ghost var w0 := W();
      env := Env(NodeId(""), reachable, sendOk, listenOk, []);
      AdmittedIff(w0.db, request, env);
      var valid := Validate(request);
      if valid.None? {
        CreateRejected(w0, c, request, env);
        ghost var n, p, idx := LeftMeans(w0, W(), c, request, env);
        return;
      }
      ghost var pick;
      var target;
      target, pick := PickNode(valid.value);
      env := env.(pick := pick);
      AdmittedIff(w0.db, request, env);
      if target.None? || !reachable {
        CreateRejected(w0, c, request, env);
        ghost var n, p, idx := LeftMeans(w0, W(), c, request, env);
        return;
      }
      CreateOn(c, valid.value, target.value, sendOk, listenOk);
      CreateDecided(w0.db, c, request, env);
      ghost var n, p, idx := LeftMeans(w0, W(), c, request, env);
    }

    // ---------- startContainer, stopContainer, deleteContainer ----------

    method StartContainer(c: Cid, reachable: bool, sendOk: bool, listenOk: bool)
      requires HoldsOwnList(store.Snapshot(), c)
      modifies this`outbox, store, proxy
      ensures if Startable(old(store.Snapshot()), c) && reachable && sendOk
        then store.Snapshot() == Starting(old(store.Snapshot()), c) && HasStarted(old(W()), W(), c, listenOk)
        else W() == old(W())
    {
      ghost var w0 := W();
      if Startable(w0.db, c) {
        StartingMeans(w0.db, c);
      }
      if c !in store.rows || !reachable {
        return;
      }
      var row := store.rows[c];
      if |row.indices| > 0 {
        var r := store.AllocSpecificGPUs(row.node, c, row.indices);
        if r.Err? {
          return;
        }
      }
      ghost var db1 := store.Snapshot();
      store.UpdateContainerState(c, row.docker, "starting", "starting");
      if !sendOk {
        StateRoundTrip(db1, c, "starting", "starting");
        store.UpdateContainerState(c, row.docker, row.state, row.status);
        assert store.Snapshot() == db1;
        if |row.indices| > 0 {
          assert Slot(row.node, row.indices[0]) in SlotsFor(row.node, row.indices);
          assert Slot(row.node, row.indices[0]) !in Held(w0.db, c);
          ReserveThenFree(w0.db, row.node, c, row.indices);
          store.FreeGPUs(c);
        }
        return;
      }
      outbox := outbox + [StartCommand(c)];
      if row.ext != 0 {
        proxy.RegisterRoute(row.ext, RouteOf(c, row));
        var bound := proxy.BindPort(row.ext, listenOk);
      }
    }

    method StopContainer(c: Cid, reachable: bool, sendOk: bool)
      modifies this`outbox, store, proxy
      ensures if c in old(store.rows) && reachable && sendOk
        then store.Snapshot() == FreeGpus(SetState(old(store.Snapshot()), c, old(store.rows)[c].docker, "stopping", "stopping"), c)
             && HasStopped(old(W()), W(), c)
        else W() == old(W())
    {
      ghost var db0 := store.Snapshot();
      if c !in store.rows {
        return;
      }
      var row := store.rows[c];
      store.UpdateContainerState(c, row.docker, "stopping", "stopping");
      if !reachable || !sendOk {
        StateRoundTrip(db0, c, "stopping", "stopping");
        store.UpdateContainerState(c, row.docker, row.state, row.status);
        return;
      }
      outbox := outbox + [StopCommand(c, false)];
      if row.ext != 0 {
        proxy.UnregisterRoute(row.ext);
      }
      store.FreeGPUs(c);
    }

    method DeleteContainer(c: Cid, reachable: bool, sendOk: bool)
      modifies this`outbox, store, proxy
      ensures if c in old(store.rows) && reachable && sendOk
        then var p := old(store.rows)[c].ext;
             && store.Snapshot() == (if p == 0 then DeleteRow(old(store.Snapshot()), c)
                                     else Tables.FreePort(DeleteRow(old(store.Snapshot()), c), p))
             && HasDeleted(old(W()), W(), c)
        else W() == old(W())
    {
      ghost var db0 := store.Snapshot();
      if c !in store.rows {
        return;
      }
      var row := store.rows[c];
      if !reachable || !sendOk {
        return;
      }
      outbox := outbox + [StopCommand(c, true)];
      if row.ext != 0 {
        proxy.UnregisterRoute(row.ext);
        store.FreePort(row.ext);
      }
      FreeThenDelete(store.Snapshot(), c);
      store.FreeGPUs(c);
      store.DeleteContainer(c);
    }

    // ---------- Messages from agents ----------

    /** handleContainerCreated; handleContainerStarted has the same body. */
    method HandleContainerCreated(c: Cid, docker: string, error: string, ghost env: Env)
      modifies store
      ensures W() == Finish(old(W()), Initial(Created(c, docker, error)), env)
      ensures W() == Finish(old(W()), Initial(Started(c, docker, error)), env)
      ensures if error == "" then store.gpus == old(store.gpus) else Released(old(store.gpus), store.gpus, c)
      ensures Reports(old(store.rows), store.rows, c, docker,
                      if error == "" then "running" else "error", if error == "" then "running" else error)
    {
      hide Finish;
      AckOutcome(W(), c, docker, error, env);
      var state, status := "running", "running";
      if error != "" {
        state, status := "error", error;
        store.FreeGPUs(c);
      }
      store.UpdateContainerState(c, docker, state, status);
    }

    /** handleContainerStopped: no reservation is touched. */
    method HandleContainerStopped(c: Cid, docker: string, error: string, ghost env: Env)
      modifies store
      ensures W() == Finish(old(W()), Initial(Stopped(c, docker, error)), env)
      ensures store.gpus == old(store.gpus)
      ensures Reports(old(store.rows), store.rows, c, docker,
                      if error == "" then "exited" else "error", if error == "" then "exited" else error)
    {
      FinishBatch(W(), Initial(Stopped(c, docker, error)).ops, env);
      RunOne(W(), Outcome(c, docker, error, "exited"), env);
      if error != "" {
        store.UpdateContainerState(c, docker, "error", error);
      } else {
        store.UpdateContainerState(c, docker, "exited", "exited");
      }
    }

    /** handleContainerStateChanged: an unknown id or an empty state is ignored. */
    method HandleContainerStateChanged(c: Cid, docker: string, action: string, state: string, status: string, ghost env: Env)
      modifies store
      ensures W() == Finish(old(W()), Initial(StateChanged(c, docker, action, state, status)), env)
      ensures if c in old(store.rows) && c.id != "" && state != ""
        then && Reports(old(store.rows), store.rows, c, docker, state, status)
             && if action in {"die", "stop", "kill", "destroy"} then Released(old(store.gpus), store.gpus, c)
                else store.gpus == old(store.gpus)
        else W() == old(W())
    {
      hide Finish;
      ObserveOutcome(W(), c, docker, action, state, status, env);
      if c.id == "" || state == "" || c !in store.rows {
        return;
      }
      store.UpdateContainerState(c, docker, state, status);
      if TerminalGpuAction(action) {
        store.FreeGPUs(c);
      }
    }

    // ---------- Agents going away, and the master coming back ----------

    /** What the sweep does to one container. */
    method MarkLost(c: Cid, docker: string, status: string)
      modifies store`rows, store`gpus
      ensures store.Snapshot() == FreeGpus(SetState(old(store.Snapshot()), c, docker, "error", status), c)
    {
      store.UpdateContainerState(c, docker, "error", status);
      store.FreeGPUs(c);
    }

    /** handleDisconnect with its sweep over a listing taken once. */
    method HandleDisconnect(n: NodeId, status: string)
      modifies store
      ensures store.Snapshot() == Disconnected(old(store.Snapshot()), n, status)
      ensures Settled(old(store.Snapshot()), store.Snapshot(), n, status)
    {
      SweptProperties(store.Snapshot(), n, status);
      hide Swept, SetState, FreeGpus, Settled;
      ghost var db0 := store.Snapshot();
      store.UpdateNodeState(n, false);
      ghost var db1 := store.Snapshot();
      var list := store.ListContainers();
      var rows := store.rows;
      var k := 0;
      ghost var done: set<Cid> := {};
      SweptNone(db1, n, status);
      while k < |list|
        invariant 0 <= k <= |list|
        invariant forall j :: 0 <= j < |list| ==> (list[j] in done <==> j < k)
        invariant done <= db0.rows.Keys
        invariant store.Snapshot() == Swept(db1, done, n, status)
      {
        var c := list[k];
        SweptOneMore(db1, done, c, n, status);
        done := done + {c};
        if rows[c].node == n && (rows[c].state == "starting" || rows[c].state == "stopping") {
          MarkLost(c, rows[c].docker, status);
        }
        k := k + 1;
      }
      forall c | c in db0.rows ensures c in done {
        assert c in list;
      }
      assert done == db0.rows.Keys;
    }

    /** rebindExistingProxyRoutes on a fresh proxy; `listens` are the ports the host lets it bind. */
    method RebindExistingProxyRoutes(listens: set<nat>) returns (ghost order: seq<Cid>)
      requires proxy.routes == map[] && proxy.listeners == {}
      modifies proxy
      ensures Enumerates(order, store.rows.Keys)
      ensures W() == Reboot(old(W()), order, listens)
      ensures RoutesRows(store.rows, proxy.routes) && proxy.listeners == proxy.routes.Keys * listens
      ensures store.Snapshot() == old(store.Snapshot()) && outbox == old(outbox)
    {
      var list := store.ListContainers();
      order := list;
      var k := 0;
      while k < |list|
        invariant 0 <= k <= |list|
        invariant proxy.routes == Rebound(store.rows, list[..k])
        invariant proxy.listeners == proxy.routes.Keys * listens
      {
        var c := list[k];
        var row := store.rows[c];
        assert list[..k + 1][..k] == list[..k];
        k := k + 1;
        if row.ext == 0 || |row.hostPorts| == 0 {
          continue;
        }
        proxy.RegisterRoute(row.ext, RouteOf(c, row));
        var bound := proxy.BindPort(row.ext, row.ext in listens);
      }
      assert list[..k] == list;
      ReboundMeans(store.rows, list);
      assert (set c | c in list) == store.rows.Keys;
    }
  }

  // ---------- What the contracts say, spelt out ----------

  /** The node a selection among all listed nodes settles on. */
  ghost predicate IsSelected(db: Db, res: ResourceRequest, n: NodeId) {
    exists list: seq<NodeId>, i: nat ::
      Enumerates(list, db.nodes.Keys) && (forall m :: m in list ==> m in db.nodes) && Best(db, res, list, i) && list[i] == n
  }

  /** A known container's row takes the state and status, and the docker id unless that is empty. */
  ghost predicate Reports(before: map<Cid, Row>, after: map<Cid, Row>, c: Cid, docker: string, state: string, status: string) {
    if c !in before then after == before
    else if docker == "" then after == before[c := before[c].(state := state, status := status)]
    else after == before[c := before[c].(docker := docker, state := state, status := status)]
  }

  /** A route for each row with a port and a mapping, and no other. */
  ghost predicate RoutesRows(rows: map<Cid, Row>, routes: map<nat, Route>) {
    && (forall c :: c in rows && rows[c].ext != 0 && |rows[c].hostPorts| > 0 ==> rows[c].ext in routes)
    && (forall p :: p in routes ==>
          && routes[p].cid in rows
          && var row := rows[routes[p].cid];
          row.ext == p != 0 && |row.hostPorts| > 0 && routes[p].node == row.node && routes[p].hostPort == row.hostPorts[0])
  }

  lemma OneMoreRoute(rows: map<Cid, Row>, routes: map<nat, Route>, c: Cid, row: Row)
    requires RoutesRows(rows, routes) && (c in rows ==> rows[c] == row)
    ensures RoutesRows(rows[c := row],
                       if row.ext != 0 && row.hostPorts != [] then routes[row.ext := RouteOf(c, row)] else routes)
  {
  }

  lemma {:induction false} ReboundMeans(rows: map<Cid, Row>, order: seq<Cid>)
    ensures RoutesRows(map c | c in rows && c in order :: rows[c], Rebound(rows, order))
    ensures (forall c :: c in rows ==> c in order) ==> RoutesRows(rows, Rebound(rows, order))
    decreases |order|
  {
    if order != [] {
      var last := |order| - 1;
      var listed, more := map c | c in rows && c in order[..last] :: rows[c], map c | c in rows && c in order :: rows[c];
      ReboundMeans(rows, order[..last]);
      assert order == order[..last] + [order[last]];
      if order[last] in rows {
        assert more == listed[order[last] := rows[order[last]]];
        OneMoreRoute(listed, Rebound(rows, order[..last]), order[last], rows[order[last]]);
      } else {
        assert more == listed;
      }
    }
    if forall c :: c in rows ==> c in order {
      assert (map c | c in rows && c in order :: rows[c]) == rows;
    }
  }

  /** A create that fails its checks leaves everything as it was. */
  lemma CreateRejected(w: World, c: Cid, req: CreateReq, env: Env)
    requires Validated(req).None? || !env.reachable
             || Target(Validated(req).value, w.db.nodes, w.db, env.pick).None?
    ensures Left(w, w, c, Effective(req), VerdictOf(w.db, c, req, env), env.listenOk)
  {
  }

  lemma CreateDecided(db: Db, c: Cid, req: CreateReq, env: Env)
    requires Validated(req).Some? && env.reachable
    requires Target(Validated(req).value, db.nodes, db, env.pick).Some?
    ensures var r, n := Validated(req).value, Target(Validated(req).value, db.nodes, db, env.pick).value;
      n in db.nodes && VerdictOf(db, c, req, env) == DecideOn(db, c, r, n, env.sendOk) && Effective(req) == r
  {
  }

  // ---------- The messages' tasks, run to their end ----------

  lemma AckOutcome(w: World, c: Cid, docker: string, error: string, env: Env)
    ensures Finish(w, Initial(Created(c, docker, error)), env)
      == w.(db := if error != "" then SetState(FreeGpus(w.db, c), c, docker, "error", error)
                  else SetState(w.db, c, docker, "running", "running"))
    ensures Initial(Started(c, docker, error)) == Initial(Created(c, docker, error))
  {
    hide Finish, Step, SetState, FreeGpus;
    FinishBatch(w, Initial(Created(c, docker, error)).ops, env);
    if error != "" {
      RunTwo(w, OpFreeGpus(c), OpState(c, docker, "error", error), env);
    } else {
      RunOne(w, OpState(c, docker, "running", "running"), env);
    }
  }

  lemma ObserveOutcome(w: World, c: Cid, docker: string, action: string, state: string, status: string, env: Env)
    ensures Finish(w, Initial(StateChanged(c, docker, action, state, status)), env)
      == if c.id == "" || state == "" || c !in w.db.rows then w
         else w.(db := if TerminalGpuAction(action) then FreeGpus(SetState(w.db, c, docker, state, status), c)
                       else SetState(w.db, c, docker, state, status))
  {
    hide Finish, StepCreate, SetState, FreeGpus;
    var t := Observe(c, docker, action, state, status);
    var t1 := Step(w, t, env).1;
    FinishObserve(w, t, env);
    FinishBatch(w, t1.ops, env);
    if t1 != DONE {
      if TerminalGpuAction(action) {
        RunTwo(w, OpState(c, docker, state, status), OpFreeGpus(c), env);
      } else {
        RunOne(w, OpState(c, docker, state, status), env);
      }
    }
  }

  lemma FinishObserve(w: World, t: Task, env: Env)
    requires t.Observe?
    ensures Finish(w, t, env) == Finish(w, Step(w, t, env).1, env)
  {
    hide StepCreate, Apply;
  }
}
