/** Whole requests: what create, start, stop and a disconnect sweep leave behind, also when they fail. */
module Lifecycle {
  import opened Tables
  import opened Scheduler
  import opened ControlPlane
  import opened GpuSafety

  // ---------- Running one task to its end ----------

  lemma GrowsTransitive(w0: World, w1: World, w2: World, own: set<Cid>)
    requires Grows(w0, w1, own) && Grows(w1, w2, own)
    ensures Grows(w0, w2, own)
  {
  }

  lemma GrowsMore(w0: World, w1: World, a: set<Cid>, b: set<Cid>)
    requires Grows(w0, w1, a) && a <= b
    ensures Grows(w0, w1, b)
  {
  }

  lemma StepDescends(w: World, t: Task, env: Env)
    requires t != DONE
    ensures var t' := Step(w, t, env).1;
      Rank(t') < Rank(t) || (t.Batch? && t'.Batch? && |t'.ops| < |t.ops|)
  {
    hide Apply;
  }

  lemma {:induction false} FinishKeeps(w: World, t: Task, env: Env)
    requires WorldOk(w) && TaskOk(w, t)
    ensures WorldOk(Finish(w, t, env)) && Grows(w, Finish(w, t, env), Own(t))
    decreases Rank(t), if t.Batch? then |t.ops| else 0
  {
    hide WorldOk, TaskOk, Step;
    if t != DONE {
      var (w', t') := Step(w, t, env);
      StepDescends(w, t, env);
      StepKeeps(w, t, env);
      FinishKeeps(w', t', env);
      GrowsMore(w', Finish(w', t', env), Own(t'), Own(t));
      GrowsTransitive(w, w', Finish(w', t', env), Own(t));
    }
  }

  lemma {:induction false} RunFromFront(s: System, a: Action, rest: seq<Action>)
    ensures Run(s, [a] + rest) == Run(Act(s, a), rest)
    decreases |rest|
  {
    var all := [a] + rest;
    if rest == [] {
      assert all[..0] == [] && Run(s, []) == s;
    } else {
      var k := |rest| - 1;
      RunFromFront(s, a, rest[..k]);
      assert all[..|all| - 1] == [a] + rest[..k] && all[|all| - 1] == rest[k];
    }
  }

  lemma {:induction false} RunThenRun(s: System, a: seq<Action>, b: seq<Action>)
    ensures Run(s, a + b) == Run(Run(s, a), b)
    decreases |b|
  {
    hide Act;
    if b == [] {
      assert a + b == a;
    } else {
      var k := |b| - 1;
      RunThenRun(s, a, b[..k]);
      assert (a + b)[..|a + b| - 1] == a + b[..k] && (a + b)[|a + b| - 1] == b[k];
    }
  }

  /** A task run alone to its end is one particular interleaving: its own steps back to back. */
  lemma {:induction false} FinishIsRun(s: System, k: nat, env: Env) returns (acts: seq<Action>)
    requires k in s.tasks
    ensures Run(s, acts).w == Finish(s.w, s.tasks[k], env)
    ensures s.tasks[k] != DONE ==> Run(s, acts).tasks == s.tasks - {k}
    ensures Run(s, acts).creates == s.creates
    ensures forall i :: 0 <= i < |acts| ==> acts[i] == Advance(k, env)
    decreases Rank(s.tasks[k]), if s.tasks[k].Batch? then |s.tasks[k].ops| else 0
  {
    hide Step;
    acts := [];
    if s.tasks[k] != DONE {
      StepDescends(s.w, s.tasks[k], env);
      var s1 := Act(s, Advance(k, env));
      var (w', t') := Step(s.w, s.tasks[k], env);
      assert s1.w == w' && Finish(s.w, s.tasks[k], env) == Finish(w', t', env);
      if t' == DONE {
        assert Finish(w', DONE, env) == w';
        acts := [Advance(k, env)];
        RunFromFront(s, Advance(k, env), []);
      } else {
        var rest := FinishIsRun(s1, k, env);
        acts := [Advance(k, env)] + rest;
        RunFromFront(s, Advance(k, env), rest);
        assert s1.tasks - {k} == s.tasks - {k};
      }
    }
  }

  /** So is a create, which the system keeps apart from the other tasks. */
  lemma {:induction false} FinishCreateIsRun(s: System, c: Cid, env: Env) returns (acts: seq<Action>)
    requires c in s.creates
    ensures Run(s, acts).w == Finish(s.w, s.creates[c], env) && Run(s, acts).tasks == s.tasks
    ensures forall i :: 0 <= i < |acts| ==> acts[i] == AdvanceCreate(c, env)
    decreases Rank(s.creates[c]), if s.creates[c].Batch? then |s.creates[c].ops| else 0
  {
    hide Step;
    acts := [];
    if s.creates[c] != DONE {
      StepDescends(s.w, s.creates[c], env);
      var s1 := Act(s, AdvanceCreate(c, env));
      var rest := FinishCreateIsRun(s1, c, env);
      acts := [AdvanceCreate(c, env)] + rest;
      RunFromFront(s, AdvanceCreate(c, env), rest);
    }
  }

  /** A batch run to its end. */
  function RunOps(w: World, ops: seq<Op>, env: Env): World
    decreases |ops|
  {
    if ops == [] then w else RunOps(Apply(w, ops[0], env), ops[1..], env)
  }

  lemma {:induction false} FinishBatch(w: World, ops: seq<Op>, env: Env)
    ensures Finish(w, Batch(ops), env) == RunOps(w, ops, env)
    decreases |ops|
  {
    if ops != [] {
      FinishBatch(Apply(w, ops[0], env), ops[1..], env);
      assert Step(w, Batch(ops), env) == (Apply(w, ops[0], env), Batch(ops[1..]));
    }
  }

  lemma {:induction false} RunConcat(w: World, a: seq<Op>, b: seq<Op>, env: Env)
    ensures RunOps(w, a + b, env) == RunOps(RunOps(w, a, env), b, env)
    decreases |a|
  {
    if a == [] {
      assert a + b == b;
    } else {
      var w1 := Apply(w, a[0], env);
      RunConcat(w1, a[1..], b, env);
      assert (a + b)[1..] == a[1..] + b && (a + b)[0] == a[0];
      assert RunOps(w, a + b, env) == RunOps(w1, a[1..] + b, env);
    }
  }

  lemma RunOne(w: World, a: Op, env: Env)
    ensures RunOps(w, [a], env) == Apply(w, a, env)
  {
    assert [a][1..] == [];
    assert RunOps(Apply(w, a, env), [], env) == Apply(w, a, env);
  }

  lemma RunTwo(w: World, a: Op, b: Op, env: Env)
    ensures RunOps(w, [a, b], env) == Apply(Apply(w, a, env), b, env)
  {
    assert [a, b] == [a] + [b];
    RunConcat(w, [a], [b], env);
    RunOne(w, a, env);
    RunOne(Apply(w, a, env), b, env);
  }

  // ---------- Start and stop ----------

  lemma ReserveThenFree(db: Db, n: NodeId, c: Cid, idx: seq<nat>)
    requires Held(db, c) == {}
    requires forall i :: i in idx ==> Slot(n, i) !in db.gpus
    ensures FreeGpus(Reserve(db, n, c, idx), c) == db
  {
    forall s | s in db.gpus ensures db.gpus[s] != c {
      assert s !in Held(db, c);
    }
    assert FreeGpus(Reserve(db, n, c, idx), c).gpus == db.gpus;
  }

  lemma StateRoundTrip(db: Db, c: Cid, state: string, status: string)
    requires c in db.rows
    ensures var row := db.rows[c];
      SetState(SetState(db, c, row.docker, state, status), c, row.docker, row.state, row.status) == db
  {
    var row := db.rows[c];
    var db1 := SetState(db, c, row.docker, state, status);
    assert SetState(db1, c, row.docker, row.state, row.status).rows == db.rows;
  }

  /** The tables once a start has been sent. */
  function Starting(db: Db, c: Cid): Db
    requires c in db.rows
  {
    var row := db.rows[c];
    SetState(if row.indices == [] then db else Reserve(db, row.node, c, row.indices), c, row.docker, "starting", "starting")
  }

  /** A container with a persisted list holds none of it or all of it; `WorldOk` implies it. */
  predicate HoldsOwnList(db: Db, c: Cid) {
    c in db.rows && db.rows[c].indices != [] ==>
      Held(db, c) == {} || Held(db, c) == SlotsFor(db.rows[c].node, db.rows[c].indices)
  }

  predicate Startable(db: Db, c: Cid) {
    c in db.rows && (db.rows[c].indices == [] || CanReserve(db, db.rows[c].node, c, db.rows[c].indices))
  }

  /** What a start that was sent leaves: its own list reserved, and its port routed and, if possible, bound. */
  ghost predicate HasStarted(w: World, w': World, c: Cid, listenOk: bool) {
    && c in w.db.rows
    && var row := w.db.rows[c];
    && w'.db.nodes == w.db.nodes && w'.db.ports == w.db.ports
    && w'.db.rows == w.db.rows[c := row.(state := "starting", status := "starting")]
    && Added(w.db.gpus, w'.db.gpus, row.node, c, row.indices)
    && w'.log.sent == w.log.sent + [StartCommand(c)]
    && w'.routes == (if row.ext == 0 then w.routes
                     else w.routes[row.ext := Route(c, row.node, if |row.hostPorts| == 0 then 0 else row.hostPorts[0])])
    && w'.listeners == if row.ext != 0 && listenOk then w.listeners + {row.ext} else w.listeners
  }

  /** What a stop that was sent leaves: nothing reserved, routed or bound. */
  ghost predicate HasStopped(w: World, w': World, c: Cid) {
    && c in w.db.rows
    && var row := w.db.rows[c];
    && w'.db.nodes == w.db.nodes && w'.db.ports == w.db.ports
    && w'.db.rows == w.db.rows[c := row.(state := "stopping", status := "stopping")]
    && Released(w.db.gpus, w'.db.gpus, c)
    && w'.log.sent == w.log.sent + [StopCommand(c, false)]
    && w'.routes == (if row.ext == 0 then w.routes else w.routes - {row.ext})
    && w'.listeners == if row.ext == 0 then w.listeners else w.listeners - {row.ext}
  }

  /** What a delete that was sent leaves: no row, reservation, port, route or listener. */
  ghost predicate HasDeleted(w: World, w': World, c: Cid) {
    && c in w.db.rows
    && var p := w.db.rows[c].ext;
    && w'.db.nodes == w.db.nodes && w'.db.rows == w.db.rows - {c}
    && Released(w.db.gpus, w'.db.gpus, c)
    && w'.db.ports == (if p == 0 then w.db.ports else w.db.ports - {p})
    && w'.log.sent == w.log.sent + [StopCommand(c, true)]
    && w'.routes == (if p == 0 then w.routes else w.routes - {p})
    && w'.listeners == if p == 0 then w.listeners else w.listeners - {p}
  }

  /** The tables of a start, spelt out. */
  lemma StartingMeans(db: Db, c: Cid)
    requires Startable(db, c)
    ensures var row, db' := db.rows[c], Starting(db, c);
      && db'.nodes == db.nodes && db'.ports == db.ports
      && db'.rows == db.rows[c := row.(state := "starting", status := "starting")]
      && Added(db.gpus, db'.gpus, row.node, c, row.indices)
  {
    var n, idx := db.rows[c].node, db.rows[c].indices;
    assert forall s :: s in SlotsFor(n, idx) <==> s.node == n && s.index in idx;
  }

  /** A start that cannot reserve, cannot reach the agent or cannot send leaves everything as it was. */
  lemma StartOutcome(w: World, c: Cid, env: Env)
    requires WorldOk(w)
    ensures var w' := Finish(w, StartRead(c), env);
      if Startable(w.db, c) && env.reachable && env.sendOk
      then w'.db == Starting(w.db, c) && w'.log.sent == w.log.sent + [StartCommand(c)]
           && w'.log.issued == w.log.issued
           && w'.routes == (if w.db.rows[c].ext == 0 then w.routes
                            else w.routes[w.db.rows[c].ext := RouteOf(c, w.db.rows[c])])
           && HasStarted(w, w', c, env.listenOk)
      else w' == w
  {
    hide Apply, StepCreate, HasStarted;
    if c in w.db.rows && env.reachable {
      var row := w.db.rows[c];
      assert Finish(w, StartRead(c), env) == Finish(w, StartReserve(c, row), env);
      if Startable(w.db, c) {
        var w1 := w.(db := if row.indices == [] then w.db else Reserve(w.db, row.node, c, row.indices));
        if row.indices != [] {
          ReserveKeeps(w, c, row.indices);
        }
        assert Finish(w, StartReserve(c, row), env) == Finish(w1, StartMark(c, row), env);
        StartReserved(w, w1, c, row, env);
      }
    }
  }

  /** A start from its reservation on. */
  lemma StartReserved(w: World, w1: World, c: Cid, row: Row, env: Env)
    requires WorldOk(w) && c in w.db.rows && row == w.db.rows[c]
    requires w1 == w.(db := if row.indices == [] then w.db else Reserve(w.db, row.node, c, row.indices))
    requires row.indices != [] ==> Held(w.db, c) == {} && CanReserve(w.db, row.node, c, row.indices)
    ensures var w' := Finish(w1, StartMark(c, row), env);
      if env.sendOk
      then w'.db == Starting(w.db, c) && w'.log.sent == w.log.sent + [StartCommand(c)]
           && w'.log.issued == w.log.issued
           && w'.routes == (if row.ext == 0 then w.routes else w.routes[row.ext := RouteOf(c, row)])
           && HasStarted(w, w', c, env.listenOk)
      else w' == w
  {
    hide Apply, StepCreate, WorldOk, CanReserve, Added;
    var w2 := w1.(db := SetState(w1.db, c, row.docker, "starting", "starting"));
    assert Finish(w1, StartMark(c, row), env) == Finish(w2, StartSend(c, row), env);
    if env.sendOk {
      StartTail(Sent(w2, StartCommand(c)), c, row, env);
      StartingMeans(w.db, c);
    } else {
      StartUndone(w, w1, w2, c, row, env);
    }
  }

  lemma StartTail(w: World, c: Cid, row: Row, env: Env)
    ensures Finish(w, Batch(AfterStart(c, row)), env).db == w.db
    ensures Finish(w, Batch(AfterStart(c, row)), env).log == w.log
    ensures Finish(w, Batch(AfterStart(c, row)), env).routes
      == if row.ext == 0 then w.routes else w.routes[row.ext := RouteOf(c, row)]
    ensures Finish(w, Batch(AfterStart(c, row)), env).listeners
      == if row.ext != 0 && env.listenOk then w.listeners + {row.ext} else w.listeners
  {
    if row.ext != 0 {
      RunTwo(w, AfterStart(c, row)[0], AfterStart(c, row)[1], env);
    }
    FinishBatch(w, AfterStart(c, row), env);
  }

  lemma StartUndone(w: World, w1: World, w2: World, c: Cid, row: Row, env: Env)
    requires WorldOk(w) && c in w.db.rows && row == w.db.rows[c]
    requires w1 == w.(db := if row.indices == [] then w.db else Reserve(w.db, row.node, c, row.indices))
    requires w2 == w1.(db := SetState(w1.db, c, row.docker, "starting", "starting"))
    requires row.indices != [] ==> Held(w.db, c) == {} && CanReserve(w.db, row.node, c, row.indices)
    ensures Finish(w2, Batch(UndoStart(c, row)), env) == w
  {
    hide Step, Finish;
    StateRoundTrip(w1.db, c, "starting", "starting");
    var undo := OpState(c, row.docker, row.state, row.status);
    assert Apply(w2, undo, env) == w1;
    FinishBatch(w2, UndoStart(c, row), env);
    if row.indices == [] {
      assert UndoStart(c, row) == [undo];
      RunOne(w2, undo, env);
    } else {
      assert UndoStart(c, row) == [undo, OpFreeGpus(c)];
      RunTwo(w2, undo, OpFreeGpus(c), env);
      ReserveThenFree(w.db, row.node, c, row.indices);
    }
  }

  lemma StopTail(w: World, c: Cid, row: Row, env: Env)
    ensures var w' := Finish(w, Batch(AfterStop(c, row)), env);
      && w'.db == FreeGpus(w.db, c) && w'.log == w.log
      && (row.ext != 0 ==> w'.routes == w.routes - {row.ext})
      && (row.ext == 0 ==> w'.routes == w.routes)
      && w'.listeners == if row.ext == 0 then w.listeners else w.listeners - {row.ext}
  {
    FinishBatch(w, AfterStop(c, row), env);
    if row.ext != 0 {
      assert AfterStop(c, row) == [OpUnregister(row.ext), OpFreeGpus(c)];
      RunTwo(w, OpUnregister(row.ext), OpFreeGpus(c), env);
    } else {
      assert AfterStop(c, row) == [OpFreeGpus(c)];
      RunOne(w, OpFreeGpus(c), env);
    }
  }

  lemma StateUndone(w: World, undo: Op, env: Env)
    requires undo.OpState?
    ensures Apply(w, undo, env) == w.(db := SetState(w.db, undo.cid, undo.docker, undo.state, undo.status))
  {
  }

  /** A stop that reaches its agent releases the GPUs at once; one that does not leaves everything as it was. */
  lemma StopOutcome(w: World, c: Cid, env: Env)
    ensures var w' := Finish(w, StopRead(c), env);
      if c in w.db.rows && env.reachable && env.sendOk
      then w'.db == FreeGpus(SetState(w.db, c, w.db.rows[c].docker, "stopping", "stopping"), c)
           && w'.log.sent == w.log.sent + [StopCommand(c, false)] && w'.log.issued == w.log.issued
           && (w.db.rows[c].ext != 0 ==> w'.routes == w.routes - {w.db.rows[c].ext})
           && (w.db.rows[c].ext == 0 ==> w'.routes == w.routes)
           && HasStopped(w, w', c)
      else w' == w
  {
    hide Apply, StepCreate;
    if c in w.db.rows {
      var row := w.db.rows[c];
      assert Finish(w, StopRead(c), env) == Finish(w, StopMark(c, row), env);
      var w1 := w.(db := SetState(w.db, c, row.docker, "stopping", "stopping"));
      assert Finish(w, StopMark(c, row), env) == Finish(w1, StopSend(c, row), env);
      if env.reachable && env.sendOk {
        StopTail(Sent(w1, StopCommand(c, false)), c, row, env);
      } else {
        var undo := OpState(c, row.docker, row.state, row.status);
        FinishBatch(w1, [undo], env);
        RunOne(w1, undo, env);
        StateUndone(w1, undo, env);
        StateRoundTrip(w.db, c, "stopping", "stopping");
      }
    }
  }

  // ---------- The stop-start round trip ----------

  /** Once persisted, a container's list is never replaced and its row never re-created. */
  ghost predicate Kept(w: World, c: Cid, n: NodeId, idx: seq<nat>) {
    && c in w.log.home && w.log.home[c] == n
    && c in w.log.granted && w.log.granted[c] == idx && idx != []
    && (c in w.db.rows ==> w.db.rows[c].indices == idx)
  }

  lemma ApplyKept(w: World, op: Op, env: Env, c: Cid, n: NodeId, idx: seq<nat>)
    requires Kept(w, c, n, idx)
    ensures Kept(Apply(w, op, env), c, n, idx)
  {
  }

  lemma StepKept(w: World, t: Task, env: Env, c: Cid, n: NodeId, idx: seq<nat>)
    requires Kept(w, c, n, idx) && TaskOk(w, t)
    ensures Kept(Step(w, t, env).0, c, n, idx)
  {
    if t.Batch? {
      if t.ops != [] {
        ApplyKept(w, t.ops[0], env, c, n, idx);
      }
    } else if IsCreate(t) {
      StepKeptCreate(w, t, env, c, n, idx);
    }
  }

  lemma StepKeptCreate(w: World, t: Task, env: Env, c: Cid, n: NodeId, idx: seq<nat>)
    requires Kept(w, c, n, idx) && TaskOk(w, t) && IsCreate(t)
    ensures Kept(Step(w, t, env).0, c, n, idx)
  {
  }

  lemma {:induction false} ActKept(s: System, a: Action, c: Cid, n: NodeId, idx: seq<nat>)
    requires SystemOk(s) && Kept(s.w, c, n, idx)
    ensures Kept(Act(s, a).w, c, n, idx)
  {
    if a.AdvanceCreate? && a.cid in s.creates {
      StepKept(s.w, s.creates[a.cid], a.env, c, n, idx);
    } else if a.Advance? && a.slot in s.tasks {
      StepKept(s.w, s.tasks[a.slot], a.env, c, n, idx);
    }
  }

  lemma {:induction false} RunKept(s: System, acts: seq<Action>, c: Cid, n: NodeId, idx: seq<nat>)
    requires SystemOk(s) && Kept(s.w, c, n, idx)
    ensures Kept(Run(s, acts).w, c, n, idx)
  {
    if acts != [] {
      var before, a := acts[..|acts| - 1], acts[|acts| - 1];
      RunKept(s, before, c, n, idx);
      RunKeeps(s, before);
      ActKept(Run(s, before), a, c, n, idx);
    }
  }

  /**
   * Stop, then anything at all that does not delete the container, then start: the start reserves
   * exactly the original list when none of it is held, and otherwise changes nothing.
   */
  lemma {:induction false} StopThenStart(s: System, c: Cid, stop: Env, acts: seq<Action>, start: Env)
    requires SystemOk(s) && c in s.w.db.rows && s.w.db.rows[c].indices != []
    requires stop.reachable && stop.sendOk && start.reachable && start.sendOk
    ensures var s1 := s.(w := Finish(s.w, StopRead(c), stop));
      var s2 := Run(s1, acts);
      var w3 := Finish(s2.w, StartRead(c), start);
      var n, idx := s.w.db.rows[c].node, s.w.db.rows[c].indices;
      && Held(s1.w.db, c) == {}
      && (c in s2.w.db.rows ==>
            if forall i :: i in idx ==> Slot(n, i) !in s2.w.db.gpus
            then w3.db.gpus == Reserve(s2.w.db, n, c, idx).gpus
            else w3 == s2.w)
  {
    var n, idx := s.w.db.rows[c].node, s.w.db.rows[c].indices;
    var s1 := s.(w := Finish(s.w, StopRead(c), stop));
    StopKeeps(s, c, stop);
    RunKept(s1, acts, c, n, idx);
    RunKeeps(s1, acts);
    if c in Run(s1, acts).w.db.rows {
      RestartOutcome(Run(s1, acts).w, c, n, idx, start);
    }
  }

  lemma StopKeeps(s: System, c: Cid, stop: Env)
    requires SystemOk(s) && c in s.w.db.rows && s.w.db.rows[c].indices != []
    requires stop.reachable && stop.sendOk
    ensures var s1 := s.(w := Finish(s.w, StopRead(c), stop));
      && SystemOk(s1) && Held(s1.w.db, c) == {}
      && Kept(s1.w, c, s.w.db.rows[c].node, s.w.db.rows[c].indices)
  {
    var w1 := Finish(s.w, StopRead(c), stop);
    FinishKeeps(s.w, StopRead(c), stop);
    WorldMoveKeeps(s, w1);
    StopOutcome(s.w, c, stop);
  }

  lemma RestartOutcome(w: World, c: Cid, n: NodeId, idx: seq<nat>, start: Env)
    requires WorldOk(w) && Kept(w, c, n, idx) && c in w.db.rows
    requires start.reachable && start.sendOk
    ensures var w' := Finish(w, StartRead(c), start);
      if forall i :: i in idx ==> Slot(n, i) !in w.db.gpus
      then c in w'.db.rows && w'.db.gpus == Reserve(w.db, n, c, idx).gpus && w'.db.rows[c].indices == idx
      else w' == w
  {
    StartOutcome(w, c, start);
    assert CanReserve(w.db, n, c, idx) <==> forall i :: i in idx ==> Slot(n, i) !in w.db.gpus;
  }

  // ---------- The disconnect sweep ----------

  /** The tables after sweeping the containers in `done` of a node. */
  function Swept(db: Db, done: set<Cid>, n: NodeId, status: string): Db {
    db.(rows := map c | c in db.rows :: if c in done && Transient(db.rows[c], n)
                                        then db.rows[c].(state := "error", status := status) else db.rows[c],
        gpus := map s | s in db.gpus && !(db.gpus[s] in done && db.gpus[s] in db.rows && Transient(db.rows[db.gpus[s]], n))
                  :: db.gpus[s])
  }

  lemma {:induction false} SweepPrefix(w: World, order: seq<Cid>, n: NodeId, status: string, env: Env)
    requires Distinct(order) && forall c :: c in order ==> c in w.db.rows
    ensures RunOps(w, SweepOps(w.db.rows, order, n, status), env)
      == w.(db := Swept(w.db, (set c | c in order), n, status))
    decreases |order|
  {
    var done := set c | c in order;
    if order == [] {
      SweptNone(w.db, n, status);
    } else {
      var last := |order| - 1;
      var c := order[last];
      var before := set d | d in order[..last];
      SweepPrefix(w, order[..last], n, status, env);
      RunConcat(w, SweepOps(w.db.rows, order[..last], n, status), SweepOne(w.db.rows, c, n, status), env);
      assert done == before + {c} && c !in before;
      SweepOneMore(w, before, c, n, status, env);
    }
  }

  lemma SweptNone(db: Db, n: NodeId, status: string)
    ensures Swept(db, {}, n, status) == db
  {
    assert Swept(db, {}, n, status).rows == db.rows;
    assert Swept(db, {}, n, status).gpus == db.gpus;
  }

  lemma SweepOneMore(w: World, before: set<Cid>, c: Cid, n: NodeId, status: string, env: Env)
    requires c in w.db.rows && c !in before
    ensures RunOps(w.(db := Swept(w.db, before, n, status)), SweepOne(w.db.rows, c, n, status), env)
      == w.(db := Swept(w.db, before + {c}, n, status))
  {
    var db1 := Swept(w.db, before, n, status);
    SweptOneMore(w.db, before, c, n, status);
    if Transient(w.db.rows[c], n) {
      RunTwo(w.(db := db1), OpState(c, w.db.rows[c].docker, "error", status), OpFreeGpus(c), env);
    }
  }

  lemma SweptOneMore(db: Db, before: set<Cid>, c: Cid, n: NodeId, status: string)
    requires c in db.rows && c !in before
    ensures var db1 := Swept(db, before, n, status);
      Swept(db, before + {c}, n, status)
      == if Transient(db.rows[c], n) then FreeGpus(SetState(db1, c, db.rows[c].docker, "error", status), c) else db1
  {
    var db1, db2 := Swept(db, before, n, status), Swept(db, before + {c}, n, status);
    if Transient(db.rows[c], n) {
      var db3 := FreeGpus(SetState(db1, c, db.rows[c].docker, "error", status), c);
      assert db3.rows == db2.rows;
      assert db3.gpus == db2.gpus;
    } else {
      assert db1.rows == db2.rows;
      assert db1.gpus == db2.gpus;
    }
  }

  /** The tables after a disconnect of a node. */
  function Disconnected(db: Db, n: NodeId, status: string): Db {
    Swept(SetOnline(db, n, false), db.rows.Keys, n, status)
  }

  lemma {:induction false} DisconnectUnfolds(w: World, n: NodeId, status: string, env: Env)
    ensures var w1 := w.(db := SetOnline(w.db, n, false));
      Finish(w, Disconnect(n, status), env) == Finish(w1, Batch(SweepOps(w.db.rows, env.order, n, status)), env)
  {
    hide Apply, StepCreate;
    var w1 := w.(db := SetOnline(w.db, n, false));
    assert Step(w, Disconnect(n, status), env) == (w1, Sweep(n, status));
    assert Step(w1, Sweep(n, status), env) == (w1, Batch(SweepOps(w.db.rows, env.order, n, status)));
    assert Finish(w, Disconnect(n, status), env) == Finish(w1, Sweep(n, status), env);
  }

  /** A disconnect, whatever order the rows are listed in. */
  lemma SweepOutcome(w: World, n: NodeId, status: string, env: Env)
    requires Enumerates(env.order, w.db.rows.Keys)
    ensures Finish(w, Disconnect(n, status), env) == w.(db := Disconnected(w.db, n, status))
  {
    hide Finish, Step, Swept, SweepOps;
    var w1 := w.(db := SetOnline(w.db, n, false));
    DisconnectUnfolds(w, n, status, env);
    FinishBatch(w1, SweepOps(w.db.rows, env.order, n, status), env);
    SweepPrefix(w1, env.order, n, status, env);
    assert (set c | c in env.order) == w.db.rows.Keys;
  }

  /** The node is offline, nothing on it is starting or stopping, and everything else is as it was. */
  ghost predicate Settled(db: Db, db': Db, n: NodeId, status: string) {
    var pending := set c | c in db.rows && db.rows[c].node == n && db.rows[c].state in {"starting", "stopping"};
    && db'.nodes == (if n in db.nodes then db.nodes[n := db.nodes[n].(online := false)] else db.nodes)
    && db'.rows.Keys == db.rows.Keys && db'.ports == db.ports
    && (forall c :: c in db'.rows && db'.rows[c].node == n ==> db'.rows[c].state !in {"starting", "stopping"})
    && (forall c :: c in db.rows ==>
          db'.rows[c] == if c in pending then db.rows[c].(state := "error", status := status) else db.rows[c])
    && (forall s :: s in db'.gpus <==> s in db.gpus && db.gpus[s] !in pending)
    && (forall s :: s in db'.gpus ==> db'.gpus[s] == db.gpus[s])
  }

  /**
   * After a disconnect nothing on the node is in transit: what was is in error and holds no GPU,
   * every other row and reservation is unchanged, and a second sweep changes nothing.
   */
  lemma SweepSettles(w: World, n: NodeId, status: string, again: string, env: Env, env': Env)
    requires Enumerates(env.order, w.db.rows.Keys) && Enumerates(env'.order, w.db.rows.Keys)
    ensures var w1 := Finish(w, Disconnect(n, status), env);
      && Settled(w.db, w1.db, n, status)
      && w1.routes == w.routes && w1.listeners == w.listeners
      && Finish(w1, Disconnect(n, again), env') == w1
  {
    SweepOutcome(w, n, status, env);
    var w1 := w.(db := Disconnected(w.db, n, status));
    SweptProperties(w.db, n, status);
    SweptTwice(w.db, n, status, again);
    SweepOutcome(w1, n, again, env');
  }

  lemma SweptProperties(db: Db, n: NodeId, status: string)
    ensures Settled(db, Disconnected(db, n, status), n, status)
  {
  }

  lemma {:induction false} SweptTwice(db: Db, n: NodeId, status: string, again: string)
    ensures Disconnected(Disconnected(db, n, status), n, again) == Disconnected(db, n, status)
  {
    var db1 := Disconnected(db, n, status);
    SweptProperties(db, n, status);
    assert SetOnline(db1, n, false) == db1 by {
      assert SetOnline(db1, n, false).nodes == db1.nodes;
    }
    SweptNothing(db1, n, again);
  }

  lemma SweptNothing(db: Db, n: NodeId, status: string)
    requires forall c :: c in db.rows ==> !Transient(db.rows[c], n)
    ensures Swept(db, db.rows.Keys, n, status) == db
  {
    var db' := Swept(db, db.rows.Keys, n, status);
    assert db'.rows == db.rows;
    assert db'.gpus == db.gpus;
  }
}
