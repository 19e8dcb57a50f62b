/** The store: every method runs under one lock, and the multi-row inserts run in a transaction. */
module Stores {
  import opened Tables

  const MAX_UINT32: nat := 0xFFFF_FFFF

  class Store {
    var nodes: map<NodeId, Node>
    var rows: map<Cid, Row>
    var gpus: map<Slot, Cid>
    var ports: map<nat, Cid>

    ghost function Snapshot(): Db
      reads this
    {
      Db(nodes, rows, gpus, ports)
    }

    constructor ()
      ensures Snapshot() == Db(map[], map[], map[], map[])
    {
      nodes, rows, gpus, ports := map[], map[], map[], map[];
    }

    /** Scans the cursor of reserved indices of one node into a set. */
    method ReadUsedIndices(n: NodeId) returns (used: set<nat>)
      ensures used == UsedOn(Snapshot(), n)
    {
      var cursor := set s | s in gpus && s.node == n;
      used := {};
      while cursor != {}
        invariant cursor <= SlotsOn(Snapshot(), n)
        invariant used == set s | s in SlotsOn(Snapshot(), n) && s !in cursor :: s.index
        decreases |cursor|
      {
        var s :| s in cursor;
        ghost var before := cursor;
        cursor := cursor - {s};
        used := used + {s.index};
        assert forall t :: t in SlotsOn(Snapshot(), n) && t !in cursor <==> t == s || (t in SlotsOn(Snapshot(), n) && t !in before);
      }
    }

    /** The picking loop: lowest first, at most `count`, below `total`. */
    method PickLowest(used: set<nat>, count: nat, total: nat) returns (chosen: seq<nat>)
      ensures chosen == FirstFree(used, 0, total, count)
    {
      chosen := [];
      var i := 0;
      while i < total && |chosen| < count
        invariant i <= total && |chosen| <= count
        invariant chosen + FirstFree(used, i, total, count - |chosen|) == FirstFree(used, 0, total, count)
      {
        if i !in used {
          chosen := chosen + [i];
        }
        i := i + 1;
      }
    }

    /**
     * The inserting loop of both allocators, on the transaction's private copy of the table:
     * row by row, stopping at the first unique or foreign-key failure.
     */
    method InsertAll(n: NodeId, c: Cid, idx: seq<nat>) returns (r: Result<map<Slot, Cid>>)
      requires idx != []
      ensures match AllocSpecific(Snapshot(), n, c, idx)
              case Ok(db) => r == Ok(db.gpus) && db == Snapshot().(gpus := db.gpus)
              case Err(e) => r == Err(e)
    {
      var tx := gpus;
      var k := 0;
      while k < |idx|
        invariant 0 <= k <= |idx|
        invariant k > 0 ==> n in nodes && c in rows
        invariant Distinct(idx[..k])
        invariant forall i :: i in idx[..k] ==> Slot(n, i) !in gpus
        invariant tx == Reserve(Snapshot(), n, c, idx[..k]).gpus
      {
        if Slot(n, idx[k]) in tx {
          Collision(Snapshot(), n, c, idx, k);
          return Err(Taken);
        }
        if n !in nodes || c !in rows {
          return Err(Foreign);
        }
        assert Slot(n, idx[k]) !in SlotsFor(n, idx[..k]);
        assert idx[k] !in idx[..k];
        assert idx[..k + 1] == idx[..k] + [idx[k]];
        ExtendReserve(Snapshot(), n, c, idx, k);
        tx := tx[Slot(n, idx[k]) := c];
        k := k + 1;
      }
      assert idx[..k] == idx;
      return Ok(tx);
    }

    /** Reserves the lowest free indices, or reports why not and reserves none. */
    method AllocGPUs(n: NodeId, c: Cid, count: int, total: nat) returns (r: Result<seq<nat>>)
      modifies `gpus
      ensures r != Err(Taken)
      ensures match AllocLowest(old(Snapshot()), n, c, if count <= 0 then 0 else count, total)
              case Ok((db, chosen)) => r == Ok(chosen) && Snapshot() == db
              case Err(e) => r == Err(e) && Snapshot() == old(Snapshot())
      ensures r.Ok? ==>
        && |r.value| == (if count <= 0 then 0 else count)
        && LowestFree(old(gpus), n, total, r.value) && Added(old(gpus), gpus, n, c, r.value)
      ensures r.Err? ==> gpus == old(gpus)
      ensures r == Err(Insufficient) <==> |Unreserved(old(gpus), n, total)| < count
    {
      hide LowestFree, Added, Unreserved;
      AllocLowestMeans(Snapshot(), n, c, if count <= 0 then 0 else count, total);
      if count <= 0 {
        return Ok([]);
      }
      var used := ReadUsedIndices(n);
      var chosen := PickLowest(used, count, total);
      if |chosen| < count {
        return Err(Insufficient);
      }
      FirstFreeIsDistinct(used, total, count);
      assert forall i :: i in chosen ==> Slot(n, i) !in gpus;
      assert Slot(n, chosen[0]) !in gpus;
      var tx := InsertAll(n, c, chosen);
      if tx.Err? {
        return Err(tx.error);
      }
      gpus := tx.value;
      return Ok(chosen);
    }

    /** Reserves exactly the given indices, or none of them. */
    method AllocSpecificGPUs(n: NodeId, c: Cid, idx: seq<nat>) returns (r: Result<()>)
      modifies `gpus
      ensures match AllocSpecific(old(Snapshot()), n, c, idx)
              case Ok(db) => r == Ok(()) && Snapshot() == db
              case Err(e) => r == Err(e) && Snapshot() == old(Snapshot())
      ensures r.Ok? <==> || idx == []
                         || (&& n in nodes && c in rows && (forall i :: i in idx ==> Slot(n, i) !in old(gpus))
                             && (forall i, j :: 0 <= i < j < |idx| ==> idx[i] != idx[j]))
      ensures r.Ok? ==> Added(old(gpus), gpus, n, c, idx)
      ensures r.Err? ==> gpus == old(gpus) && (n in nodes && c in rows ==> r == Err(Taken))
    {
      if |idx| == 0 {
        return Ok(());
      }
      var tx := InsertAll(n, c, idx);
      if tx.Err? {
        return Err(tx.error);
      }
      gpus := tx.value;
      return Ok(());
    }

    /** The least free port in the range, recorded for the container. */
    method AllocPort(start: nat, end: nat, c: Cid) returns (r: Option<nat>)
      requires end < MAX_UINT32
      modifies `ports
      ensures r.Some? <==> exists q :: start <= q <= end && q !in old(ports)
      ensures r.Some? ==>
        && start <= r.value <= end && r.value !in old(ports)
        && (forall q :: start <= q <= end && q !in old(ports) ==> r.value <= q)
        && ports == old(ports)[r.value := c]
      ensures r.None? ==> ports == old(ports)
      ensures r == LeastFree(old(ports), start, end)
    {
      var used := set q | q in ports && start <= q <= end;
      var p := start;
      while p <= end
        invariant start <= p <= MAX_UINT32 || p == start
        invariant forall q :: start <= q < p ==> q in ports
        invariant LeastFree(ports, p, end) == LeastFree(ports, start, end)
        decreases end + 1 - p
      {
        if p !in used {
          ports := ports[p := c];
          return Some(p);
        }
        p := p + 1;
      }
      return None;
    }

    method FreePort(p: nat)
      modifies `ports
      ensures Snapshot() == Tables.FreePort(old(Snapshot()), p)
      ensures ports == old(ports) - {p}
    {
      ports := ports - {p};
    }

    method FreeGPUs(c: Cid)
      modifies `gpus
      ensures Snapshot() == Tables.FreeGpus(old(Snapshot()), c)
      ensures forall s :: s in gpus <==> s in old(gpus) && old(gpus)[s] != c
      ensures forall s :: s in gpus ==> gpus[s] == old(gpus)[s]
    {
      gpus := map s | s in gpus && gpus[s] != c :: gpus[s];
    }

    method InsertContainer(c: Cid, row: Row) returns (ok: bool)
      modifies `rows
      ensures match InsertRow(old(Snapshot()), c, row)
              case Ok(db) => ok && Snapshot() == db
              case Err(_) => !ok && Snapshot() == old(Snapshot())
      ensures ok <==> c !in old(rows) && row.node in nodes
      ensures rows == if ok then old(rows)[c := row] else old(rows)
    {
      if c in rows || row.node !in nodes {
        return false;
      }
      rows := rows[c := row];
      return true;
    }

    method DeleteContainer(c: Cid)
      modifies `rows, `gpus
      ensures Snapshot() == DeleteRow(old(Snapshot()), c)
      ensures rows == old(rows) - {c}
      ensures forall s :: s in gpus <==> s in old(gpus) && (c in old(rows) ==> old(gpus)[s] != c)
      ensures forall s :: s in gpus ==> gpus[s] == old(gpus)[s]
    {
      if c in rows {
        FreeGPUs(c);
        rows := rows - {c};
      }
    }

    method UpdateContainerState(c: Cid, docker: string, state: string, status: string)
      modifies `rows
      ensures Snapshot() == SetState(old(Snapshot()), c, docker, state, status)
      ensures c !in old(rows) ==> rows == old(rows)
      ensures c in old(rows) ==>
        var row := old(rows)[c];
        && (docker == "" ==> rows == old(rows)[c := row.(state := state, status := status)])
        && (docker != "" ==> rows == old(rows)[c := row.(docker := docker, state := state, status := status)])
    {
      if c in rows {
        var keep := if docker == "" then rows[c].docker else docker;
        rows := rows[c := rows[c].(docker := keep, state := state, status := status)];
      }
    }

    method UpdateContainerGPUIndices(c: Cid, idx: seq<nat>)
      modifies `rows
      ensures Snapshot() == SetIndices(old(Snapshot()), c, idx)
      ensures rows == if c in old(rows) then old(rows)[c := old(rows)[c].(indices := idx)] else old(rows)
    {
      if c in rows {
        rows := rows[c := rows[c].(indices := idx)];
      }
    }

    method UpdateNodeState(n: NodeId, online: bool)
      modifies `nodes
      ensures Snapshot() == SetOnline(old(Snapshot()), n, online)
      ensures nodes == if n in old(nodes) then old(nodes)[n := old(nodes)[n].(online := online)] else old(nodes)
    {
      if n in nodes {
        nodes := nodes[n := nodes[n].(online := online)];
      }
    }

    /** ListContainers: every row once, in an order the model leaves open. */
    method ListContainers() returns (list: seq<Cid>)
      ensures Enumerates(list, rows.Keys)
    {
      list := Enumerate(rows.Keys);
    }

    /** ListNodes: every node once, in an order the model leaves open. */
    method ListNodes() returns (list: seq<NodeId>)
      ensures Enumerates(list, nodes.Keys)
    {
      list := Enumerate(nodes.Keys);
    }
  }

  method Enumerate<T(==,!new)>(s: set<T>) returns (list: seq<T>)
    ensures Enumerates(list, s)
  {
    var todo := s;
    list := [];
    while todo != {}
      invariant todo <= s
      invariant Distinct(list)
      invariant forall x :: x in list <==> x in s && x !in todo
      decreases |todo|
    {
      var x :| x in todo;
      list := list + [x];
      todo := todo - {x};
    }
  }

  lemma Collision(db: Db, n: NodeId, c: Cid, idx: seq<nat>, k: nat)
    requires k < |idx|
    requires Slot(n, idx[k]) in Reserve(db, n, c, idx[..k]).gpus
    requires k > 0 ==> n in db.nodes && c in db.rows
    ensures AllocSpecific(db, n, c, idx) == Err(Taken)
  {
    if idx[k] in idx[..k] {
      var j :| 0 <= j < k && idx[..k][j] == idx[k];
      assert idx[j] == idx[k];
      assert !Distinct(idx);
    } else {
      assert Slot(n, idx[k]) in db.gpus;
    }
  }

  lemma ExtendReserve(db: Db, n: NodeId, c: Cid, idx: seq<nat>, k: nat)
    requires k < |idx|
    ensures Reserve(db, n, c, idx[..k + 1]).gpus == Reserve(db, n, c, idx[..k]).gpus[Slot(n, idx[k]) := c]
  {
    assert idx[..k + 1] == idx[..k] + [idx[k]];
    assert SlotsFor(n, idx[..k + 1]) == SlotsFor(n, idx[..k]) + {Slot(n, idx[k])};
  }
}
