/** The master's four tables as values, with the effect of every store operation on them. */
module Tables {

  datatype Option<+T> = None | Some(value: T)

  datatype Result<+T> = Ok(value: T) | Err(error: StoreError)

  /** `Taken` and `Insufficient` are the two sentinel errors; `Foreign` is a foreign-key failure. */
  datatype StoreError = Insufficient | Taken | Foreign

  datatype NodeId = NodeId(id: string)

  datatype Cid = Cid(id: string)

  datatype Node = Node(
    online: bool,
    cpuPercent: real,
    cpuCores: nat,
    memUsed: nat,
    memTotal: nat,
    gpuCount: nat,
    gpuMemUsed: nat,
    gpuMemTotal: nat,
    gpuUsage: real)

  /** A `containers` row. `indices` is the decoded gpu_indices_json, empty when the column is ''. */
  datatype Row = Row(
    node: NodeId,
    docker: string,
    state: string,
    status: string,
    hostPorts: seq<nat>,
    gpuCount: nat,
    indices: seq<nat>,
    ext: nat)

  /** The primary key of `gpu_alloc`. */
  datatype Slot = Slot(node: NodeId, index: nat)

  datatype Db = Db(
    nodes: map<NodeId, Node>,
    rows: map<Cid, Row>,
    gpus: map<Slot, Cid>,
    ports: map<nat, Cid>)

  // ---------- Reading ----------

  /** The rows of `gpu_alloc` for one node. */
  function SlotsOn(db: Db, n: NodeId): set<Slot> {
    set s | s in db.gpus && s.node == n
  }

  /** readUsedIndices: the reserved indices of one node. */
  function UsedOn(db: Db, n: NodeId): set<nat> {
    set s | s in db.gpus && s.node == n :: s.index
  }

  /** The rows of `gpu_alloc` for one container. */
  function Held(db: Db, c: Cid): set<Slot> {
    set s | s in db.gpus && db.gpus[s] == c
  }

  /** GPUUsageByNode, for one key: COUNT(*) of the node's rows, 0 when the node is absent. */
  function Usage(db: Db, n: NodeId): nat {
    |SlotsOn(db, n)|
  }

  function SlotsFor(n: NodeId, idx: seq<nat>): set<Slot> {
    set i | i in idx :: Slot(n, i)
  }

  predicate Distinct<T(==)>(s: seq<T>) {
    forall i, j :: 0 <= i < j < |s| ==> s[i] != s[j]
  }

  /** A listing of a table: every key once. */
  ghost predicate Enumerates<T(!new)>(list: seq<T>, keys: set<T>) {
    && (forall i, j :: 0 <= i < j < |list| ==> list[i] != list[j])
    && forall x :: x in list <==> x in keys
  }

  // ---------- GPU reservations ----------

  /** What the foreign keys and the primary key of `gpu_alloc` together demand of a list. */
  predicate CanReserve(db: Db, n: NodeId, c: Cid, idx: seq<nat>) {
    && n in db.nodes
    && c in db.rows
    && Distinct(idx)
    && forall i :: i in idx ==> Slot(n, i) !in db.gpus
  }

  function Reserve(db: Db, n: NodeId, c: Cid, idx: seq<nat>): (r: Db)
    ensures forall s :: s in r.gpus <==> s in db.gpus || s in SlotsFor(n, idx)
    ensures forall s :: s in r.gpus ==> r.gpus[s] == if s in SlotsFor(n, idx) then c else db.gpus[s]
  {
    db.(gpus := db.gpus + map s | s in SlotsFor(n, idx) :: c)
  }

  /** AllocSpecificGPUs as one atomic step. */
  function AllocSpecific(db: Db, n: NodeId, c: Cid, idx: seq<nat>): Result<Db> {
    if idx == [] then Ok(db)
    else if CanReserve(db, n, c, idx) then Ok(Reserve(db, n, c, idx))
    else if (n !in db.nodes || c !in db.rows) && Slot(n, idx[0]) !in db.gpus then Err(Foreign)
    else Err(Taken)
  }

  /** The first (at most) k indices of [i, total) that are not in `used`. */
  function FirstFree(used: set<nat>, i: nat, total: nat, k: nat): seq<nat>
    decreases total - i
  {
    if i >= total || k == 0 then []
    else if i in used then FirstFree(used, i + 1, total, k)
    else [i] + FirstFree(used, i + 1, total, k - 1)
  }

  /** AllocGPUs as one atomic step, with the indices it chose. */
  function AllocLowest(db: Db, n: NodeId, c: Cid, count: nat, total: nat): Result<(Db, seq<nat>)> {
    if count == 0 then Ok((db, []))
    else
      var chosen := FirstFree(UsedOn(db, n), 0, total, count);
      if |chosen| < count then Err(Insufficient)
      else if n in db.nodes && c in db.rows then Ok((Reserve(db, n, c, chosen), chosen))
      else Err(Foreign)
  }

  function FreeGpus(db: Db, c: Cid): (r: Db)
    ensures Held(r, c) == {}
    ensures forall d :: d != c ==> Held(r, d) == Held(db, d)
  {
    db.(gpus := map s | s in db.gpus && db.gpus[s] != c :: db.gpus[s])
  }

  /** Exactly these rows of the node came in, for this container. */
  ghost predicate Added(before: map<Slot, Cid>, after: map<Slot, Cid>, n: NodeId, c: Cid, idx: seq<nat>) {
    && (forall s :: s in after <==> s in before || (s.node == n && s.index in idx))
    && (forall s :: s in after ==> after[s] == if s in before then before[s] else c)
  }

  /** Exactly the container's rows went. */
  ghost predicate Released(before: map<Slot, Cid>, after: map<Slot, Cid>, c: Cid) {
    && (forall s :: s in after <==> s in before && before[s] != c)
    && (forall s :: s in after ==> after[s] == before[s])
  }

  /** Ascending, free, below the total, and no smaller free index skipped. */
  ghost predicate LowestFree(gpus: map<Slot, Cid>, n: NodeId, total: nat, idx: seq<nat>) {
    && (forall a, b :: 0 <= a < b < |idx| ==> idx[a] < idx[b])
    && (forall a :: 0 <= a < |idx| ==> idx[a] < total && Slot(n, idx[a]) !in gpus)
    && (forall a, x: nat :: 0 <= a < |idx| && x < idx[a] && Slot(n, x) !in gpus ==> x in idx)
  }

  // ---------- Containers ----------

  function InsertRow(db: Db, c: Cid, row: Row): Result<Db> {
    if c in db.rows then Err(Taken)
    else if row.node !in db.nodes then Err(Foreign)
    else Ok(db.(rows := db.rows[c := row]))
  }

  /** DELETE on containers; the foreign key of `gpu_alloc` cascades. */
  function DeleteRow(db: Db, c: Cid): Db {
    if c in db.rows then FreeGpus(db, c).(rows := db.rows - {c}) else db
  }

  /** UPDATE of state and status; an empty docker id keeps the stored one. */
  function SetState(db: Db, c: Cid, docker: string, state: string, status: string): Db {
    if c !in db.rows then db
    else
      var row := db.rows[c];
      db.(rows := db.rows[c := row.(docker := if docker == "" then row.docker else docker,
                                    state := state, status := status)])
  }

  function SetIndices(db: Db, c: Cid, idx: seq<nat>): Db {
    if c !in db.rows then db
    else db.(rows := db.rows[c := db.rows[c].(indices := idx)])
  }

  function SetOnline(db: Db, n: NodeId, online: bool): Db {
    if n !in db.nodes then db else db.(nodes := db.nodes[n := db.nodes[n].(online := online)])
  }

  // ---------- Ports ----------

  /** The least port of [p, end] with no row in `port_alloc`. */
  function LeastFree(ports: map<nat, Cid>, p: nat, end: nat): (r: Option<nat>)
    ensures r.Some? ==> p <= r.value <= end && r.value !in ports
    ensures r.Some? ==> forall q :: p <= q < r.value ==> q in ports
    ensures r.None? ==> forall q :: p <= q <= end ==> q in ports
    decreases end + 1 - p
  {
    if p > end then None
    else if p !in ports then Some(p)
    else LeastFree(ports, p + 1, end)
  }

  function FreePort(db: Db, p: nat): Db {
    db.(ports := db.ports - {p})
  }

  // ---------- The k smallest free indices ----------

  /** The unreserved indices of [i, total). */
  function FreeSet(used: set<nat>, i: nat, total: nat): set<nat> {
    set x: nat | i <= x < total && x !in used
  }

  /** FirstFree is ascending, free, in range, as long as it can be, and skips no smaller free index. */
  lemma {:induction false} FirstFreeIsLowest(used: set<nat>, i: nat, total: nat, k: nat)
    ensures var r := FirstFree(used, i, total, k);
      && (forall a, b :: 0 <= a < b < |r| ==> r[a] < r[b])
      && (forall a :: 0 <= a < |r| ==> r[a] in FreeSet(used, i, total))
      && (forall a, x :: 0 <= a < |r| && x in FreeSet(used, i, r[a]) ==> x in r)
      && (|r| < k ==> forall x :: x in FreeSet(used, i, total) ==> x in r)
    ensures |FirstFree(used, i, total, k)| <= k
    decreases total - i
  {
    if i >= total || k == 0 {
    } else if i in used {
      FirstFreeIsLowest(used, i + 1, total, k);
    } else {
      FirstFreeIsLowest(used, i + 1, total, k - 1);
      var rest := FirstFree(used, i + 1, total, k - 1);
      assert FirstFree(used, i, total, k) == [i] + rest;
      assert forall x :: x in FreeSet(used, i, total) <==> x == i || x in FreeSet(used, i + 1, total);
    }
  }

  lemma FirstFreeIsDistinct(used: set<nat>, total: nat, k: nat)
    ensures Distinct(FirstFree(used, 0, total, k))
    ensures forall i :: i in FirstFree(used, 0, total, k) ==> i < total && i !in used
  {
    FirstFreeIsLowest(used, 0, total, k);
  }

  /** The picker finds k indices exactly when k are free. */
  lemma {:induction false} FirstFreeCount(used: set<nat>, i: nat, total: nat, k: nat)
    ensures |FirstFree(used, i, total, k)| == if |FreeSet(used, i, total)| < k then |FreeSet(used, i, total)| else k
    decreases total - i
  {
    if i >= total {
      assert FreeSet(used, i, total) == {};
    } else if k == 0 {
    } else if i in used {
      assert FreeSet(used, i, total) == FreeSet(used, i + 1, total);
      FirstFreeCount(used, i + 1, total, k);
    } else {
      assert FreeSet(used, i, total) == {i} + FreeSet(used, i + 1, total);
      FirstFreeCount(used, i + 1, total, k - 1);
    }
  }

  /** Free plus reserved below the total is the total, whatever is reserved at or above it. */
  lemma {:induction false} FreeSetSize(used: set<nat>, total: nat)
    ensures |FreeSet(used, 0, total)| + |set x | x in used && x < total| == total
  {
    if total == 0 {
      assert FreeSet(used, 0, 0) == {};
      assert (set x | x in used && x < 0) == {};
    } else {
      var t := total - 1;
      FreeSetSize(used, t);
      var below, below' := set x | x in used && x < t, set x | x in used && x < total;
      if t in used {
        assert below' == below + {t};
        assert FreeSet(used, 0, total) == FreeSet(used, 0, t);
      } else {
        assert below' == below;
        assert FreeSet(used, 0, total) == FreeSet(used, 0, t) + {t};
      }
    }
  }

  /** COUNT(*) over a node's rows is the number of distinct indices reserved on it. */
  lemma UsageCountsIndices(db: Db, n: NodeId)
    ensures Usage(db, n) == |UsedOn(db, n)|
  {
    SlotIndexBijection(SlotsOn(db, n), n);
    assert UsedOn(db, n) == set s | s in SlotsOn(db, n) :: s.index;
  }

  lemma {:induction false} SlotIndexBijection(slots: set<Slot>, n: NodeId)
    requires forall s :: s in slots ==> s.node == n
    ensures |slots| == |set s | s in slots :: s.index|
  {
    if slots == {} {
      assert (set s | s in slots :: s.index) == {};
    } else {
      var s :| s in slots;
      var rest := slots - {s};
      SlotIndexBijection(rest, n);
      var all, less := set t | t in slots :: t.index, set t | t in rest :: t.index;
      assert s.index !in less by {
        forall t | t in rest ensures t.index != s.index {
          assert t.node == s.node;
        }
      }
      assert all == less + {s.index} by {
        forall x | x in less + {s.index} ensures x in all {
          assert s in slots;
        }
      }
    }
  }

  /** The indices below the total with no row. */
  function Unreserved(gpus: map<Slot, Cid>, n: NodeId, total: nat): set<nat> {
    set x: nat | x < total && Slot(n, x) !in gpus
  }

  lemma UnreservedIsFree(db: Db, n: NodeId, total: nat)
    ensures Unreserved(db.gpus, n, total) == FreeSet(UsedOn(db, n), 0, total)
    ensures forall x: nat :: x in UsedOn(db, n) <==> Slot(n, x) in db.gpus
  {
    forall x: nat ensures x in UsedOn(db, n) <==> Slot(n, x) in db.gpus {
      if Slot(n, x) in db.gpus {
        assert Slot(n, x).index == x;
      }
    }
  }

  /** What the atomic step of AllocGPUs amounts to. */
  lemma AllocLowestMeans(db: Db, n: NodeId, c: Cid, count: nat, total: nat)
    ensures var r := AllocLowest(db, n, c, count, total);
      && (r == Err(Insufficient) <==> |Unreserved(db.gpus, n, total)| < count)
      && (r.Ok? ==>
            && |r.value.1| == count && LowestFree(db.gpus, n, total, r.value.1)
            && Added(db.gpus, r.value.0.gpus, n, c, r.value.1))
  {
    var used := UsedOn(db, n);
    UnreservedIsFree(db, n, total);
    FirstFreeCount(used, 0, total, count);
    FirstFreeIsLowest(used, 0, total, count);
    var chosen := FirstFree(used, 0, total, count);
    forall a, x: nat | 0 <= a < |chosen| && x < chosen[a] && Slot(n, x) !in db.gpus ensures x in chosen {
      assert x in FreeSet(used, 0, chosen[a]);
    }
  }
}
