/**
 * The event path: a resumable docker event stream that replays its boundary second, feeding rows in
 * which the last write wins.
 */
module EventSync {
  import opened Tables
  import opened ControlPlane

  /**
   * A docker event. `at` is when docker recorded it, in unix seconds; `stamped` says that the event
   * carries that time; `cid` is "" without our label.
   */
  datatype Event = Event(docker: string, action: string, at: nat, stamped: bool, cid: string)

  /** The time the agent decodes, 0 when there is none. */
  function Time(e: Event): nat {
    if e.stamped then e.at else 0
  }

  /** mapDockerActionToState. */
  function MapAction(action: string): (string, string) {
    if action in {"start", "unpause", "restart"} then ("running", "running")
    else if action in {"die", "stop", "destroy"} then ("exited", "exited")
    else if action == "kill" then ("exited", "killed")
    else if action == "pause" then ("paused", "paused")
    else ("", "")
  }

  /** Events the agent sends on; it skips the others. */
  predicate Managed(e: Event) {
    e.cid != "" && MapAction(e.action).0 != ""
  }

  // ---------- The master's rows as last-write-wins cells ----------

  datatype Column = StateCol | StatusCol | DockerCol | GpuCol

  datatype Key = Key(cid: string, col: Column)

  type Cells = map<Key, string>

  /** What handling one event writes; events for unknown containers write nothing. */
  function Effect(known: set<string>, e: Event): Cells {
    if !Managed(e) || e.cid !in known then map[]
    else Writes(e.cid, e.docker, MapAction(e.action).0, MapAction(e.action).1, TerminalGpuAction(e.action))
  }

  function Writes(c: string, docker: string, state: string, status: string, terminal: bool): Cells {
    map[Key(c, StateCol) := state, Key(c, StatusCol) := status]
    + (if docker == "" then map[] else map[Key(c, DockerCol) := docker])
    + (if terminal then map[Key(c, GpuCol) := "released"] else map[])
  }

  /** The events of [lo, hi) handled once, in order. */
  function Fold(known: set<string>, m: Cells, log: seq<Event>, lo: nat, hi: nat): Cells
    requires lo <= hi <= |log|
  {
    if lo == hi then m else Fold(known, m, log, lo, hi - 1) + Effect(known, log[hi - 1])
  }

  ghost predicate SameCell(m: Cells, m': Cells, k: Key) {
    (k in m <==> k in m') && (k in m ==> m[k] == m'[k])
  }

  ghost predicate Unwritten(known: set<string>, log: seq<Event>, lo: nat, hi: nat, k: Key)
    requires hi <= |log|
  {
    forall i :: lo <= i < hi ==> k !in Effect(known, log[i])
  }

  /** A cell no event of the range writes keeps its value. */
  lemma {:induction false} FoldUnwritten(known: set<string>, m: Cells, log: seq<Event>, lo: nat, hi: nat, k: Key)
    requires lo <= hi <= |log| && Unwritten(known, log, lo, hi, k)
    ensures SameCell(Fold(known, m, log, lo, hi), m, k)
    decreases hi - lo
  {
    if lo < hi {
      assert k !in Effect(known, log[hi - 1]);
      FoldUnwritten(known, m, log, lo, hi - 1, k);
    }
  }

  /** The last write of a range decides its cell. */
  lemma FoldWritten(known: set<string>, m: Cells, log: seq<Event>, lo: nat, i: nat, hi: nat, k: Key)
    requires lo <= i < hi <= |log| && k in Effect(known, log[i]) && Unwritten(known, log, i + 1, hi, k)
    ensures k in Fold(known, m, log, lo, hi) && Fold(known, m, log, lo, hi)[k] == Effect(known, log[i])[k]
  {
    FoldSplit(known, m, log, lo, i + 1, hi);
    FoldUnwritten(known, Fold(known, m, log, lo, i + 1), log, i + 1, hi, k);
  }

  lemma {:induction false} FoldPrefix(known: set<string>, m: Cells, log: seq<Event>, e: Event, lo: nat, hi: nat)
    requires lo <= hi <= |log|
    ensures Fold(known, m, log + [e], lo, hi) == Fold(known, m, log, lo, hi)
    decreases hi - lo
  {
    if lo < hi {
      FoldPrefix(known, m, log, e, lo, hi - 1);
      assert (log + [e])[hi - 1] == log[hi - 1];
    }
  }

  lemma {:induction false} FoldSplit(known: set<string>, m: Cells, log: seq<Event>, lo: nat, mid: nat, hi: nat)
    requires lo <= mid <= hi <= |log|
    ensures Fold(known, m, log, lo, hi) == Fold(known, Fold(known, m, log, lo, mid), log, mid, hi)
    decreases hi - mid
  {
    if mid < hi {
      FoldSplit(known, m, log, lo, mid, hi - 1);
    }
  }

  // ---------- What the rows show, in docker's words ----------

  /** An event that changes the row of container c. */
  predicate Hits(e: Event, c: string) {
    && c != "" && e.cid == c
    && e.action in {"start", "unpause", "restart", "die", "stop", "kill", "destroy", "pause"}
  }

  /** The last event of [lo, hi) for container c. */
  predicate LastHit(log: seq<Event>, lo: nat, hi: nat, c: string, i: nat) {
    lo <= i < hi <= |log| && Hits(log[i], c) && forall j :: i < j < hi ==> !Hits(log[j], c)
  }

  /** The last event of [lo, hi) for container c that names its docker id. */
  predicate LastNamed(log: seq<Event>, lo: nat, hi: nat, c: string, i: nat) {
    && lo <= i < hi <= |log| && Hits(log[i], c) && log[i].docker != ""
    && forall j :: i < j < hi ==> !(Hits(log[j], c) && log[j].docker != "")
  }

  /** An event after which the master releases the container's GPUs. */
  predicate Terminal(e: Event) {
    e.action in {"die", "stop", "kill", "destroy"}
  }

  /** The state and status a container shows after an action. */
  ghost predicate ShowsState(m: Cells, c: string, action: string) {
    var state, status := Key(c, StateCol), Key(c, StatusCol);
    && state in m && status in m
    && (m[state] == "running" <==> action in {"start", "unpause", "restart"})
    && (m[state] == "paused" <==> action == "pause")
    && (m[state] == "exited" <==> action in {"die", "stop", "kill", "destroy"})
    && m[status] == if action == "kill" then "killed" else m[state]
  }

  ghost predicate StateFollows(known: set<string>, m: Cells, m': Cells, log: seq<Event>, lo: nat, hi: nat, c: string)
    requires hi <= |log|
  {
    if c !in known || forall i :: lo <= i < hi ==> !Hits(log[i], c) then
      SameCell(m', m, Key(c, StateCol)) && SameCell(m', m, Key(c, StatusCol))
    else
      forall i: nat | LastHit(log, lo, hi, c, i) :: ShowsState(m', c, log[i].action)
  }

  ghost predicate DockerFollows(known: set<string>, m: Cells, m': Cells, log: seq<Event>, lo: nat, hi: nat, c: string)
    requires hi <= |log|
  {
    var docker := Key(c, DockerCol);
    if c !in known || forall i :: lo <= i < hi ==> !(Hits(log[i], c) && log[i].docker != "") then
      SameCell(m', m, docker)
    else
      forall i: nat | LastNamed(log, lo, hi, c, i) :: docker in m' && m'[docker] == log[i].docker
  }

  ghost predicate GpuFollows(known: set<string>, m: Cells, m': Cells, log: seq<Event>, lo: nat, hi: nat, c: string)
    requires hi <= |log|
  {
    var gpu := Key(c, GpuCol);
    if c in known && exists i :: lo <= i < hi && Hits(log[i], c) && Terminal(log[i]) then
      gpu in m' && m'[gpu] == "released"
    else
      SameCell(m', m, gpu)
  }

  /**
   * From m to m', the row of container c follows the events of [lo, hi): the last one decides state
   * and status, the last one with a docker id decides that, and any terminal one releases the GPUs.
   * What no event decides stays.
   */
  ghost predicate Follows(known: set<string>, m: Cells, m': Cells, log: seq<Event>, lo: nat, hi: nat, c: string)
    requires hi <= |log|
  {
    && StateFollows(known, m, m', log, lo, hi, c)
    && DockerFollows(known, m, m', log, lo, hi, c)
    && GpuFollows(known, m, m', log, lo, hi, c)
  }

  /** What one event writes, in docker's words. */
  lemma EffectMeans(known: set<string>, e: Event, c: string)
    ensures var w := Effect(known, e);
      var state, status, docker, gpu := Key(c, StateCol), Key(c, StatusCol), Key(c, DockerCol), Key(c, GpuCol);
      if c in known && Hits(e, c) then
        && ShowsState(w, c, e.action)
        && (docker in w <==> e.docker != "") && (docker in w ==> w[docker] == e.docker)
        && (gpu in w <==> Terminal(e)) && (gpu in w ==> w[gpu] == "released")
      else state !in w && status !in w && docker !in w && gpu !in w
    ensures Managed(e) <==> Hits(e, e.cid)
  {
  }

  /** The last terminal event of a range that has one. */
  lemma {:induction false} LastTerminal(log: seq<Event>, lo: nat, hi: nat, c: string) returns (i: nat)
    requires hi <= |log| && exists j :: lo <= j < hi && Hits(log[j], c) && Terminal(log[j])
    ensures lo <= i < hi && Hits(log[i], c) && Terminal(log[i])
    ensures forall j :: i < j < hi ==> !(Hits(log[j], c) && Terminal(log[j]))
    decreases hi
  {
    hide Hits, Terminal;
    if Hits(log[hi - 1], c) && Terminal(log[hi - 1]) {
      i := hi - 1;
    } else {
      i := LastTerminal(log, lo, hi - 1, c);
    }
  }

  lemma StateFollowsFold(known: set<string>, m: Cells, log: seq<Event>, lo: nat, hi: nat, c: string)
    requires lo <= hi <= |log|
    ensures StateFollows(known, m, Fold(known, m, log, lo, hi), log, lo, hi, c)
  {
    hide Effect, Hits, Fold;
    var state, status := Key(c, StateCol), Key(c, StatusCol);
    forall i | 0 <= i < |log| ensures state in Effect(known, log[i]) <==> c in known && Hits(log[i], c) {
      EffectMeans(known, log[i], c);
    }
    forall i | 0 <= i < |log| ensures status in Effect(known, log[i]) <==> c in known && Hits(log[i], c) {
      EffectMeans(known, log[i], c);
    }
    if c !in known || forall i :: lo <= i < hi ==> !Hits(log[i], c) {
      FoldUnwritten(known, m, log, lo, hi, state);
      FoldUnwritten(known, m, log, lo, hi, status);
    } else {
      forall i: nat | LastHit(log, lo, hi, c, i) ensures ShowsState(Fold(known, m, log, lo, hi), c, log[i].action) {
        EffectMeans(known, log[i], c);
        FoldWritten(known, m, log, lo, i, hi, state);
        FoldWritten(known, m, log, lo, i, hi, status);
      }
    }
  }

  lemma DockerFollowsFold(known: set<string>, m: Cells, log: seq<Event>, lo: nat, hi: nat, c: string)
    requires lo <= hi <= |log|
    ensures DockerFollows(known, m, Fold(known, m, log, lo, hi), log, lo, hi, c)
  {
    hide Effect, Hits, Fold;
    var docker := Key(c, DockerCol);
    forall i | 0 <= i < |log|
      ensures docker in Effect(known, log[i]) <==> c in known && Hits(log[i], c) && log[i].docker != ""
    {
      EffectMeans(known, log[i], c);
    }
    if c !in known || forall i :: lo <= i < hi ==> !(Hits(log[i], c) && log[i].docker != "") {
      FoldUnwritten(known, m, log, lo, hi, docker);
    } else {
      forall i: nat | LastNamed(log, lo, hi, c, i)
        ensures docker in Fold(known, m, log, lo, hi) && Fold(known, m, log, lo, hi)[docker] == log[i].docker
      {
        EffectMeans(known, log[i], c);
        FoldWritten(known, m, log, lo, i, hi, docker);
      }
    }
  }

  lemma GpuFollowsFold(known: set<string>, m: Cells, log: seq<Event>, lo: nat, hi: nat, c: string)
    requires lo <= hi <= |log|
    ensures GpuFollows(known, m, Fold(known, m, log, lo, hi), log, lo, hi, c)
  {
    hide Effect, Hits, Fold;
    var gpu := Key(c, GpuCol);
    forall i | 0 <= i < |log|
      ensures gpu in Effect(known, log[i]) <==> c in known && Hits(log[i], c) && Terminal(log[i])
    {
      EffectMeans(known, log[i], c);
    }
    if c in known && exists i :: lo <= i < hi && Hits(log[i], c) && Terminal(log[i]) {
      var i := LastTerminal(log, lo, hi, c);
      EffectMeans(known, log[i], c);
      FoldWritten(known, m, log, lo, i, hi, gpu);
    } else {
      FoldUnwritten(known, m, log, lo, hi, gpu);
    }
  }

  lemma FoldFollows(known: set<string>, m: Cells, log: seq<Event>, lo: nat, hi: nat, c: string)
    requires lo <= hi <= |log|
    ensures Follows(known, m, Fold(known, m, log, lo, hi), log, lo, hi, c)
  {
    hide StateFollows, DockerFollows, GpuFollows;
    StateFollowsFold(known, m, log, lo, hi, c);
    DockerFollowsFold(known, m, log, lo, hi, c);
    GpuFollowsFold(known, m, log, lo, hi, c);
  }

  // ---------- The protocol ----------

  /** The first event docker replays for `since = t`: times do not decrease along the log. */
  function FirstAt(log: seq<Event>, t: nat): nat {
    if log == [] || log[0].at >= t then 0 else 1 + FirstAt(log[1..], t)
  }

  lemma FirstAtMost(log: seq<Event>, t: nat, i: nat)
    requires i < |log| && log[i].at >= t
    ensures FirstAt(log, t) <= i
  {
    FirstAtSpec(log, t);
  }

  lemma FirstAtGrows(log: seq<Event>, e: Event, t: nat)
    requires FirstAt(log, t) < |log|
    ensures FirstAt(log + [e], t) == FirstAt(log, t)
  {
    var a, longer := FirstAt(log, t), log + [e];
    FirstAtSpec(log, t);
    assert longer[a] == log[a];
    FirstAtMost(longer, t, a);
    FirstAtSpec(longer, t);
    assert longer[FirstAt(longer, t)] == log[FirstAt(longer, t)];
    FirstAtMost(log, t, FirstAt(longer, t));
  }

  lemma {:induction false} FirstAtSpec(log: seq<Event>, t: nat)
    ensures FirstAt(log, t) <= |log|
    ensures forall i :: 0 <= i < FirstAt(log, t) ==> log[i].at < t
    ensures FirstAt(log, t) < |log| ==> log[FirstAt(log, t)].at >= t
  {
    if log != [] && log[0].at < t {
      FirstAtSpec(log[1..], t);
    }
  }

  predicate Ordered(log: seq<Event>) {
    forall i, j :: 0 <= i < j < |log| ==> log[i].at <= log[j].at
  }

  /**
   * `log` is docker's, `pos` the next event of the current (or last) stream. The rest is history, from
   * the delivery that first set lastSeen on: its index `first`, the cells before it `base`, the index
   * `seen` that last set lastSeen, the least index `lo` a stream resumed at, the end `hi` of what any
   * stream has read; and the indices `sent` so far.
   */
  datatype Sync = Sync(
    log: seq<Event>, open: bool, pos: nat, lastSeen: nat, cells: Cells,
    first: nat, base: Cells, seen: nat, lo: nat, hi: nat, sent: set<nat>)

  datatype Move =
    | Emit(e: Event)   // docker records an event
    | Open             // the agent subscribes, from lastSeen when it has one
    | Next             // the stream delivers one event and the send succeeds
    | Break            // the stream ends
    | SendFails        // the send of the next event fails: the loop returns and its state is lost

  function Min(a: nat, b: nat): nat { if a < b then a else b }

  function Max(a: nat, b: nat): nat { if a < b then b else a }

  function Deliver(known: set<string>, s: Sync): Sync
    requires s.pos < |s.log|
  {
    var e := s.log[s.pos];
    var s1 := s.(pos := s.pos + 1, cells := s.cells + Effect(known, e),
                 sent := if Managed(e) then s.sent + {s.pos} else s.sent,
                 hi := Max(s.hi, s.pos + 1));
    if !Managed(e) || Time(e) == 0 then s1
    else if s.lastSeen != 0 then s1.(lastSeen := Time(e), seen := s.pos)
    else s1.(lastSeen := Time(e), seen := s.pos, first := s.pos, lo := s.pos, hi := s.pos + 1, base := s.cells)
  }

  function Go(known: set<string>, s: Sync, mv: Move): Sync {
    match mv
    case Emit(e) => if s.log != [] && e.at < s.log[|s.log| - 1].at then s else s.(log := s.log + [e])
    case Open =>
      if s.open then s
      else if s.lastSeen == 0 then s.(open := true, pos := |s.log|)
      else s.(open := true, pos := FirstAt(s.log, s.lastSeen), lo := Min(s.lo, FirstAt(s.log, s.lastSeen)))
    case Next => if s.open && s.pos < |s.log| then Deliver(known, s) else s
    case Break => s.(open := false)
    case SendFails =>
      if s.open && s.pos < |s.log| && Managed(s.log[s.pos]) then s.(open := false, lastSeen := 0) else s
  }

  function GoAll(known: set<string>, s: Sync, mvs: seq<Move>): Sync {
    if mvs == [] then s else Go(known, GoAll(known, s, mvs[..|mvs| - 1]), mvs[|mvs| - 1])
  }

  function Fresh(cells: Cells): Sync {
    Sync([], false, 0, 0, cells, 0, cells, 0, 0, 0, {})
  }

  /** Cells the replay has nothing left to write to are what one fold of the log makes them. */
  ghost predicate CaughtUp(known: set<string>, s: Sync)
    requires s.lo <= s.hi <= |s.log|
  {
    forall k: Key :: Unwritten(known, s.log, s.pos, s.hi, k) ==> SameCell(s.cells, Fold(known, s.base, s.log, s.lo, s.hi), k)
  }

  /** Every managed event since the first was delivered, and every replayed one before it up to `pos`. */
  ghost predicate NoneSkipped(s: Sync)
    requires s.hi <= |s.log|
  {
    forall i :: s.lo <= i < s.hi && Managed(s.log[i]) && (s.first <= i || i < s.pos) ==> i in s.sent
  }

  ghost predicate Resumable(s: Sync) {
    && s.seen < s.hi <= |s.log| && s.log[s.seen].at == s.lastSeen
    && s.lo <= s.pos <= s.hi && s.lo <= s.first
    && FirstAt(s.log, s.lastSeen) <= s.pos
  }

  ghost predicate SyncOk(known: set<string>, s: Sync) {
    && Ordered(s.log) && s.pos <= |s.log|
    && (s.lastSeen != 0 ==> Resumable(s) && NoneSkipped(s) && CaughtUp(known, s))
  }

  // ---------- Every move keeps the invariant ----------

  lemma EmitKeeps(known: set<string>, s: Sync, e: Event)
    requires SyncOk(known, s)
    ensures SyncOk(known, Go(known, s, Emit(e)))
  {
    var s' := Go(known, s, Emit(e));
    if s' != s && s.lastSeen != 0 {
      FirstAtMost(s.log, s.lastSeen, s.seen);
      FirstAtGrows(s.log, e, s.lastSeen);
      forall k: Key | Unwritten(known, s'.log, s'.pos, s'.hi, k)
        ensures SameCell(s'.cells, Fold(known, s'.base, s'.log, s'.lo, s'.hi), k)
      {
        FoldPrefix(known, s.base, s.log, e, s.lo, s.hi);
        forall i | s.pos <= i < s.hi ensures k !in Effect(known, s.log[i]) {
          assert s'.log[i] == s.log[i];
        }
        assert Unwritten(known, s.log, s.pos, s.hi, k);
      }
    }
  }

  lemma OpenKeeps(known: set<string>, s: Sync)
    requires SyncOk(known, s)
    ensures SyncOk(known, Go(known, s, Open))
  {
    var s' := Go(known, s, Open);
    if !s.open && s.lastSeen != 0 {
      forall k: Key | Unwritten(known, s'.log, s'.pos, s'.hi, k)
        ensures SameCell(s'.cells, Fold(known, s'.base, s'.log, s'.lo, s'.hi), k)
      {
        assert Unwritten(known, s.log, s.pos, s.hi, k);
        if s'.lo < s.lo {
          FoldUnwritten(known, s.base, s.log, s'.lo, s.hi, k);
          FoldUnwritten(known, s.base, s.log, s.lo, s.hi, k);
        }
      }
    }
  }

  /** The delivery that first sets lastSeen. */
  lemma FirstDelivery(known: set<string>, s: Sync)
    requires SyncOk(known, s) && s.lastSeen == 0 && s.pos < |s.log|
    ensures SyncOk(known, Deliver(known, s))
  {
    var s' := Deliver(known, s);
    if s'.lastSeen != 0 {
      FirstAtMost(s.log, s'.lastSeen, s.pos);
      assert s'.cells == Fold(known, s'.base, s.log, s'.lo, s'.hi);
    }
  }

  /** A delivery during a replay, or past everything read so far. */
  lemma LaterDelivery(known: set<string>, s: Sync)
    requires SyncOk(known, s) && s.lastSeen != 0 && s.pos < |s.log|
    ensures SyncOk(known, Deliver(known, s))
  {
    var s' := Deliver(known, s);
    if Managed(s.log[s.pos]) && Time(s.log[s.pos]) != 0 {
      FirstAtMost(s.log, s'.lastSeen, s.pos);
    }
    if s.pos == s.hi {
      NewDelivery(known, s);
    } else {
      forall k: Key | Unwritten(known, s.log, s'.pos, s.hi, k)
        ensures SameCell(s'.cells, Fold(known, s.base, s.log, s.lo, s.hi), k)
      {
        ReplayedCell(known, s, k);
      }
    }
  }

  lemma ReplayedCell(known: set<string>, s: Sync, k: Key)
    requires SyncOk(known, s) && s.lastSeen != 0 && s.pos < s.hi
    requires Unwritten(known, s.log, s.pos + 1, s.hi, k)
    ensures SameCell(s.cells + Effect(known, s.log[s.pos]), Fold(known, s.base, s.log, s.lo, s.hi), k)
  {
    if k in Effect(known, s.log[s.pos]) {
      FoldWritten(known, s.base, s.log, s.lo, s.pos, s.hi, k);
    } else {
      assert Unwritten(known, s.log, s.pos, s.hi, k);
    }
  }

  lemma NewDelivery(known: set<string>, s: Sync)
    requires SyncOk(known, s) && s.lastSeen != 0 && s.pos == s.hi < |s.log|
    ensures CaughtUp(known, Deliver(known, s))
  {
    var s' := Deliver(known, s);
    var f := Fold(known, s.base, s.log, s.lo, s.hi);
    forall k: Key | Unwritten(known, s'.log, s'.pos, s'.hi, k) ensures SameCell(s'.cells, f + Effect(known, s.log[s.hi]), k) {
      assert Unwritten(known, s.log, s.pos, s.hi, k);
      assert SameCell(s.cells, f, k);
    }
  }

  lemma GoKeeps(known: set<string>, s: Sync, mv: Move)
    requires SyncOk(known, s)
    ensures SyncOk(known, Go(known, s, mv))
  {
    match mv
    case Emit(e) => EmitKeeps(known, s, e);
    case Open => OpenKeeps(known, s);
    case Next =>
      if s.open && s.pos < |s.log| {
        if s.lastSeen == 0 { FirstDelivery(known, s); } else { LaterDelivery(known, s); }
      }
    case Break =>
    case SendFails =>
  }

  lemma {:induction false} GoAllKeeps(known: set<string>, cells: Cells, mvs: seq<Move>)
    ensures SyncOk(known, GoAll(known, Fresh(cells), mvs))
    decreases |mvs|
  {
    if mvs != [] {
      GoAllKeeps(known, cells, mvs[..|mvs| - 1]);
      GoKeeps(known, GoAll(known, Fresh(cells), mvs[..|mvs| - 1]), mvs[|mvs| - 1]);
    }
  }

  // ---------- Main results ----------

  /**
   * After any breaks and resumes: no managed event since the first delivered one was skipped, and
   * whenever the stream has read as far as any stream before it, every row is the fold of the log
   * once over, however often the boundary second was replayed.
   */
  lemma EventsConverge(known: set<string>, cells: Cells, mvs: seq<Move>)
    ensures var s := GoAll(known, Fresh(cells), mvs);
      s.lastSeen != 0 ==>
        && s.lo <= s.first && s.hi <= |s.log|
        && (forall i :: s.first <= i < s.hi && Hits(s.log[i], s.log[i].cid) ==> i in s.sent)
        && (s.pos >= s.hi ==> s.lo <= s.hi && s.cells == Fold(known, s.base, s.log, s.lo, s.hi)
                              && forall c :: Follows(known, s.base, s.cells, s.log, s.lo, s.hi, c))
  {
    var s := GoAll(known, Fresh(cells), mvs);
    GoAllKeeps(known, cells, mvs);
    if s.lastSeen != 0 && s.pos >= s.hi {
      var f := Fold(known, s.base, s.log, s.lo, s.hi);
      assert forall k: Key :: Unwritten(known, s.log, s.pos, s.hi, k);
      SameCells(s.cells, f);
      forall c ensures Follows(known, s.base, s.cells, s.log, s.lo, s.hi, c) {
        FoldFollows(known, s.base, s.log, s.lo, s.hi, c);
      }
    }
    forall i | 0 <= i < |s.log| ensures Managed(s.log[i]) <==> Hits(s.log[i], s.log[i].cid) {
      EffectMeans(known, s.log[i], "");
    }
  }

  lemma SameCells(m: Cells, m': Cells)
    requires forall k: Key :: SameCell(m, m', k)
    ensures m == m'
  {
    assert forall k: Key :: k in m <==> k in m' by {
      forall k: Key ensures k in m <==> k in m' {
        assert SameCell(m, m', k);
      }
    }
    assert forall k: Key | k in m :: m[k] == m'[k] by {
      forall k: Key | k in m ensures m[k] == m'[k] {
        assert SameCell(m, m', k);
      }
    }
  }

  // ---------- One stream, as the loop runs it ----------

  /** lastSeen after a stream's events were all delivered. */
  function LastSeen(t: nat, es: seq<Event>): nat {
    if es == [] then t
    else
      var e := es[|es| - 1];
      if Managed(e) && Time(e) != 0 then Time(e) else LastSeen(t, es[..|es| - 1])
  }

  /** An event the agent sends on that carries its time. */
  predicate Dated(e: Event) {
    Hits(e, e.cid) && e.stamped && e.at != 0
  }

  predicate LastDated(es: seq<Event>, n: nat, i: nat) {
    i < n <= |es| && Dated(es[i]) && forall j :: i < j < n ==> !Dated(es[j])
  }

  lemma DatedIs(e: Event)
    ensures Dated(e) <==> Managed(e) && Time(e) != 0
    ensures Dated(e) ==> Time(e) == e.at
  {
    EffectMeans({}, e, "");
  }

  lemma {:induction false} LastSeenAt(t: nat, es: seq<Event>, n: nat, i: nat)
    requires LastDated(es, n, i)
    ensures LastSeen(t, es[..n]) == es[i].at
    decreases n
  {
    hide Managed, Dated;
    DatedIs(es[n - 1]);
    if i < n - 1 {
      LastSeenAt(t, es, n - 1, i);
      assert es[..n][..n - 1] == es[..n - 1];
    }
  }

  lemma {:induction false} LastSeenKept(t: nat, es: seq<Event>, n: nat)
    requires n <= |es| && forall i :: 0 <= i < n ==> !Dated(es[i])
    ensures LastSeen(t, es[..n]) == t
    decreases n
  {
    hide Managed, Dated;
    if n > 0 {
      DatedIs(es[n - 1]);
      LastSeenKept(t, es, n - 1);
      assert es[..n][..n - 1] == es[..n - 1];
    }
  }

  /** What the loop leaves after n events of a stream, spelt out. */
  lemma LoopMeans(known: set<string>, m: Cells, t: nat, ch: seq<Event>, n: nat)
    requires n <= |ch|
    ensures forall c :: Follows(known, m, Fold(known, m, ch, 0, n), ch, 0, n, c)
    ensures forall i: nat | LastDated(ch, n, i) :: LastSeen(t, ch[..n]) == ch[i].at
    ensures (forall i :: 0 <= i < n ==> !Dated(ch[i])) ==> LastSeen(t, ch[..n]) == t
  {
    forall c ensures Follows(known, m, Fold(known, m, ch, 0, n), ch, 0, n, c) {
      FoldFollows(known, m, ch, 0, n, c);
    }
    forall i: nat | LastDated(ch, n, i) ensures LastSeen(t, ch[..n]) == ch[i].at {
      LastSeenAt(t, ch, n, i);
    }
    if forall i :: 0 <= i < n ==> !Dated(ch[i]) {
      LastSeenKept(t, ch, n);
    }
  }

  class EventsLoop {
    var lastSeen: nat
    /** The master's rows, and the containers it has rows for. */
    var cells: Cells
    const known: set<string>

    constructor (known: set<string>, cells: Cells)
      ensures this.known == known && this.cells == cells && lastSeen == 0
    {
      this.known, this.cells, lastSeen := known, cells, 0;
    }

    /** The receive loop of one stream; `sends` of its sends succeed before the connection is lost. */
    method Consume(ch: seq<Event>, sends: nat) returns (read: nat, ok: bool)
      modifies this
      ensures read <= |ch|
      ensures cells == Fold(known, old(cells), ch, 0, read)
      ensures lastSeen == LastSeen(old(lastSeen), ch[..read])
      ensures ok ==> read == |ch|
      ensures !ok ==> read < |ch| && Hits(ch[read], ch[read].cid)
      ensures forall c :: Follows(known, old(cells), cells, ch, 0, read, c)
      ensures forall i: nat | LastDated(ch, read, i) :: lastSeen == ch[i].at
      ensures (forall i :: 0 <= i < read ==> !Dated(ch[i])) ==> lastSeen == old(lastSeen)
    {
      var left := sends;
      read := 0;
      while read < |ch|
        invariant read <= |ch|
        invariant cells == Fold(known, old(cells), ch, 0, read)
        invariant lastSeen == LastSeen(old(lastSeen), ch[..read])
      {
        var ev := ch[read];
        assert ch[..read + 1][..read] == ch[..read];
        if ev.cid == "" {
          assert Effect(known, ev) == map[];
          read := read + 1;
          continue;
        }
        var (state, status) := MapAction(ev.action);
        if state == "" {
          assert Effect(known, ev) == map[];
          read := read + 1;
          continue;
        }
        if left == 0 {
          LoopMeans(known, old(cells), old(lastSeen), ch, read);
          EffectMeans(known, ev, "");
          return read, false;
        }
        left := left - 1;
        Receive(ev, state, status);
        if Time(ev) != 0 {
          lastSeen := Time(ev);
        }
        read := read + 1;
      }
      LoopMeans(known, old(cells), old(lastSeen), ch, read);
      ok := true;
    }

    /** The master's side: the rows the message updates, when the container is known. */
    method Receive(ev: Event, state: string, status: string)
      requires Managed(ev) && (state, status) == MapAction(ev.action)
      modifies `cells
      ensures cells == old(cells) + Effect(known, ev)
    {
      if ev.cid in known {
        cells := cells + Writes(ev.cid, ev.docker, state, status, TerminalGpuAction(ev.action));
      }
    }
  }

  // ---------- The loop and the machine ----------

  function Nexts(k: nat): seq<Move> {
    seq(k, i => Next)
  }

  lemma GoMore(known: set<string>, s: Sync, mvs: seq<Move>, mv: Move)
    ensures GoAll(known, s, mvs + [mv]) == Go(known, GoAll(known, s, mvs), mv)
  {
    hide Go;
    assert (mvs + [mv])[..|mvs|] == mvs;
  }

  lemma {:induction false} GoThenGo(known: set<string>, s: Sync, a: seq<Move>, b: seq<Move>)
    ensures GoAll(known, s, a + b) == GoAll(known, GoAll(known, s, a), b)
    decreases |b|
  {
    hide Go;
    if b == [] {
      assert a + b == a;
    } else {
      var front, last := b[..|b| - 1], b[|b| - 1];
      GoThenGo(known, s, a, front);
      assert a + b == a + front + [last];
      GoMore(known, s, a + front, last);
    }
  }

  lemma NextIs(known: set<string>, s: Sync)
    requires s.open && s.pos < |s.log|
    ensures var t, e := Go(known, s, Next), s.log[s.pos];
      && t.log == s.log && t.open && t.pos == s.pos + 1
      && t.cells == s.cells + Effect(known, e)
      && t.lastSeen == (if Managed(e) && Time(e) != 0 then Time(e) else s.lastSeen)
      && t.sent == if Managed(e) then s.sent + {s.pos} else s.sent
  {
    hide Effect, Managed;
  }

  /**
   * k deliveries of the machine are what the loop does to the first k events of the stream: the same
   * cells, the same position to resume from, and every managed one of them is sent.
   */
  lemma {:induction false} StreamIsNext(known: set<string>, s: Sync, k: nat)
    requires s.open && s.pos + k <= |s.log|
    ensures var t, ch := GoAll(known, s, Nexts(k)), s.log[s.pos..];
      && t.log == s.log && t.open && t.pos == s.pos + k
      && t.cells == Fold(known, s.cells, ch, 0, k)
      && t.lastSeen == LastSeen(s.lastSeen, ch[..k])
      && forall i :: s.pos <= i < s.pos + k && Managed(s.log[i]) ==> i in t.sent
  {
    hide Effect, Managed, Go;
    if k > 0 {
      var ch := s.log[s.pos..];
      StreamIsNext(known, s, k - 1);
      NextIs(known, GoAll(known, s, Nexts(k - 1)));
      assert Nexts(k) == Nexts(k - 1) + [Next];
      GoMore(known, s, Nexts(k - 1), Next);
      assert ch[..k][..k - 1] == ch[..k - 1] && ch[k - 1] == s.log[s.pos + k - 1];
    }
  }

  // ---------- What a failed send loses ----------

  /**
   * After a broken stream the next one starts no later than the pending event exactly when an event
   * was delivered before. After a failed send it starts live, past every event recorded so far:
   * lastSeen lives in the loop that the failure ends.
   */
  lemma ResumeCoversPending(known: set<string>, s: Sync)
    requires SyncOk(known, s) && s.open && s.pos < |s.log| && Managed(s.log[s.pos])
    ensures Go(known, Go(known, s, Break), Open).pos <= s.pos <==> s.lastSeen != 0
    ensures Go(known, Go(known, s, SendFails), Open).pos == |s.log|
  {
  }

  /** The world right after the send of event `s.pos` failed, with that event counted as not sent. */
  function Lost(known: set<string>, s: Sync): Sync {
    Go(known, s, SendFails).(sent := s.sent - {s.pos})
  }

  /** Event i is unsent, and no stream that can be resumed from here reaches back to it. */
  ghost predicate OutOfReach(t: Sync, i: nat) {
    && Ordered(t.log) && i < |t.log| && t.pos <= |t.log| && i !in t.sent
    && (t.log[i].at == 0 || t.log[i].at < t.log[|t.log| - 1].at)
    && (t.lastSeen == 0 || t.log[i].at < t.lastSeen)
    && (t.open ==> i < t.pos && forall j :: t.pos <= j < |t.log| ==> t.log[i].at == 0 || t.log[i].at < t.log[j].at)
  }

  lemma OutOfReachStays(known: set<string>, t: Sync, i: nat, mv: Move)
    requires OutOfReach(t, i)
    ensures OutOfReach(Go(known, t, mv), i)
  {
    hide Effect, Managed, FirstAt;
    if mv.Open? && !t.open && t.lastSeen != 0 {
      OutOfReachOpens(t, i);
    }
  }

  lemma OutOfReachOpens(t: Sync, i: nat)
    requires OutOfReach(t, i) && t.lastSeen != 0
    ensures OutOfReach(t.(open := true, pos := FirstAt(t.log, t.lastSeen), lo := Min(t.lo, FirstAt(t.log, t.lastSeen))), i)
  {
    var p := FirstAt(t.log, t.lastSeen);
    FirstAtSpec(t.log, t.lastSeen);
    assert i < p;
    forall j | p <= j < |t.log| ensures t.log[i].at < t.log[j].at {
      assert t.log[p].at <= t.log[j].at;
    }
  }

  lemma {:induction false} OutOfReachAlways(known: set<string>, t: Sync, i: nat, mvs: seq<Move>)
    requires OutOfReach(t, i)
    ensures OutOfReach(GoAll(known, t, mvs), i)
    decreases |mvs|
  {
    hide OutOfReach, Go;
    if mvs != [] {
      OutOfReachAlways(known, t, i, mvs[..|mvs| - 1]);
      OutOfReachStays(known, GoAll(known, t, mvs[..|mvs| - 1]), i, mvs[|mvs| - 1]);
    }
  }

  /** A live stream that delivers one more event of the same second, and breaks: the next replays that second. */
  function Reopening(e: Event): seq<Move> {
    [Open] + [Emit(e)] + [Next] + [Break] + [Open]
  }

  lemma ReopenReaches(known: set<string>, t: Sync, i: nat)
    requires Ordered(t.log) && i < |t.log| && !t.open && t.lastSeen == 0 && Managed(t.log[i])
    requires t.log[i].at != 0 && t.log[|t.log| - 1].at == t.log[i].at
    ensures var t' := GoAll(known, t, Reopening(t.log[i].(stamped := true)));
      t'.open && t'.log == t.log + [t.log[i].(stamped := true)] && t'.pos <= i
  {
    hide Effect;
    var e := t.log[i].(stamped := true);
    assert GoAll(known, t, []) == t;
    GoMore(known, t, [], Open);
    assert [] + [Open] == [Open];
    var t1 := Go(known, t, Open);
    GoMore(known, t, [Open], Emit(e));
    var t2 := Go(known, t1, Emit(e));
    GoMore(known, t, [Open] + [Emit(e)], Next);
    var t3 := Go(known, t2, Next);
    GoMore(known, t, [Open] + [Emit(e)] + [Next], Break);
    GoMore(known, t, [Open] + [Emit(e)] + [Next] + [Break], Open);
    assert t2.log == t.log + [e] && t2.pos == |t.log| && t3.lastSeen == e.at;
    assert t2.log[i] == t.log[i];
    FirstAtMost(t2.log, e.at, i);
  }

  /**
   * An event whose send failed can still reach the master exactly when docker has recorded nothing of
   * a later second: only then can a new stream, broken after an event of that same second, replay it.
   */
  lemma LostEventReturnsIff(known: set<string>, s: Sync)
    requires SyncOk(known, s) && s.open && s.pos < |s.log| && Managed(s.log[s.pos])
    ensures (exists mvs :: s.pos in GoAll(known, Lost(known, s), mvs).sent)
      <==> s.log[s.pos].at != 0 && s.log[|s.log| - 1].at == s.log[s.pos].at
  {
    hide Go, GoAll, SyncOk;
    var i, lost := s.pos, Lost(known, s);
    LostIs(known, s);
    if s.log[i].at != 0 && s.log[|s.log| - 1].at == s.log[i].at {
      var e := s.log[i].(stamped := true);
      ReopenReaches(known, lost, i);
      var t := GoAll(known, lost, Reopening(e));
      assert t.log[i] == s.log[i];
      StreamIsNext(known, t, i + 1 - t.pos);
      GoThenGo(known, lost, Reopening(e), Nexts(i + 1 - t.pos));
      assert i in GoAll(known, lost, Reopening(e) + Nexts(i + 1 - t.pos)).sent;
    } else {
      forall mvs: seq<Move>
        ensures i !in GoAll(known, lost, mvs).sent
      {
        OutOfReachAlways(known, lost, i, mvs);
      }
    }
  }

  lemma LostIs(known: set<string>, s: Sync)
    requires SyncOk(known, s) && s.open && s.pos < |s.log| && Managed(s.log[s.pos])
    ensures var lost := Lost(known, s);
      && lost.log == s.log && Ordered(lost.log) && !lost.open && lost.lastSeen == 0
      && lost.pos == s.pos && s.pos !in lost.sent
  {
  }
}
