/** The poll path: a diff cache over container listings, and the full synchronisation it stands for. */
module PollSync {
  import opened Tables

  /** One entry of a listing, before the master's vocabulary is applied. */
  datatype Info = Info(docker: string, cid: string, state: string)

  /** mapDockerListState, the state part. */
  function MapListState(state: string): string {
    if state in {"running", "restarting"} then "running"
    else if state in {"exited", "dead", "created", "removing"} then "exited"
    else if state == "paused" then "paused"
    else ""
  }

  predicate Usable(info: Info) {
    info.docker != "" && info.cid != ""
  }

  /** A listed entry with a state the master knows. */
  predicate Known(info: Info) {
    Usable(info) && MapListState(info.state) != ""
  }

  function Dockers(infos: seq<Info>): set<string> {
    set info | info in infos && Usable(info) :: info.docker
  }

  /** The docker ids listed with such a state. */
  function Listed(infos: seq<Info>): set<string> {
    set info | info in infos && Known(info) :: info.docker
  }

  // ---------- The poll loop's state and one tick of it ----------

  /** lastState and reverseIDs of the agent; the state column and the releases of the master. */
  datatype Poll = Poll(cache: map<string, string>, rev: map<string, string>, rows: map<string, string>, freed: set<string>)

  /** A listed entry: remembered, and sent on only when its state differs from the cached one. */
  function Push(p: Poll, info: Info): Poll {
    if !Usable(info) then p
    else
      var p1 := p.(rev := p.rev[info.docker := info.cid]);
      var state := MapListState(info.state);
      if state == "" || (info.docker in p.cache && p.cache[info.docker] == state) then p1
      else p1.(cache := p.cache[info.docker := state],
               rows := if info.cid in p.rows then p.rows[info.cid := state] else p.rows)
  }

  function PushAll(p: Poll, infos: seq<Info>): Poll {
    if infos == [] then p else Push(PushAll(p, infos[..|infos| - 1]), infos[|infos| - 1])
  }

  /** Cached entries that are gone and were not already terminal. */
  function Dying(p: Poll, seen: set<string>): set<string> {
    set d | d in p.cache && d !in seen && d in p.rev && p.cache[d] != "exited" && p.cache[d] != "removed"
  }

  /** The destroys: gone entries leave the cache; those not already terminal are reported. */
  function Drop(p: Poll, seen: set<string>): Poll {
    var cids := set d | d in Dying(p, seen) :: p.rev[d];
    p.(cache := map d | d in p.cache && d in seen :: p.cache[d],
       rows := map c | c in p.rows :: if c in cids then "exited" else p.rows[c],
       freed := p.freed + cids * p.rows.Keys)
  }

  function Tick(p: Poll, infos: seq<Info>): Poll {
    Drop(PushAll(p, infos), Dockers(infos))
  }

  function TickAll(p: Poll, listings: seq<seq<Info>>): Poll {
    if listings == [] then p else Tick(TickAll(p, listings[..|listings| - 1]), listings[|listings| - 1])
  }

  // ---------- The loops ----------

  class PollLoop {
    var lastState: map<string, string>
    var reverseIDs: map<string, string>
    /** The master's state column and the containers whose GPUs it released. */
    var rows: map<string, string>
    var freed: set<string>

    ghost function State(): Poll
      reads this
    {
      Poll(lastState, reverseIDs, rows, freed)
    }

    constructor (reverseIDs: map<string, string>, rows: map<string, string>)
      ensures State() == Poll(map[], reverseIDs, rows, {})
    {
      lastState := map[];
      this.reverseIDs, this.rows, freed := reverseIDs, rows, {};
    }

    /** The master's side of one message. */
    method Send(cid: string, state: string, destroy: bool)
      modifies `rows, `freed
      ensures rows == if cid in old(rows) then old(rows)[cid := state] else old(rows)
      ensures freed == if destroy && cid in old(rows) then old(freed) + {cid} else old(freed)
    {
      if cid in rows {
        rows := rows[cid := state];
        if destroy {
          freed := freed + {cid};
        }
      }
    }

    /** The loop over a listing. */
    method PushListing(infos: seq<Info>) returns (seen: set<string>)
      modifies this
      ensures State() == PushAll(old(State()), infos)
      ensures seen == Dockers(infos)
    {
      seen := {};
      var k := 0;
      while k < |infos|
        invariant 0 <= k <= |infos|
        invariant State() == PushAll(old(State()), infos[..k])
        invariant seen == Dockers(infos[..k])
      {
        var info := infos[k];
        assert infos[..k + 1][..k] == infos[..k];
        DockersMore(infos, k);
        k := k + 1;
        if info.docker == "" || info.cid == "" {
          continue;
        }
        seen := seen + {info.docker};
        reverseIDs := reverseIDs[info.docker := info.cid];
        var state := MapListState(info.state);
        if state == "" {
          continue;
        }
        if info.docker in lastState && lastState[info.docker] == state {
          continue;
        }
        lastState := lastState[info.docker := state];
        Send(info.cid, state, false);
      }
      assert infos[..k] == infos;
    }

    /** The loop over the cache, in whatever order the map is walked. */
    method DropGone(seen: set<string>)
      modifies this
      ensures State() == Drop(old(State()), seen)
    {
      ghost var p := State();
      var todo := lastState.Keys;
      while todo != {}
        invariant todo <= lastState.Keys && Dropping(p, seen, todo, State())
        decreases |todo|
      {
        var d :| d in todo;
        ghost var before, q := todo, State();
        todo := todo - {d};
        if d in seen {
          DropSkip(p, seen, before, d, q);
          continue;
        }
        var prev := lastState[d];
        lastState := map e | e in lastState && e != d :: lastState[e];
        if prev == "exited" || prev == "removed" || d !in reverseIDs {
          DropSkip(p, seen, before, d, q);
          continue;
        }
        DropReport(p, seen, before, d, q);
        Send(reverseIDs[d], "exited", true);
      }
      DropIs(p, seen, State());
    }

    /** containerPollLoop over the listings that succeed, while every send does. */
    method Run(listings: seq<seq<Info>>)
      modifies this
      ensures State() == TickAll(old(State()), listings)
      // From an empty cache, with one docker id for each label, every row follows what docker listed.
      ensures forall tag: map<string, string>, d: string ::
        old(lastState) == map[] && old(freed) == {} && Injective(tag) && AllLabelled(tag, listings) && d in tag && d != ""
        ==> RowFollows(old(rows), rows, listings, |listings|, d, tag[d])
    {
      var k := 0;
      while k < |listings|
        invariant 0 <= k <= |listings|
        invariant State() == TickAll(old(State()), listings[..k])
      {
        assert listings[..k + 1][..k] == listings[..k];
        var seen := PushListing(listings[k]);
        DropGone(seen);
        k := k + 1;
      }
      assert listings[..k] == listings;
      forall tag: map<string, string>, d: string |
        old(lastState) == map[] && old(freed) == {} && Injective(tag) && AllLabelled(tag, listings) && d in tag && d != ""
        ensures RowFollows(old(rows), rows, listings, |listings|, d, tag[d])
      {
        PollShows(old(reverseIDs), old(rows), tag, listings, d);
      }
    }
  }

  /** A destroy was sent for container c on behalf of a gone docker id no longer in `todo`. */
  ghost predicate Reported(p: Poll, seen: set<string>, todo: set<string>, c: string) {
    exists d :: d in Dying(p, seen) && d !in todo && p.rev[d] == c
  }

  /** The drop loop from p with `todo` still to visit, now at q. */
  ghost predicate Dropping(p: Poll, seen: set<string>, todo: set<string>, q: Poll) {
    && todo <= p.cache.Keys
    && q.cache == (map d | d in p.cache && (d in seen || d in todo) :: p.cache[d])
    && q.rev == p.rev && q.rows.Keys == p.rows.Keys
    && (forall c :: c in q.rows ==> q.rows[c] == if Reported(p, seen, todo, c) then "exited" else p.rows[c])
    && (forall c :: c in q.freed <==> c in p.freed || (c in p.rows && Reported(p, seen, todo, c)))
  }

  lemma DropSkip(p: Poll, seen: set<string>, todo: set<string>, d: string, q: Poll)
    requires Dropping(p, seen, todo, q) && d in todo && d !in Dying(p, seen)
    ensures Dropping(p, seen, todo - {d}, q.(cache := map e | e in q.cache && (e != d || d in seen) :: q.cache[e]))
    ensures d in seen ==> Dropping(p, seen, todo - {d}, q)
  {
    assert forall c :: Reported(p, seen, todo - {d}, c) <==> Reported(p, seen, todo, c);
    var q' := q.(cache := map e | e in q.cache && (e != d || d in seen) :: q.cache[e]);
    assert q'.cache == map e | e in p.cache && (e in seen || e in todo - {d}) :: p.cache[e];
    if d in seen {
      assert q'.cache == q.cache;
    }
  }

  lemma DropReport(p: Poll, seen: set<string>, todo: set<string>, d: string, q: Poll)
    requires Dropping(p, seen, todo, q) && d in todo && d in Dying(p, seen)
    ensures var c := p.rev[d];
      Dropping(p, seen, todo - {d}, q.(cache := map e | e in q.cache && e != d :: q.cache[e],
                                       rows := if c in q.rows then q.rows[c := "exited"] else q.rows,
                                       freed := if c in q.rows then q.freed + {c} else q.freed))
  {
    ReportedMore(p, seen, todo, d);
  }

  lemma DropIs(p: Poll, seen: set<string>, q: Poll)
    requires Dropping(p, seen, {}, q)
    ensures q == Drop(p, seen)
  {
    var cids := set d | d in Dying(p, seen) :: p.rev[d];
    assert forall c :: Reported(p, seen, {}, c) <==> c in cids;
    assert q.rows == Drop(p, seen).rows;
    assert q.freed == Drop(p, seen).freed;
    assert q.cache == Drop(p, seen).cache;
  }

  lemma ReportedMore(p: Poll, seen: set<string>, todo: set<string>, d: string)
    requires d in todo && d in Dying(p, seen)
    ensures forall c :: Reported(p, seen, todo - {d}, c) <==> Reported(p, seen, todo, c) || c == p.rev[d]
  {
    assert d !in todo - {d};
  }

  lemma DockersMore(infos: seq<Info>, k: nat)
    requires k < |infos|
    ensures Dockers(infos[..k + 1]) == Dockers(infos[..k]) + if Usable(infos[k]) then {infos[k].docker} else {}
  {
    assert infos[..k + 1] == infos[..k] + [infos[k]];
  }

  // ---------- The full synchronisation ----------

  /** `tracked` are the docker ids ever listed with a state the master knows. */
  datatype Full = Full(rows: map<string, string>, tracked: set<string>, freed: set<string>)

  /** Every entry sent, whether it changed or not. */
  function ListAll(rows: map<string, string>, infos: seq<Info>): map<string, string> {
    if infos == [] then rows
    else
      var info := infos[|infos| - 1];
      var before := ListAll(rows, infos[..|infos| - 1]);
      if Known(info) && info.cid in rows then before[info.cid := MapListState(info.state)] else before
  }

  /** The containers of tracked docker ids that the listing does not show. */
  function Gone(f: Full, tag: map<string, string>, infos: seq<Info>): set<string> {
    set d | d in f.tracked && d in tag && d !in Dockers(infos) :: tag[d]
  }

  /** Listed and known: the mapped state. Listed and unknown: as before. Absent: exited. */
  function FullTick(f: Full, tag: map<string, string>, infos: seq<Info>): Full {
    var gone, listed := Gone(f, tag, infos), ListAll(f.rows, infos);
    Full(map c | c in listed :: if c in gone then "exited" else listed[c],
         f.tracked + Listed(infos),
         f.freed + set c | c in gone && c in f.rows && f.rows[c] != "exited")
  }

  function FullTickAll(f: Full, tag: map<string, string>, listings: seq<seq<Info>>): Full {
    if listings == [] then f
    else FullTick(FullTickAll(f, tag, listings[..|listings| - 1]), tag, listings[|listings| - 1])
  }

  // ---------- The diff cache refines it ----------

  /** Docker ids carry one label each, and no two of them the same. */
  predicate Injective(tag: map<string, string>) {
    forall d, e :: d in tag && e in tag && tag[d] == tag[e] ==> d == e
  }

  predicate AllLabelled(tag: map<string, string>, listings: seq<seq<Info>>) {
    forall i :: 0 <= i < |listings| ==> Labelled(tag, listings[i])
  }

  predicate Labelled(tag: map<string, string>, infos: seq<Info>) {
    forall i :: 0 <= i < |infos| && Usable(infos[i]) ==>
      infos[i].docker in tag && tag[infos[i].docker] == infos[i].cid
  }

  /** The cache repeats the master's state, and a tracked id that left the cache is exited there. */
  ghost predicate Mirrors(p: Poll, rows: map<string, string>, tracked: set<string>, tag: map<string, string>) {
    && p.rows == rows
    && p.cache.Keys <= tracked <= p.rev.Keys
    && (forall d :: d in tracked ==> d in tag && p.rev[d] == tag[d])
    && (forall d :: d in p.cache ==> p.cache[d] in {"running", "exited", "paused"})
    && (forall d :: d in p.cache && tag[d] in rows ==> rows[tag[d]] == p.cache[d])
    && (forall d :: d in tracked && d !in p.cache && tag[d] in rows ==> rows[tag[d]] == "exited")
  }

  lemma {:induction false} PushAllMirrors(p: Poll, rows: map<string, string>, tracked: set<string>, tag: map<string, string>, infos: seq<Info>)
    requires Mirrors(p, rows, tracked, tag) && Injective(tag) && Labelled(tag, infos)
    ensures Mirrors(PushAll(p, infos), ListAll(rows, infos), tracked + Listed(infos), tag)
    ensures PushAll(p, infos).freed == p.freed
    decreases |infos|
  {
    hide Mirrors, Push;
    if infos == [] {
      assert tracked + Listed(infos) == tracked;
    } else {
      var before, info := infos[..|infos| - 1], infos[|infos| - 1];
      PushAllMirrors(p, rows, tracked, tag, before);
      var t1 := tracked + Listed(before);
      var t2 := tracked + Listed(infos);
      assert infos == before + [info];
      assert t2 == t1 + if Known(info) then {info.docker} else {};
      ListKeys(rows, before);
      PushMirrors(PushAll(p, before), ListAll(rows, before), t1, tag, info);
    }
  }

  lemma {:induction false} ListKeys(rows: map<string, string>, infos: seq<Info>)
    ensures ListAll(rows, infos).Keys == rows.Keys
    decreases |infos|
  {
    if infos != [] {
      ListKeys(rows, infos[..|infos| - 1]);
    }
  }

  lemma PushMirrors(p: Poll, rows: map<string, string>, tracked: set<string>, tag: map<string, string>, info: Info)
    requires Mirrors(p, rows, tracked, tag) && Injective(tag)
    requires Usable(info) ==> info.docker in tag && tag[info.docker] == info.cid
    ensures Mirrors(Push(p, info),
                    if Known(info) && info.cid in rows then rows[info.cid := MapListState(info.state)] else rows,
                    tracked + (if Known(info) then {info.docker} else {}), tag)
    ensures Push(p, info).freed == p.freed
  {
  }

  /** A container whose docker id is gone is not written by the listing. */
  lemma {:induction false} GoneUnlisted(rows: map<string, string>, tag: map<string, string>, infos: seq<Info>, d: string)
    requires Injective(tag) && Labelled(tag, infos) && d in tag && d !in Dockers(infos)
    ensures tag[d] in rows ==> tag[d] in ListAll(rows, infos) && ListAll(rows, infos)[tag[d]] == rows[tag[d]]
    decreases |infos|
  {
    if infos != [] {
      DockersMore(infos, |infos| - 1);
      assert infos[..|infos|] == infos;
      GoneUnlisted(rows, tag, infos[..|infos| - 1], d);
    }
  }

  lemma TickMirrors(p: Poll, f: Full, tag: map<string, string>, infos: seq<Info>)
    requires Mirrors(p, f.rows, f.tracked, tag) && p.freed == f.freed
    requires Injective(tag) && Labelled(tag, infos)
    ensures var f' := FullTick(f, tag, infos);
      Mirrors(Tick(p, infos), f'.rows, f'.tracked, tag) && Tick(p, infos).freed == f'.freed
  {
    var listed := ListAll(f.rows, infos);
    var t1 := f.tracked + Listed(infos);
    PushAllMirrors(p, f.rows, f.tracked, tag, infos);
    ListKeys(f.rows, infos);
    assert forall d :: d in t1 && d !in Dockers(infos) ==> d in f.tracked;
    forall d | d in f.tracked && d !in Dockers(infos) && tag[d] in f.rows ensures listed[tag[d]] == f.rows[tag[d]] {
      GoneUnlisted(f.rows, tag, infos, d);
    }
    DropMirrors(PushAll(p, infos), listed, f.tracked, t1, tag, infos, f);
  }

  /** Reporting the non-terminal gone entries writes and releases what marking every gone container does. */
  lemma DropWrites(p: Poll, listed: map<string, string>, t0: set<string>, t1: set<string>, tag: map<string, string>,
                    infos: seq<Info>, f: Full)
    requires Mirrors(p, listed, t1, tag) && Injective(tag) && t0 <= t1 && t0 == f.tracked && p.freed == f.freed
    requires forall d :: d in t1 && d !in Dockers(infos) ==> d in t0
    requires listed == ListAll(f.rows, infos) && listed.Keys == f.rows.Keys
    requires forall d :: d in t0 && d !in Dockers(infos) && tag[d] in listed ==> listed[tag[d]] == f.rows[tag[d]]
    ensures var q, f' := Drop(p, Dockers(infos)), FullTick(f, tag, infos); q.rows == f'.rows && q.freed == f'.freed
  {
    var q, f' := Drop(p, Dockers(infos)), FullTick(f, tag, infos);
    DyingIsGone(p, listed, t0, t1, tag, Dockers(infos));
    assert Gone(f, tag, infos) == set d | d in t0 && d !in Dockers(infos) :: tag[d];
    assert q.rows == f'.rows;
    assert q.freed == f'.freed;
  }

  lemma {:induction false} DropMirrors(p: Poll, listed: map<string, string>, t0: set<string>, t1: set<string>, tag: map<string, string>,
                    infos: seq<Info>, f: Full)
    requires Mirrors(p, listed, t1, tag) && Injective(tag) && t0 <= t1 && t0 == f.tracked && p.freed == f.freed
    requires forall d :: d in t1 && d !in Dockers(infos) ==> d in t0
    requires listed == ListAll(f.rows, infos) && listed.Keys == f.rows.Keys
    requires forall d :: d in t0 && d !in Dockers(infos) && tag[d] in listed ==> listed[tag[d]] == f.rows[tag[d]]
    requires t1 == f.tracked + Listed(infos)
    ensures var f' := FullTick(f, tag, infos);
      Mirrors(Drop(p, Dockers(infos)), f'.rows, f'.tracked, tag) && Drop(p, Dockers(infos)).freed == f'.freed
  {
    DropWrites(p, listed, t0, t1, tag, infos, f);
    var q := Drop(p, Dockers(infos));
    assert q.cache.Keys <= Dockers(infos);
    forall d | d in q.cache ensures tag[d] !in Gone(f, tag, infos) {
      assert d in Dockers(infos);
    }
  }

  lemma DyingIsGone(p: Poll, listed: map<string, string>, t0: set<string>, t1: set<string>, tag: map<string, string>, seen: set<string>)
    requires Mirrors(p, listed, t1, tag) && Injective(tag) && t0 <= t1
    requires forall d :: d in t1 && d !in seen ==> d in t0
    ensures var dead, gone := set d | d in Dying(p, seen) :: p.rev[d], set d | d in t0 && d !in seen :: tag[d];
      && dead <= gone
      && forall c :: c in gone && c in listed ==> (c in dead <==> listed[c] != "exited")
  {
    var dead, gone := set d | d in Dying(p, seen) :: p.rev[d], set d | d in t0 && d !in seen :: tag[d];
    forall c | c in gone && c in listed ensures c in dead <==> listed[c] != "exited" {
      var d :| d in t0 && d !in seen && tag[d] == c;
      assert c in dead ==> d in Dying(p, seen) by {
        assert forall e :: e in Dying(p, seen) && p.rev[e] == c ==> e == d;
      }
      assert d in Dying(p, seen) ==> p.rev[d] == c;
    }
  }

  /**
   * For every sequence of listings, in whatever order the maps are walked, the master's state column
   * and the releases are those of the full synchronisation. A container is released exactly when its
   * docker id vanishes while the master's state is not exited: one seen exited first never is.
   */
  lemma {:induction false} PollRefinesFullSync(rev: map<string, string>, rows: map<string, string>, tag: map<string, string>, listings: seq<seq<Info>>)
    requires Injective(tag) && AllLabelled(tag, listings)
    ensures var p, f := TickAll(Poll(map[], rev, rows, {}), listings), FullTickAll(Full(rows, {}, {}), tag, listings);
      p.rows == f.rows && p.freed == f.freed && Mirrors(p, f.rows, f.tracked, tag)
    decreases |listings|
  {
    if listings != [] {
      var before := listings[..|listings| - 1];
      PollRefinesFullSync(rev, rows, tag, before);
      TickMirrors(TickAll(Poll(map[], rev, rows, {}), before), FullTickAll(Full(rows, {}, {}), tag, before), tag, listings[|listings| - 1]);
    }
  }

  ghost predicate Agrees(rev: map<string, string>, rows: map<string, string>, tag: map<string, string>, listings: seq<seq<Info>>) {
    AllLabelled(tag, listings)
    ==> TickAll(Poll(map[], rev, rows, {}), listings).rows == FullTickAll(Full(rows, {}, {}), tag, listings).rows
  }

  /**
   * One label for one docker id is exactly what the refinement needs: under any other labelling some
   * two listings part the cache from the full synchronisation.
   */
  lemma PollRefinesIff(tag: map<string, string>)
    requires forall d :: d in tag ==> d != "" && tag[d] != ""
    ensures (forall rev, rows, listings :: Agrees(rev, rows, tag, listings)) <==> Injective(tag)
  {
    if Injective(tag) {
      forall rev, rows, listings
        ensures Agrees(rev, rows, tag, listings)
      {
        if AllLabelled(tag, listings) {
          PollRefinesFullSync(rev, rows, tag, listings);
        }
      }
    } else {
      var d1, d2 :| d1 in tag && d2 in tag && tag[d1] == tag[d2] && d1 != d2;
      SharedLabelParts(tag, d1, d2);
    }
  }

  // ---------- What the master shows, in docker's words ----------

  /** A listed entry for docker id d. */
  predicate Mentions(info: Info, d: string) {
    d != "" && info.docker == d && info.cid != ""
  }

  /** One whose state the master has a word for. */
  predicate Speaks(info: Info, d: string) {
    Mentions(info, d)
    && info.state in {"running", "restarting", "exited", "dead", "created", "removing", "paused"}
  }

  /** The last such entry of a listing. */
  predicate LastWord(infos: seq<Info>, d: string, i: nat) {
    i < |infos| && Speaks(infos[i], d) && forall j :: i < j < |infos| ==> !Speaks(infos[j], d)
  }

  /** What docker's word is shown as. */
  predicate ShownAs(word: string, shown: string) {
    && (shown == "running" <==> word in {"running", "restarting"})
    && (shown == "exited" <==> word in {"exited", "dead", "created", "removing"})
    && (shown == "paused" <==> word == "paused")
  }

  predicate Absent(infos: seq<Info>, d: string) {
    forall i :: 0 <= i < |infos| ==> !Mentions(infos[i], d)
  }

  predicate Spoken(infos: seq<Info>, d: string) {
    exists i :: 0 <= i < |infos| && Speaks(infos[i], d)
  }

  /** Some listing before the k-th had a word for d. */
  predicate Heard(listings: seq<seq<Info>>, k: nat, d: string) {
    exists j :: 0 <= j < k && j < |listings| && Spoken(listings[j], d)
  }

  /** The k-th listing says something about d: a word, or that it is gone. */
  predicate Decides(listings: seq<seq<Info>>, k: nat, d: string) {
    k < |listings| && (Spoken(listings[k], d) || (Heard(listings, k, d) && Absent(listings[k], d)))
  }

  predicate LastDecision(listings: seq<seq<Info>>, n: nat, d: string, k: nat) {
    k < n && Decides(listings, k, d) && forall j :: k < j < n ==> !Decides(listings, j, d)
  }

  /** After n listings the row of container c, which carries docker id d, follows the last one that decides. */
  ghost predicate RowFollows(before: map<string, string>, after: map<string, string>, listings: seq<seq<Info>>, n: nat, d: string, c: string) {
    c in before ==>
      && c in after
      && (forall k: nat, i: nat | LastDecision(listings, n, d, k) && LastWord(listings[k], d, i) ::
            ShownAs(listings[k][i].state, after[c]))
      && (forall k: nat | LastDecision(listings, n, d, k) && Absent(listings[k], d) :: after[c] == "exited")
      && ((forall k :: 0 <= k < n ==> !Decides(listings, k, d)) ==> after[c] == before[c])
  }

  lemma MapMeans(info: Info, d: string)
    ensures d != "" && info.docker == d ==> (Known(info) <==> Speaks(info, d)) && (Usable(info) <==> Mentions(info, d))
    ensures Speaks(info, d) ==> ShownAs(info.state, MapListState(info.state))
  {
  }

  lemma DockersMean(infos: seq<Info>, d: string)
    requires d != ""
    ensures d in Dockers(infos) <==> !Absent(infos, d)
    ensures d in Listed(infos) <==> Spoken(infos, d)
  {
    hide MapListState;
    forall info: Info | info.docker == d
      ensures (Known(info) <==> Speaks(info, d)) && (Usable(info) <==> Mentions(info, d))
    {
      MapMeans(info, d);
    }
    if d in Dockers(infos) {
      var info :| info in infos && Usable(info) && info.docker == d;
      var i :| 0 <= i < |infos| && infos[i] == info;
      assert Mentions(infos[i], d);
    }
    if d in Listed(infos) {
      var info :| info in infos && Known(info) && info.docker == d;
      var i :| 0 <= i < |infos| && infos[i] == info;
      assert Speaks(infos[i], d);
    }
    if Spoken(infos, d) {
      var i :| 0 <= i < |infos| && Speaks(infos[i], d);
      assert infos[i] in infos && Known(infos[i]);
    }
    if !Absent(infos, d) {
      var i :| 0 <= i < |infos| && Mentions(infos[i], d);
      assert infos[i] in infos && Usable(infos[i]);
    }
  }

  lemma ListStep(rows: map<string, string>, tag: map<string, string>, infos: seq<Info>, d: string)
    requires infos != [] && Injective(tag) && Labelled(tag, infos) && d in tag && d != ""
    requires tag[d] in ListAll(rows, infos[..|infos| - 1])
    ensures var c, info, before := tag[d], infos[|infos| - 1], ListAll(rows, infos[..|infos| - 1]);
      var listed := ListAll(rows, infos);
      && c in listed
      && (Speaks(info, d) ==> ShownAs(info.state, listed[c]))
      && (!Speaks(info, d) ==> listed[c] == before[c])
  {
    MapMeans(infos[|infos| - 1], d);
    ListKeys(rows, infos[..|infos| - 1]);
  }

  /** The listing's last word for d is what its container shows. */
  lemma {:induction false} ListWord(rows: map<string, string>, tag: map<string, string>, infos: seq<Info>, d: string, i: nat)
    requires Injective(tag) && Labelled(tag, infos) && d in tag && d != "" && tag[d] in rows && LastWord(infos, d, i)
    ensures tag[d] in ListAll(rows, infos) && ShownAs(infos[i].state, ListAll(rows, infos)[tag[d]])
    decreases |infos|
  {
    hide Speaks, ShownAs, ListAll, Known;
    ListKeys(rows, infos[..|infos| - 1]);
    ListStep(rows, tag, infos, d);
    if i < |infos| - 1 {
      ListWord(rows, tag, infos[..|infos| - 1], d, i);
    }
  }

  lemma {:induction false} ListSilent(rows: map<string, string>, tag: map<string, string>, infos: seq<Info>, d: string)
    requires Injective(tag) && Labelled(tag, infos) && d in tag && d != "" && tag[d] in rows && !Spoken(infos, d)
    ensures tag[d] in ListAll(rows, infos) && ListAll(rows, infos)[tag[d]] == rows[tag[d]]
    decreases |infos|
  {
    hide Speaks, Known;
    if infos != [] {
      var before := infos[..|infos| - 1];
      ListKeys(rows, before);
      ListStep(rows, tag, infos, d);
      assert forall i :: 0 <= i < |before| ==> before[i] == infos[i];
      ListSilent(rows, tag, before, d);
    }
  }

  /** One full tick, in docker's words. */
  lemma TickShows(f: Full, tag: map<string, string>, infos: seq<Info>, d: string)
    requires Injective(tag) && Labelled(tag, infos) && d in tag && d != "" && tag[d] in f.rows
    ensures var c, f' := tag[d], FullTick(f, tag, infos);
      && c in f'.rows && (d in f'.tracked <==> d in f.tracked || Spoken(infos, d))
      && (forall i: nat | LastWord(infos, d, i) :: ShownAs(infos[i].state, f'.rows[c]))
      && (Absent(infos, d) && d in f.tracked ==> f'.rows[c] == "exited")
      && (!Spoken(infos, d) && !(Absent(infos, d) && d in f.tracked) ==> f'.rows[c] == f.rows[c])
      && (c in f'.freed <==> c in f.freed || (Absent(infos, d) && d in f.tracked && f.rows[c] != "exited"))
  {
    hide MapListState, Speaks, Mentions, ListAll, ShownAs;
    ListKeys(f.rows, infos);
    forall i: nat | LastWord(infos, d, i) ensures ShownAs(infos[i].state, ListAll(f.rows, infos)[tag[d]]) {
      ListWord(f.rows, tag, infos, d, i);
    }
    if !Spoken(infos, d) {
      ListSilent(f.rows, tag, infos, d);
    }
    DockersMean(infos, d);
    assert tag[d] in Gone(f, tag, infos) <==> d in f.tracked && d !in Dockers(infos);
    if Spoken(infos, d) {
      SpokenIsMentioned(infos, d);
    }
  }

  lemma SpokenIsMentioned(infos: seq<Info>, d: string)
    requires Spoken(infos, d)
    ensures !Absent(infos, d)
  {
  }

  /** What the rows show after n listings. */
  lemma {:induction false} RowShows(rows: map<string, string>, tag: map<string, string>, listings: seq<seq<Info>>, n: nat, d: string)
    requires Injective(tag) && d in tag && d != "" && n <= |listings|
    requires AllLabelled(tag, listings)
    ensures var f := FullTickAll(Full(rows, {}, {}), tag, listings[..n]);
      RowFollows(rows, f.rows, listings, n, d, tag[d]) && (tag[d] in rows ==> (d in f.tracked <==> Heard(listings, n, d)))
    decreases n
  {
    hide FullTick, Absent, Spoken, ShownAs, LastWord;
    if n > 0 && tag[d] in rows {
      var f := FullTickAll(Full(rows, {}, {}), tag, listings[..n - 1]);
      RowShows(rows, tag, listings, n - 1, d);
      assert listings[..n][..n - 1] == listings[..n - 1] && listings[..n][n - 1] == listings[n - 1];
      TickShows(f, tag, listings[n - 1], d);
      if Spoken(listings[n - 1], d) {
        SpokenIsMentioned(listings[n - 1], d);
      }
      if Decides(listings, n - 1, d) {
        assert forall k: nat :: LastDecision(listings, n, d, k) ==> k == n - 1;
      } else {
        assert forall k: nat :: LastDecision(listings, n, d, k) ==> LastDecision(listings, n - 1, d, k);
      }
    }
  }

  /** Releases after n listings: the id vanished at some listing after it was heard of, and its row was not exited then. */
  lemma {:induction false} ReleasesAre(rows: map<string, string>, tag: map<string, string>, listings: seq<seq<Info>>, n: nat, d: string)
    requires Injective(tag) && d in tag && d != "" && n <= |listings| && tag[d] in rows
    requires AllLabelled(tag, listings)
    ensures tag[d] in FullTickAll(Full(rows, {}, {}), tag, listings[..n]).freed
      <==> exists k | 0 <= k < n :: Vanishes(rows, tag, listings, k, d)
    decreases n
  {
    hide FullTick, Absent, Spoken, ShownAs, LastDecision, Decides;
    if n > 0 {
      var f := FullTickAll(Full(rows, {}, {}), tag, listings[..n - 1]);
      ReleasesAre(rows, tag, listings, n - 1, d);
      RowShows(rows, tag, listings, n - 1, d);
      assert listings[..n][..n - 1] == listings[..n - 1] && listings[..n][n - 1] == listings[n - 1];
      TickShows(f, tag, listings[n - 1], d);
      assert Vanishes(rows, tag, listings, n - 1, d)
        <==> Absent(listings[n - 1], d) && d in f.tracked && f.rows[tag[d]] != "exited";
    }
  }

  /** The k-th listing lacks an id heard of before whose row, after the listings before, is not exited. */
  ghost predicate Vanishes(rows: map<string, string>, tag: map<string, string>, listings: seq<seq<Info>>, k: nat, d: string) {
    && k < |listings| && d in tag && Heard(listings, k, d) && Absent(listings[k], d)
    && var shown := FullTickAll(Full(rows, {}, {}), tag, listings[..k]).rows;
    tag[d] in shown && shown[tag[d]] != "exited"
  }

  /**
   * After any listings, while every send succeeds: each container's row follows the last listing that
   * says something about its docker id.
   */
  lemma PollShows(rev: map<string, string>, rows: map<string, string>, tag: map<string, string>, listings: seq<seq<Info>>, d: string)
    requires Injective(tag) && d in tag && d != ""
    requires AllLabelled(tag, listings)
    ensures RowFollows(rows, TickAll(Poll(map[], rev, rows, {}), listings).rows, listings, |listings|, d, tag[d])
  {
    hide RowFollows;
    PollRefinesFullSync(rev, rows, tag, listings);
    RowShows(rows, tag, listings, |listings|, d);
    assert listings[..|listings|] == listings;
  }

  /** Every cached docker id has a reverse id, whatever is listed: the missing-id branch is unreachable. */
  lemma {:induction false} CachedIdsResolve(rev: map<string, string>, rows: map<string, string>, listings: seq<seq<Info>>)
    ensures var p := TickAll(Poll(map[], rev, rows, {}), listings); p.cache.Keys <= p.rev.Keys
    decreases |listings|
  {
    if listings != [] {
      CachedIdsResolve(rev, rows, listings[..|listings| - 1]);
      PushAllResolves(TickAll(Poll(map[], rev, rows, {}), listings[..|listings| - 1]), listings[|listings| - 1]);
    }
  }

  lemma {:induction false} PushAllResolves(p: Poll, infos: seq<Info>)
    requires p.cache.Keys <= p.rev.Keys
    ensures PushAll(p, infos).cache.Keys <= PushAll(p, infos).rev.Keys
    decreases |infos|
  {
    if infos != [] {
      PushAllResolves(p, infos[..|infos| - 1]);
    }
  }

  lemma PushTwo(p: Poll, a: Info, b: Info)
    ensures PushAll(p, [a, b]) == Push(Push(p, a), b)
  {
    assert [a, b][..1] == [a] && [a][..0] == [];
    assert PushAll(p, []) == p;
    assert PushAll(p, [a]) == Push(PushAll(p, [a][..0]), a);
  }

  lemma ListTwo(rows: map<string, string>, a: Info, b: Info)
    requires Known(b) && b.cid in rows
    ensures b.cid in ListAll(rows, [a, b]) && ListAll(rows, [a, b])[b.cid] == MapListState(b.state)
  {
    assert [a, b][..1] == [a];
  }

  /** Two docker ids under one label, both running; then one of them is listed as exited. */
  function SharedListings(d1: string, d2: string, c: string): seq<seq<Info>> {
    [[Info(d1, c, "running"), Info(d2, c, "running")], [Info(d1, c, "exited"), Info(d2, c, "running")]]
  }

  /** The cache holds back the state of the other id, which the full synchronisation sends last. */
  lemma SharedLabelParts(tag: map<string, string>, d1: string, d2: string)
    requires d1 in tag && d2 in tag && tag[d1] == tag[d2] && d1 != d2
    requires d1 != "" && d2 != "" && tag[d1] != ""
    ensures !Agrees(map[], map[tag[d1] := "running"], tag, SharedListings(d1, d2, tag[d1]))
  {
    hide Tick, FullTick, PushAll, ListAll;
    var c := tag[d1];
    var rows, listings := map[c := "running"], SharedListings(d1, d2, c);
    var p0, f0 := Poll(map[], map[], rows, {}), Full(rows, {}, {});
    assert listings[..1][..0] == [];
    assert TickAll(p0, []) == p0 && FullTickAll(f0, tag, []) == f0;
    var p1, f1 := TickAll(p0, listings[..1]), FullTickAll(f0, tag, listings[..1]);
    assert p1 == Tick(p0, listings[0]) && f1 == FullTick(f0, tag, listings[0]);
    SharedStart(p0, f0, tag, d1, d2);
    SharedPoll(p1, listings[1][0], listings[1][1]);
    SharedFull(f1, tag, listings[1][0], listings[1][1]);
  }

  lemma SharedStart(p: Poll, f: Full, tag: map<string, string>, d1: string, d2: string)
    requires d1 in tag && d2 in tag && tag[d1] == tag[d2] && d1 != d2
    requires d1 != "" && d2 != "" && tag[d1] != ""
    requires p == Poll(map[], map[], map[tag[d1] := "running"], {}) && f == Full(p.rows, {}, {})
    ensures var c := tag[d1];
      var infos := [Info(d1, c, "running"), Info(d2, c, "running")];
      && Tick(p, infos).cache == map[d1 := "running", d2 := "running"] && c in Tick(p, infos).rows
      && FullTick(f, tag, infos).tracked <= {d1, d2} && c in FullTick(f, tag, infos).rows
  {
    var c := tag[d1];
    var a, b := Info(d1, c, "running"), Info(d2, c, "running");
    PushTwo(p, a, b);
    assert a in [a, b] && b in [a, b];
    assert a.docker in Dockers([a, b]) && b.docker in Dockers([a, b]);
    ListTwo(f.rows, a, b);
  }

  lemma SharedPoll(p: Poll, a: Info, b: Info)
    requires Known(a) && Known(b) && a.docker != b.docker && a.cid == b.cid && a.cid in p.rows
    requires a.docker in p.cache && p.cache[a.docker] != MapListState(a.state)
    requires b.docker in p.cache && p.cache[b.docker] == MapListState(b.state)
    requires p.cache.Keys <= {a.docker, b.docker}
    ensures a.cid in Tick(p, [a, b]).rows && Tick(p, [a, b]).rows[a.cid] == MapListState(a.state)
  {
    PushTwo(p, a, b);
    assert a in [a, b] && b in [a, b];
    assert a.docker in Dockers([a, b]) && b.docker in Dockers([a, b]);
  }

  lemma SharedFull(f: Full, tag: map<string, string>, a: Info, b: Info)
    requires Known(a) && Known(b) && b.cid in f.rows && f.tracked <= {a.docker, b.docker}
    ensures b.cid in FullTick(f, tag, [a, b]).rows && FullTick(f, tag, [a, b]).rows[b.cid] == MapListState(b.state)
  {
    ListTwo(f.rows, a, b);
    assert a in [a, b] && b in [a, b];
    assert Gone(f, tag, [a, b]) == {};
  }
}
