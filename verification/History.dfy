/**
 * The create form's history: a capped most-recently-used list, and the
 * unbounded list it shows the top of.
 */
module History {

  const MAX_ENTRIES: nat := 20

  /** `fp` is the fingerprint of the entry's payload. */
  datatype Entry = Entry(id: string, ts: int, fp: string)

  datatype Action = Record(entry: Entry) | Remove(id: string) | Clear

  function Without(es: seq<Entry>, fp: string): seq<Entry> {
    if es == [] then [] else (if es[0].fp == fp then [] else [es[0]]) + Without(es[1..], fp)
  }

  function WithoutId(es: seq<Entry>, id: string): seq<Entry> {
    if es == [] then [] else (if es[0].id == id then [] else [es[0]]) + WithoutId(es[1..], id)
  }

  function Top(es: seq<Entry>, n: nat): seq<Entry> {
    if |es| <= n then es else es[..n]
  }

  predicate DistinctFps(es: seq<Entry>) {
    forall i, j :: 0 <= i < j < |es| ==> es[i].fp != es[j].fp
  }

  predicate DistinctIds(es: seq<Entry>) {
    forall i, j :: 0 <= i < j < |es| ==> es[i].id != es[j].id
  }

  /** One action on a history that keeps at most `cap` entries. */
  function Act(es: seq<Entry>, a: Action, cap: nat): seq<Entry> {
    match a
    case Record(e) => Top([e] + Without(es, e.fp), cap)
    case Remove(id) => WithoutId(es, id)
    case Clear => []
  }

  /** The history after these actions, from an empty one. */
  function Shown(acts: seq<Action>, cap: nat): seq<Entry> {
    if acts == [] then [] else Act(Shown(acts[..|acts| - 1], cap), acts[|acts| - 1], cap)
  }

  class CreateHistory {
    var entries: seq<Entry>

    constructor ()
      ensures entries == []
    {
      entries := [];
    }

    method Record(e: Entry)
      modifies this
      ensures entries == Act(old(entries), Action.Record(e), MAX_ENTRIES)
      // In front, the rest in order, an entry with its fingerprint gone, and at most 20.
      ensures (forall o :: o in old(entries) ==> o.fp != e.fp) ==>
        var all := [e] + old(entries); entries == if |all| <= 20 then all else all[..20]
      ensures DistinctFps(old(entries)) ==>
        forall k | 0 <= k < |old(entries)| && old(entries)[k].fp == e.fp ::
          var all := [e] + old(entries)[..k] + old(entries)[k + 1..]; entries == if |all| <= 20 then all else all[..20]
    {
      if forall o :: o in old(entries) ==> o.fp != e.fp {
        WithoutNothing(entries, e.fp);
      }
      if DistinctFps(entries) {
        forall k | 0 <= k < |entries| && entries[k].fp == e.fp
          ensures [e] + entries[..k] + entries[k + 1..] == [e] + Without(entries, e.fp)
        {
          WithoutAt(entries, e.fp, k);
        }
      }
      entries := [e] + Without(entries, e.fp);
      if |entries| > MAX_ENTRIES {
        entries := entries[..MAX_ENTRIES];
      }
    }

    method Remove(id: string)
      modifies this
      ensures entries == Act(old(entries), Action.Remove(id), MAX_ENTRIES)
      // Every entry with that id goes, the others keep their order.
      ensures (forall o :: o in old(entries) ==> o.id != id) ==> entries == old(entries)
      ensures DistinctIds(old(entries)) ==>
        forall k | 0 <= k < |old(entries)| && old(entries)[k].id == id ::
          entries == old(entries)[..k] + old(entries)[k + 1..]
    {
      WithoutIdMembers(entries, id);
      if DistinctIds(entries) {
        forall k | 0 <= k < |entries| && entries[k].id == id
          ensures WithoutId(entries, id) == entries[..k] + entries[k + 1..]
        {
          WithoutIdAt(entries, id, k);
        }
      }
      entries := WithoutId(entries, id);
    }

    method Clear()
      modifies this
      ensures entries == Act(old(entries), Action.Clear, MAX_ENTRIES) == []
    {
      entries := [];
    }
  }

  /** From the newest record back, every record whose fingerprint has not been met. */
  function Newest(rs: seq<Entry>, met: set<string>): seq<Entry> {
    if rs == [] then []
    else
      var last := |rs| - 1;
      if rs[last].fp in met then Newest(rs[..last], met)
      else [rs[last]] + Newest(rs[..last], met + {rs[last].fp})
  }

  function Records(rs: seq<Entry>): seq<Action> {
    seq(|rs|, i requires 0 <= i < |rs| => Action.Record(rs[i]))
  }

  // ---------- Filtering ----------

  lemma {:induction false} WithoutMembers(es: seq<Entry>, fp: string)
    ensures forall e :: e in Without(es, fp) <==> e in es && e.fp != fp
  {
    if es != [] {
      WithoutMembers(es[1..], fp);
      assert es == [es[0]] + es[1..];
    }
  }

  lemma {:induction false} WithoutNothing(es: seq<Entry>, fp: string)
    requires forall e :: e in es ==> e.fp != fp
    ensures Without(es, fp) == es
  {
    if es != [] {
      WithoutNothing(es[1..], fp);
      assert es == [es[0]] + es[1..];
    }
  }

  lemma {:induction false} WithoutAt(es: seq<Entry>, fp: string, k: nat)
    requires DistinctFps(es) && k < |es| && es[k].fp == fp
    ensures Without(es, fp) == es[..k] + es[k + 1..]
  {
    var rest := es[1..];
    if k == 0 {
      assert forall e :: e in rest ==> exists j :: 0 < j < |es| && es[j] == e;
      WithoutNothing(rest, fp);
    } else {
      WithoutAt(rest, fp, k - 1);
      assert es[..k] == [es[0]] + rest[..k - 1] && es[k + 1..] == rest[k..];
    }
  }

  lemma {:induction false} WithoutIdAt(es: seq<Entry>, id: string, k: nat)
    requires DistinctIds(es) && k < |es| && es[k].id == id
    ensures WithoutId(es, id) == es[..k] + es[k + 1..]
  {
    var rest := es[1..];
    if k == 0 {
      assert forall e :: e in rest ==> exists j :: 0 < j < |es| && es[j] == e;
      WithoutIdMembers(rest, id);
    } else {
      WithoutIdAt(rest, id, k - 1);
      assert es[..k] == [es[0]] + rest[..k - 1] && es[k + 1..] == rest[k..];
    }
  }

  lemma {:induction false} WithoutIdMembers(es: seq<Entry>, id: string)
    ensures forall e :: e in WithoutId(es, id) <==> e in es && e.id != id
    ensures |WithoutId(es, id)| <= |es|
    ensures if (forall e :: e in es ==> e.id != id) then WithoutId(es, id) == es else |WithoutId(es, id)| < |es|
  {
    if es != [] {
      WithoutIdMembers(es[1..], id);
      assert es == [es[0]] + es[1..];
    }
  }

  lemma {:induction false} WithoutIdAppend(es: seq<Entry>, fs: seq<Entry>, id: string)
    ensures WithoutId(es + fs, id) == WithoutId(es, id) + WithoutId(fs, id)
  {
    if es == [] {
      assert es + fs == fs;
    } else {
      assert (es + fs)[1..] == es[1..] + fs;
      WithoutIdAppend(es[1..], fs, id);
    }
  }

  lemma DistinctPrepend(e: Entry, es: seq<Entry>)
    requires DistinctFps(es) && forall f :: f in es ==> f.fp != e.fp
    ensures DistinctFps([e] + es)
  {
    forall i, j | 0 <= i < j < |es| + 1
      ensures ([e] + es)[i].fp != ([e] + es)[j].fp
    {
      assert es[j - 1] in es;
    }
  }

  lemma {:induction false} WithoutDistinct(es: seq<Entry>, fp: string)
    requires DistinctFps(es)
    ensures DistinctFps(Without(es, fp))
  {
    if es != [] {
      WithoutDistinct(es[1..], fp);
      WithoutMembers(es[1..], fp);
      if es[0].fp != fp {
        DistinctPrepend(es[0], Without(es[1..], fp));
      }
    }
  }

  lemma {:induction false} WithoutIdDistinct(es: seq<Entry>, id: string)
    requires DistinctFps(es)
    ensures DistinctFps(WithoutId(es, id))
  {
    if es != [] {
      WithoutIdDistinct(es[1..], id);
      WithoutIdMembers(es[1..], id);
      if es[0].id != id {
        DistinctPrepend(es[0], WithoutId(es[1..], id));
      }
    }
  }

  /** Fingerprints stay distinct, and the cap holds, after any run of record, remove and clear. */
  lemma {:induction false} ShownIsDistinct(acts: seq<Action>, cap: nat)
    ensures DistinctFps(Shown(acts, cap)) && |Shown(acts, cap)| <= cap
  {
    if acts != [] {
      var es := Shown(acts[..|acts| - 1], cap);
      ShownIsDistinct(acts[..|acts| - 1], cap);
      match acts[|acts| - 1]
      case Record(e) =>
        WithoutDistinct(es, e.fp);
        WithoutMembers(es, e.fp);
        DistinctPrepend(e, Without(es, e.fp));
      case Remove(id) =>
        WithoutIdDistinct(es, id);
        WithoutIdMembers(es, id);
      case Clear =>
    }
  }

  // ---------- The capped list against the unbounded one ----------

  lemma TopPrepend(e: Entry, es: seq<Entry>, n: nat)
    ensures Top([e] + es, n + 1) == [e] + Top(es, n)
  {
  }

  /** Filtering the top of a list with distinct fingerprints gives the top of the filtered list, one short. */
  lemma {:induction false} WithoutTop(es: seq<Entry>, fp: string, n: nat)
    requires DistinctFps(es)
    ensures Top(Without(Top(es, n + 1), fp), n) == Top(Without(es, fp), n)
    decreases |es|
  {
    if |es| > n + 1 {
      var rest := es[1..];
      assert Top(es, n + 1) == [es[0]] + Top(rest, n);
      assert forall e :: e in rest ==> exists k :: 1 <= k < |es| && es[k] == e;
      if es[0].fp == fp {
        WithoutNothing(rest, fp);
        WithoutNothing(Top(rest, n), fp);
      } else if n > 0 {
        WithoutTop(rest, fp, n - 1);
        TopPrepend(es[0], Without(Top(rest, n), fp), n - 1);
        TopPrepend(es[0], Without(rest, fp), n - 1);
      }
    }
  }

  lemma {:induction false} NewestMembers(rs: seq<Entry>, met: set<string>)
    ensures forall e :: e in Newest(rs, met) ==> e.fp !in met
    ensures DistinctFps(Newest(rs, met))
    decreases |rs|
  {
    if rs != [] {
      var last := |rs| - 1;
      if rs[last].fp in met {
        NewestMembers(rs[..last], met);
      } else {
        NewestMembers(rs[..last], met + {rs[last].fp});
        DistinctPrepend(rs[last], Newest(rs[..last], met + {rs[last].fp}));
      }
    }
  }

  lemma {:induction false} NewestMeets(rs: seq<Entry>, met: set<string>, fp: string)
    ensures Newest(rs, met + {fp}) == Without(Newest(rs, met), fp)
    decreases |rs|
  {
    if rs != [] {
      var last := |rs| - 1;
      var e := rs[last];
      if e.fp in met {
        NewestMeets(rs[..last], met, fp);
      } else {
        var rest := Newest(rs[..last], met + {e.fp});
        assert Newest(rs, met) == [e] + rest;
        if e.fp == fp {
          NewestMembers(rs[..last], met + {fp});
          WithoutNothing(rest, fp);
        } else {
          NewestMeets(rs[..last], met + {e.fp}, fp);
          assert met + {fp} + {e.fp} == met + {e.fp} + {fp};
        }
      }
    }
  }

  /**
   * Capping at every record loses nothing: the list shown is the first `cap` of all
   * records, newest first, deduplicated by fingerprint.
   */
  lemma {:induction false} ShownIsNewest(rs: seq<Entry>, cap: nat)
    requires cap > 0
    ensures Shown(Records(rs), cap) == Top(Newest(rs, {}), cap)
    decreases |rs|
  {
    if rs != [] {
      var last := |rs| - 1;
      var e, full := rs[last], Newest(rs[..last], {});
      assert Records(rs)[..last] == Records(rs[..last]);
      ShownIsNewest(rs[..last], cap);
      NewestMembers(rs[..last], {});
      NewestMeets(rs[..last], {}, e.fp);
      WithoutTop(full, e.fp, cap - 1);
      TopPrepend(e, Without(Top(full, cap), e.fp), cap - 1);
      TopPrepend(e, Without(full, e.fp), cap - 1);
    }
  }

  /**
   * A removal keeps the list the top of the unbounded one exactly when nothing was
   * capped away, or the removed entry is not one of those shown.
   */
  lemma RemoveKeepsTopIff(full: seq<Entry>, id: string, cap: nat)
    requires DistinctIds(full)
    ensures WithoutId(Top(full, cap), id) == Top(WithoutId(full, id), cap)
      <==> |full| <= cap || forall e :: e in Top(full, cap) ==> e.id != id
  {
    WithoutIdMembers(full, id);
    if |full| > cap {
      var shown, hidden := full[..cap], full[cap..];
      assert full == shown + hidden;
      WithoutIdAppend(shown, hidden, id);
      WithoutIdMembers(shown, id);
      WithoutIdMembers(hidden, id);
      if exists e :: e in shown && e.id == id {
        HiddenKeepsOthers(full, id, cap);
      }
    }
  }

  lemma HiddenKeepsOthers(full: seq<Entry>, id: string, cap: nat)
    requires DistinctIds(full) && |full| > cap
    requires exists e :: e in full[..cap] && e.id == id
    ensures WithoutId(full[cap..], id) == full[cap..]
  {
    var e :| e in full[..cap] && e.id == id;
    var k :| 0 <= k < cap && full[k] == e;
    assert forall j :: cap <= j < |full| ==> full[k].id != full[j].id;
    WithoutIdMembers(full[cap..], id);
  }
}
