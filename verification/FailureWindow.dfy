/** The sliding window of event-stream failures, compacted in place. */
module FailureWindow {

  /** The times after a cutoff, in order. */
  function Kept(ts: seq<int>, cutoff: int): seq<int> {
    if ts == [] then []
    else
      var last := |ts| - 1;
      Kept(ts[..last], cutoff) + if ts[last] > cutoff then [ts[last]] else []
  }

  /** The window after a failure at `now`. */
  function Noted(ts: seq<int>, now: int, window: int): seq<int> {
    Kept(ts, now - window) + [now]
  }

  /** One occurrence of s stands before one of t. */
  predicate Before(ts: seq<int>, s: int, t: int) {
    exists a, b :: 0 <= a < b < |ts| && ts[a] == s && ts[b] == t
  }

  /** `kept` has every time after the cutoff as often as `ts`, no other, and in the order of `ts`. */
  ghost predicate PrunedTo(ts: seq<int>, kept: seq<int>, cutoff: int) {
    && (forall t :: multiset(kept)[t] == if t > cutoff then multiset(ts)[t] else 0)
    && InOrder(ts, kept)
  }

  ghost predicate InOrder(ts: seq<int>, kept: seq<int>) {
    forall i, j :: 0 <= i < j < |kept| ==> Before(ts, kept[i], kept[j])
  }

  lemma {:induction false} KeptMeans(ts: seq<int>, cutoff: int)
    ensures PrunedTo(ts, Kept(ts, cutoff), cutoff)
  {
    if ts != [] {
      var front, last := ts[..|ts| - 1], ts[|ts| - 1];
      KeptMeans(front, cutoff);
      assert ts == front + [last];
      if last > cutoff {
        KeptInOrder(front, Kept(front, cutoff), last, cutoff);
      } else {
        forall i, j | 0 <= i < j < |Kept(front, cutoff)| ensures Before(ts, Kept(front, cutoff)[i], Kept(front, cutoff)[j]) {
          BeforeMore(front, Kept(front, cutoff)[i], Kept(front, cutoff)[j], last);
        }
      }
    }
  }

  lemma BeforeMore(front: seq<int>, s: int, t: int, last: int)
    requires Before(front, s, t)
    ensures Before(front + [last], s, t)
  {
    var a, b :| 0 <= a < b < |front| && front[a] == s && front[b] == t;
    assert (front + [last])[a] == s && (front + [last])[b] == t;
  }

  lemma KeptInOrder(front: seq<int>, kept: seq<int>, last: int, cutoff: int)
    requires PrunedTo(front, kept, cutoff)
    ensures InOrder(front + [last], kept + [last])
  {
    forall i, j | 0 <= i < j < |kept| + 1 ensures Before(front + [last], (kept + [last])[i], (kept + [last])[j]) {
      if j < |kept| {
        BeforeMore(front, kept[i], kept[j], last);
      } else {
        assert kept[i] in multiset(kept) && kept[i] in multiset(front);
        var a :| 0 <= a < |front| && front[a] == kept[i];
        assert (front + [last])[a] == kept[i] && (front + [last])[|front|] == last;
      }
    }
  }

  class Failures {
    /** A slice: the first `len` entries of a backing array. */
    var data: array<int>
    var len: nat
    var quiet: bool

    ghost predicate Valid()
      reads this
    {
      len <= data.Length
    }

    ghost function Contents(): seq<int>
      reads this, data
      requires Valid()
    {
      data[..len]
    }

    constructor ()
      ensures Valid() && Contents() == [] && !quiet && fresh(data)
    {
      data, len, quiet := new int[0], 0, false;
    }

    /** A stream opened: forget the failures and the verdict. */
    method Reset()
      requires Valid()
      modifies this
      ensures Valid() && data == old(data) && Contents() == [] && !quiet
    {
      len, quiet := 0, false;
    }

    /** noteEventsFailure: compacts in place, appends, and flips quiet at the threshold. */
    method Note(now: int, window: int, threshold: int)
      requires Valid()
      modifies this, data
      ensures Valid() && (data == old(data) || fresh(data))
      ensures Contents() == Noted(old(Contents()), now, window)
      ensures quiet == (old(quiet) || |Contents()| >= threshold)
      // The new failure is last, and each earlier time is there as often as before exactly when it is recent enough.
      ensures |Contents()| > 0 && Contents()[|Contents()| - 1] == now
      ensures PrunedTo(old(Contents()), Contents()[..|Contents()| - 1], now - window)
    {
      hide PrunedTo;
      ghost var before := Contents();
      var kept, i := 0, 0;
      while i < len
        invariant 0 <= kept <= i <= len == |before| <= data.Length
        invariant len == old(len) && data == old(data) && quiet == old(quiet)
        invariant data[..kept] == Kept(before[..i], now - window)
        // What has not been read yet is still in place.
        invariant forall k :: i <= k < len ==> data[k] == before[k]
      {
        var t := data[i];
        assert t == before[i] && before[..i + 1][..i] == before[..i];
        if t > now - window {
          data[kept] := t;
          kept := kept + 1;
        }
        i := i + 1;
      }
      assert before[..i] == before;
      KeptMeans(before, now - window);
      Append(kept, now);
      assert Contents()[..|Contents()| - 1] == Kept(before, now - window);
      if len >= threshold {
        quiet := true;
      }
    }

    /** Go's append to the first `kept` entries: in place while there is room. */
    method Append(kept: nat, now: int)
      requires kept <= data.Length
      modifies this, data
      ensures Valid() && (data == old(data) || fresh(data)) && quiet == old(quiet)
      ensures Contents() == old(data[..kept]) + [now]
    {
      if kept == data.Length {
        var bigger := new int[2 * kept + 1];
        forall k | 0 <= k < kept {
          bigger[k] := data[k];
        }
        data := bigger;
      }
      data[kept] := now;
      len := kept + 1;
    }
  }

  // ---------- A run of failures between two resets ----------

  /** The window after failures at these times. */
  function Window(times: seq<int>, window: int): seq<int> {
    if times == [] then [] else Noted(Window(times[..|times| - 1], window), times[|times| - 1], window)
  }

  /** quiet after failures at these times. */
  function Quiet(times: seq<int>, window: int, threshold: int): bool {
    times != [] && (Quiet(times[..|times| - 1], window, threshold) || |Window(times, window)| >= threshold)
  }

  predicate Nondecreasing(times: seq<int>) {
    forall i, j :: 0 <= i < j < |times| ==> times[i] <= times[j]
  }

  /** The failures inside the window that ends at the last one. */
  function Inside(times: seq<int>, window: int): seq<int>
    requires times != []
  {
    var last := |times| - 1;
    Kept(times[..last], times[last] - window) + [times[last]]
  }

  lemma {:induction false} KeptTwice(ts: seq<int>, c1: int, c2: int)
    requires c1 <= c2
    ensures Kept(Kept(ts, c1), c2) == Kept(ts, c2)
  {
    if ts != [] {
      var last := |ts| - 1;
      KeptTwice(ts[..last], c1, c2);
      if ts[last] > c1 {
        KeptAppend(Kept(ts[..last], c1), ts[last], c2);
      } else {
        assert Kept(ts, c1) == Kept(ts[..last], c1);
      }
    }
  }

  lemma KeptAppend(ts: seq<int>, t: int, cutoff: int)
    ensures Kept(ts + [t], cutoff) == Kept(ts, cutoff) + if t > cutoff then [t] else []
  {
    assert (ts + [t])[..|ts|] == ts;
  }

  lemma PruneOnce(ts: seq<int>, t: int, c1: int, c2: int)
    requires c1 <= c2
    ensures Kept(Kept(ts, c1) + [t], c2) == Kept(ts + [t], c2)
  {
    KeptTwice(ts, c1, c2);
    KeptAppend(Kept(ts, c1), t, c2);
    KeptAppend(ts, t, c2);
  }

  /** With a clock that never goes back, pruning at every failure loses nothing the last window needs. */
  lemma {:induction false} WindowIsExact(times: seq<int>, window: int)
    requires Nondecreasing(times) && times != []
    ensures Window(times, window) == Inside(times, window)
    decreases |times|
  {
    hide Kept;
    var last := |times| - 1;
    var before, now := times[..last], times[last];
    assert Window(times, window) == Kept(Window(before, window), now - window) + [now];
    if before != [] {
      assert Nondecreasing(before);
      WindowIsExact(before, window);
      var earlier, prior := before[..last - 1], before[last - 1];
      assert earlier + [prior] == before && prior == times[last - 1] <= now;
      PruneOnce(earlier, prior, prior - window, now - window);
    }
  }

  /** quiet is set exactly when the window of some failure reached the threshold. */
  lemma {:induction false} QuietIsExact(times: seq<int>, window: int, threshold: int)
    requires Nondecreasing(times)
    ensures Quiet(times, window, threshold)
      <==> exists k :: 0 < k <= |times| && |Inside(times[..k], window)| >= threshold
    decreases |times|
  {
    hide Kept, Window;
    if times != [] {
      var last := |times| - 1;
      QuietIsExact(times[..last], window, threshold);
      WindowIsExact(times, window);
      assert times[..|times|] == times;
      assert forall k :: 0 < k <= last ==> times[..last][..k] == times[..k];
    }
  }

  /** The window is a suffix of the failures: those after the last one that is too old. */
  lemma WindowIsSuffix(times: seq<int>, window: int, k: nat)
    requires Nondecreasing(times) && k < |times|
    requires forall i :: 0 <= i < k ==> times[i] <= times[|times| - 1] - window
    requires forall i :: k <= i < |times| - 1 ==> times[i] > times[|times| - 1] - window
    ensures Window(times, window) == times[k..]
  {
    var last := |times| - 1;
    WindowIsExact(times, window);
    KeptSuffix(times[..last], times[last] - window, k);
    assert times[..last][k..] + [times[last]] == times[k..];
  }

  lemma {:induction false} KeptSuffix(ts: seq<int>, cutoff: int, k: nat)
    requires k <= |ts|
    requires forall i :: 0 <= i < k ==> ts[i] <= cutoff
    requires forall i :: k <= i < |ts| ==> ts[i] > cutoff
    ensures Kept(ts, cutoff) == ts[k..]
    decreases |ts|
  {
    if ts != [] {
      var front, last := ts[..|ts| - 1], ts[|ts| - 1];
      if k == |ts| {
        KeptSuffix(front, cutoff, k - 1);
      } else {
        KeptSuffix(front, cutoff, k);
        assert front[k..] + [last] == ts[k..];
      }
    }
  }

  /** Where the window that ends at the last failure begins. */
  lemma {:induction false} WindowStart(times: seq<int>, cutoff: int, n: nat) returns (k: nat)
    requires Nondecreasing(times) && n <= |times|
    ensures k <= n
    ensures forall i :: 0 <= i < k ==> times[i] <= cutoff
    ensures forall i :: k <= i < n ==> times[i] > cutoff
  {
    if n == 0 || times[n - 1] <= cutoff {
      k := n;
      assert forall i :: 0 <= i < n ==> times[i] <= times[n - 1];
    } else {
      k := WindowStart(times, cutoff, n - 1);
    }
  }

  /** quiet is set exactly when, at some failure, `threshold` failures in a row fell inside its window. */
  lemma QuietMeans(times: seq<int>, window: int, threshold: int)
    requires Nondecreasing(times)
    ensures Quiet(times, window, threshold)
      <==> exists j, k | 0 <= j < k <= |times| :: k - j >= threshold && InWindow(times, window, j, k)
  {
    QuietIsExact(times, window, threshold);
    forall k | 0 < k <= |times|
      ensures |Inside(times[..k], window)| >= threshold
        <==> exists j | 0 <= j < k :: k - j >= threshold && InWindow(times, window, j, k)
    {
      var head := times[..k];
      var s := WindowStart(times, times[k - 1] - window, k - 1);
      WindowIsExact(head, window);
      WindowIsSuffix(head, window, s);
      assert |Inside(head, window)| == k - s && InWindow(times, window, s, k);
      forall j | 0 <= j < s ensures !InWindow(times, window, j, k) {
        assert j <= j < k - 1 && times[j] <= times[k - 1] - window;
      }
    }
    if exists j, k | 0 <= j < k <= |times| :: k - j >= threshold && InWindow(times, window, j, k) {
      var j, k :| 0 <= j < k <= |times| && k - j >= threshold && InWindow(times, window, j, k);
      assert |Inside(times[..k], window)| >= threshold;
    }
  }

  /** The failures from j up to the k-th, the last excepted, are recent enough for it. */
  predicate InWindow(times: seq<int>, window: int, j: int, k: int)
    requires 0 <= j < k <= |times|
  {
    forall i :: j <= i < k - 1 ==> times[i] > times[k - 1] - window
  }
}
