/** The node's disk list: mounts worth reporting, one per device, ordered by mountpoint. */
module Partitions {

  import opened Text

  datatype Partition = Partition(device: string, mount: string, fstype: string)

  /** What is never reported; every result below holds for any such lists. */
  datatype Ignored = Ignored(mounts: seq<string>, fstypes: set<string>)

  const IGNORED := Ignored(
    [
      "/var/lib/kubelet", "/var/lib/docker", "/var/lib/containerd", "/var/lib/containers", "/var/lib/rancher",
      "/snap", "/var/snap", "/var/lib/snapd",
      "/boot", "/run", "/proc", "/sys", "/dev",
      "/System/Volumes/Preboot", "/System/Volumes/Update", "/System/Volumes/Update/SFR/mnt1", "/System/Volumes/VM",
      "/System/Volumes/Data", "/System/Volumes/xarts", "/System/Volumes/Hardware", "/System/Volumes/iSCPreboot",
      "/nix"
    ],
    {
      "squashfs", "iso9660", "udf", "overlay", "overlay2", "aufs", "fuse.snapfuse", "fuse.portal",
      "fuse.gvfsd-fuse", "nfs", "nfs4", "cifs", "smbfs", "9p"
    }
  )

  /** The path is the directory or lies below it. */
  predicate Under(path: string, dir: string) {
    path == dir || dir + "/" <= path
  }

  predicate IgnoredMount(ig: Ignored, mount: string) {
    exists dir :: dir in ig.mounts && Under(mount, dir)
  }

  predicate IgnoredFstype(ig: Ignored, fstype: string) {
    ToLower(fstype) in ig.fstypes
  }

  predicate Reported(ig: Ignored, p: Partition) {
    !IgnoredMount(ig, p.mount) && !IgnoredFstype(ig, p.fstype)
  }

  function Kept(ig: Ignored, ps: seq<Partition>): seq<Partition> {
    if ps == [] then []
    else Kept(ig, ps[..|ps| - 1]) + if Reported(ig, ps[|ps| - 1]) then [ps[|ps| - 1]] else []
  }

  /** The device, or a key of its own for a mount without one. */
  function Key(p: Partition): string {
    if p.device == "" then "\0mp:" + p.mount else p.device
  }

  function Best(ps: seq<Partition>): map<string, Partition> {
    if ps == [] then map[]
    else
      var best, p := Best(ps[..|ps| - 1]), ps[|ps| - 1];
      if Key(p) !in best || ByteLen(p.mount) < ByteLen(best[Key(p)].mount) then best[Key(p) := p] else best
  }

  /** The entry at `i` is the first of least mountpoint length for its key. */
  predicate Chosen(ps: seq<Partition>, i: int) {
    0 <= i < |ps| && forall j :: 0 <= j < |ps| && Key(ps[j]) == Key(ps[i]) ==>
      if j < i then ByteLen(ps[i].mount) < ByteLen(ps[j].mount) else ByteLen(ps[i].mount) <= ByteLen(ps[j].mount)
  }

  predicate ByMount(ps: seq<Partition>) {
    forall i, j :: 0 <= i < j < |ps| ==> !Below(ps[j].mount, ps[i].mount)
  }

  predicate DistinctKeys(ps: seq<Partition>) {
    forall i, j :: 0 <= i < j < |ps| ==> Key(ps[i]) != Key(ps[j])
  }

  predicate DistinctMounts(ps: seq<Partition>) {
    forall i, j :: 0 <= i < j < |ps| ==> ps[i].mount != ps[j].mount
  }

  /** What the dedup and the sort may give on the kept entries: the chosen ones, one per key, by mountpoint. */
  ghost predicate Outcome(kept: seq<Partition>, out: seq<Partition>) {
    && ByMount(out)
    && DistinctKeys(out)
    && forall p :: p in out <==> exists i :: Chosen(kept, i) && kept[i] == p
  }

  // ---------- The loops ----------

  method IsIgnoredMount(ig: Ignored, mount: string) returns (ignored: bool)
    ensures ignored == IgnoredMount(ig, mount)
  {
    for i := 0 to |ig.mounts|
      invariant forall j :: 0 <= j < i ==> !Under(mount, ig.mounts[j])
    {
      if mount == ig.mounts[i] || ig.mounts[i] + "/" <= mount {
        assert ig.mounts[i] in ig.mounts && Under(mount, ig.mounts[i]);
        return true;
      }
    }
    return false;
  }

  method FilterPartitions(parts: seq<Partition>, ig: Ignored := IGNORED) returns (out: seq<Partition>)
    ensures Outcome(Kept(ig, parts), out)
  {
    var keep: seq<Partition> := [];
    for i := 0 to |parts|
      invariant keep == Kept(ig, parts[..i])
    {
      assert parts[..i + 1][..i] == parts[..i];
      var ignored := IsIgnoredMount(ig, parts[i].mount);
      if !ignored && !IgnoredFstype(ig, parts[i].fstype) {
        keep := keep + [parts[i]];
      }
    }
    assert parts[..|parts|] == parts;
    var best: map<string, Partition> := map[];
    for i := 0 to |keep|
      invariant best == Best(keep[..i])
    {
      assert keep[..i + 1][..i] == keep[..i];
      var p := keep[i];
      if Key(p) !in best || ByteLen(p.mount) < ByteLen(best[Key(p)].mount) {
        best := best[Key(p) := p];
      }
    }
    assert keep[..|keep|] == keep;
    BestKeys(keep);
    out := Values(best);
    out := SortByMount(out);
    forall p
      ensures p in out <==> exists i :: Chosen(keep, i) && keep[i] == p
    {
      BestIsChosen(keep, p);
    }
  }

  /** Ranges over the map, in any order. */
  method Values(best: map<string, Partition>) returns (out: seq<Partition>)
    requires forall k :: k in best ==> Key(best[k]) == k
    ensures DistinctKeys(out)
    ensures forall p :: p in out <==> Key(p) in best && best[Key(p)] == p
  {
    out := [];
    var left := best.Keys;
    while left != {}
      invariant left <= best.Keys && DistinctKeys(out)
      invariant forall p :: p in out <==> Key(p) in best && Key(p) !in left && best[Key(p)] == p
    {
      var k :| k in left;
      assert forall i :: 0 <= i < |out| ==> out[i] in out;
      out, left := out + [best[k]], left - {k};
    }
  }

  /** A sort by mountpoint; what ties do is left to the sort. */
  method SortByMount(ps: seq<Partition>) returns (out: seq<Partition>)
    requires DistinctKeys(ps)
    ensures ByMount(out) && DistinctKeys(out)
    ensures forall p :: p in out <==> p in ps
  {
    out := [];
    for i := 0 to |ps|
      invariant ByMount(out) && DistinctKeys(out)
      invariant forall p :: p in out <==> p in ps[..i]
    {
      assert ps[..i + 1] == ps[..i] + [ps[i]];
      assert forall p :: p in ps[..i] ==> Key(p) != Key(ps[i]);
      out := InsertByMount(out, ps[i]);
    }
    assert ps[..|ps|] == ps;
  }

  method InsertByMount(ps: seq<Partition>, p: Partition) returns (out: seq<Partition>)
    requires ByMount(ps) && DistinctKeys(ps)
    requires forall q :: q in ps ==> Key(q) != Key(p)
    ensures ByMount(out) && DistinctKeys(out)
    ensures forall q :: q in out <==> q == p || q in ps
  {
    var k := |ps|;
    while k > 0 && Below(p.mount, ps[k - 1].mount)
      invariant 0 <= k <= |ps|
      invariant forall j :: k <= j < |ps| ==> Below(p.mount, ps[j].mount)
    {
      k := k - 1;
    }
    InsertKeepsOrder(ps, p, k);
    InsertKeepsKeys(ps, p, k);
    assert ps == ps[..k] + ps[k..];
    out := ps[..k] + [p] + ps[k..];
  }

  lemma NotBelowBefore(ps: seq<Partition>, p: Partition, k: nat, j: nat)
    requires ByMount(ps) && j <= k < |ps| && !Below(p.mount, ps[k].mount)
    ensures !Below(p.mount, ps[j].mount)
  {
    if j < k && Below(p.mount, ps[j].mount) {
      BelowIsTotal(ps[j].mount, ps[k].mount);
      if Below(ps[j].mount, ps[k].mount) {
        BelowIsTransitive(p.mount, ps[j].mount, ps[k].mount);
      }
    }
  }

  lemma InsertKeepsOrder(ps: seq<Partition>, p: Partition, k: nat)
    requires ByMount(ps) && k <= |ps|
    requires forall j :: k <= j < |ps| ==> Below(p.mount, ps[j].mount)
    requires k > 0 ==> !Below(p.mount, ps[k - 1].mount)
    ensures ByMount(ps[..k] + [p] + ps[k..])
  {
    hide Below;
    forall j | 0 <= j < |ps|
      ensures if j < k then !Below(p.mount, ps[j].mount) else !Below(ps[j].mount, p.mount)
    {
      if j < k {
        NotBelowBefore(ps, p, k - 1, j);
      } else {
        BelowIsTotal(p.mount, ps[j].mount);
      }
    }
  }

  lemma InsertKeepsKeys(ps: seq<Partition>, p: Partition, k: nat)
    requires DistinctKeys(ps) && k <= |ps|
    requires forall q :: q in ps ==> Key(q) != Key(p)
    ensures DistinctKeys(ps[..k] + [p] + ps[k..])
  {
    hide Key;
    assert forall j :: 0 <= j < |ps| ==> ps[j] in ps;
  }

  // ---------- What the map holds ----------

  lemma {:induction false} BestKeys(ps: seq<Partition>)
    ensures forall k :: k in Best(ps) ==> Key(Best(ps)[k]) == k
    ensures forall i :: 0 <= i < |ps| ==> Key(ps[i]) in Best(ps)
  {
    hide Key, ByteLen;
    if ps != [] {
      BestKeys(ps[..|ps| - 1]);
    }
  }

  lemma ChosenStays(ps: seq<Partition>, i: nat, p: Partition)
    requires Chosen(ps, i)
    requires Key(p) == Key(ps[i]) ==> ByteLen(ps[i].mount) <= ByteLen(p.mount)
    ensures Chosen(ps + [p], i)
  {
  }

  lemma ChosenShorter(ps: seq<Partition>, i: nat, p: Partition)
    requires Chosen(ps, i) && Key(p) == Key(ps[i]) && ByteLen(p.mount) < ByteLen(ps[i].mount)
    ensures Chosen(ps + [p], |ps|)
  {
  }

  /** The map's entry for a key stands at a chosen index. */
  lemma {:induction false} BestAt(ps: seq<Partition>, k: string) returns (i: nat)
    requires k in Best(ps)
    ensures Chosen(ps, i) && ps[i] == Best(ps)[k] && Key(ps[i]) == k
  {
    var last := |ps| - 1;
    var best, p := Best(ps[..last]), ps[last];
    assert ps == ps[..last] + [p];
    if k in best {
      i := BestAt(ps[..last], k);
      if k == Key(p) && ByteLen(p.mount) < ByteLen(best[k].mount) {
        ChosenShorter(ps[..last], i, p);
        i := last;
      } else {
        ChosenStays(ps[..last], i, p);
      }
    } else {
      BestKeys(ps[..last]);
      i := last;
      assert forall j :: 0 <= j < last ==> Key(ps[j]) != k;
    }
  }

  lemma ChosenIsBest(ps: seq<Partition>, i: nat)
    requires Chosen(ps, i)
    ensures Key(ps[i]) in Best(ps) && Best(ps)[Key(ps[i])] == ps[i]
  {
    BestKeys(ps);
    var c := BestAt(ps, Key(ps[i]));
    assert c == i;
  }

  lemma {:induction false} BestIsChosen(ps: seq<Partition>, p: Partition)
    ensures Key(p) in Best(ps) && Best(ps)[Key(p)] == p <==> exists i :: Chosen(ps, i) && ps[i] == p
  {
    if Key(p) in Best(ps) && Best(ps)[Key(p)] == p {
      var i := BestAt(ps, Key(p));
    }
    if exists i :: Chosen(ps, i) && ps[i] == p {
      var i :| Chosen(ps, i) && ps[i] == p;
      ChosenIsBest(ps, i);
    }
  }

  // ---------- What the keys and the filter are ----------

  /** Two entries count as one disk when they name the same device, or name none and share their mountpoint. */
  lemma KeyMeans(p: Partition, q: Partition)
    ensures p.device != "" && q.device != "" ==> (Key(p) == Key(q) <==> p.device == q.device)
    ensures p.device == "" && q.device == "" ==> (Key(p) == Key(q) <==> p.mount == q.mount)
    ensures p.device == "" && q.device != "" ==> (Key(p) == Key(q) <==> q.device == "\0mp:" + p.mount)
  {
    if p.device == "" && q.device == "" {
      assert Key(p)[4..] == p.mount && Key(q)[4..] == q.mount;
    }
  }

  /** The directory itself, or a path that goes on with a slash. */
  lemma UnderMeans(path: string, dir: string)
    ensures Under(path, dir)
      <==> |path| >= |dir| && path[..|dir|] == dir && (|path| == |dir| || path[|dir|] == '/')
  {
    if |path| > |dir| && path[..|dir|] == dir && path[|dir|] == '/' {
      assert path[..|dir| + 1] == dir + "/";
    }
    if dir + "/" <= path {
      assert path[..|dir|] == (dir + "/")[..|dir|];
    }
  }

  /** Below an ignored directory is ignored, and a name that merely starts like one is not. */
  lemma BoundaryMatters()
    ensures IgnoredMount(IGNORED, "/boot") && IgnoredMount(IGNORED, "/boot/efi") && IgnoredMount(IGNORED, "/snap/core/1234")
    ensures !Under("/snapshots", "/snap") && !Under("/var/lib", "/var/lib/docker")
  {
    UnderMeans("/boot/efi", "/boot");
    UnderMeans("/snap/core/1234", "/snap");
    UnderMeans("/snapshots", "/snap");
    UnderMeans("/var/lib", "/var/lib/docker");
    assert "/boot/efi"[..5] == "/boot" && "/snap/core/1234"[..5] == "/snap";
    assert IGNORED.mounts[8] == "/boot" && IGNORED.mounts[5] == "/snap";
    assert Under("/boot", "/boot") && Under("/boot/efi", "/boot") && Under("/snap/core/1234", "/snap");
    assert "/snapshots"[5] == 's';
  }

  /** Filesystem types are compared without regard to case. */
  lemma CaseDoesNotMatter(fstype: string)
    ensures IgnoredFstype(IGNORED, ToLower(fstype)) <==> IgnoredFstype(IGNORED, fstype)
    ensures IgnoredFstype(IGNORED, "SQUASHFS") && !IgnoredFstype(IGNORED, "ext4")
  {
    assert ToLower(ToLower(fstype)) == ToLower(fstype);
    assert ToLower("SQUASHFS") == "squashfs" && ToLower("ext4") == "ext4";
  }

  // ---------- What an outcome is worth ----------

  /** Every kept entry is answered by exactly one reported entry of its key, with no longer a mountpoint. */
  lemma OneForEachKey(kept: seq<Partition>, out: seq<Partition>, p: Partition)
    requires Outcome(kept, out) && p in kept
    ensures exists i ::
      && 0 <= i < |out| && Key(out[i]) == Key(p) && ByteLen(out[i].mount) <= ByteLen(p.mount)
      && forall j :: 0 <= j < |out| && Key(out[j]) == Key(p) ==> j == i
  {
    BestKeys(kept);
    var c := BestAt(kept, Key(p));
    assert kept[c] in out;
  }

  /** A list in the strict order is known by its members. */
  lemma {:induction false} SortedIsUnique(a: seq<Partition>, b: seq<Partition>)
    requires ByMount(a) && DistinctMounts(a) && ByMount(b) && DistinctMounts(b)
    requires forall p :: p in a <==> p in b
    ensures a == b
  {
    if a == [] {
      assert forall i :: 0 <= i < |b| ==> b[i] in b;
    } else {
      assert a[0] in b;
      assert b[0] in a;
      var i :| 0 <= i < |b| && b[i] == a[0];
      var j :| 0 <= j < |a| && a[j] == b[0];
      BelowIsTotal(a[0].mount, b[0].mount);
      assert a[0] == b[0];
      SameTails(a, b);
      SortedIsUnique(a[1..], b[1..]);
      assert a == [a[0]] + a[1..] && b == [b[0]] + b[1..];
    }
  }

  lemma SameTails(a: seq<Partition>, b: seq<Partition>)
    requires a != [] && b != [] && a[0] == b[0] && DistinctMounts(a) && DistinctMounts(b)
    requires forall p :: p in a <==> p in b
    ensures forall p :: p in a[1..] <==> p in b[1..]
  {
    forall p
      ensures p in a[1..] <==> p in a && p != a[0]
      ensures p in b[1..] <==> p in b && p != b[0]
    {
      assert a == [a[0]] + a[1..] && b == [b[0]] + b[1..];
    }
  }

  /** Two entries that share a mountpoint may be swapped. */
  lemma TiesMaySwap(kept: seq<Partition>, out: seq<Partition>, i: nat, j: nat)
    requires Outcome(kept, out) && i < j < |out| && out[i].mount == out[j].mount
    ensures Outcome(kept, out[i := out[j]][j := out[i]]) && out[i := out[j]][j := out[i]] != out
  {
    var other := out[i := out[j]][j := out[i]];
    assert Key(out[i]) != Key(out[j]);
    forall p
      ensures p in other <==> p in out
    {
      if p in out {
        var k :| 0 <= k < |out| && out[k] == p;
        assert other[if k == i then j else if k == j then i else k] == p;
      }
    }
  }

  lemma SameMembersSameMounts(a: seq<Partition>, b: seq<Partition>)
    requires DistinctKeys(b) && DistinctMounts(a)
    requires forall p :: p in a <==> p in b
    ensures DistinctMounts(b)
  {
    forall i, j | 0 <= i < j < |b|
      ensures b[i].mount != b[j].mount
    {
      assert b[i] in a && b[j] in a && b[i] != b[j];
    }
  }

  /**
   * The answer is the same for every order of the map and every choice of the sort
   * exactly when no two reported entries share a mountpoint.
   */
  lemma OrderDoesNotMatterIff(kept: seq<Partition>, out: seq<Partition>)
    requires Outcome(kept, out)
    ensures (forall other :: Outcome(kept, other) ==> other == out) <==> DistinctMounts(out)
  {
    if DistinctMounts(out) {
      forall other | Outcome(kept, other)
        ensures other == out
      {
        SameMembersSameMounts(out, other);
        SortedIsUnique(out, other);
      }
    } else {
      var i, j :| 0 <= i < j < |out| && out[i].mount == out[j].mount;
      TiesMaySwap(kept, out, i, j);
    }
  }

  lemma {:induction false} KeptMembers(ig: Ignored, ps: seq<Partition>)
    ensures forall p :: p in Kept(ig, ps) <==> p in ps && Reported(ig, p)
    ensures (forall p :: p in ps ==> Reported(ig, p)) ==> Kept(ig, ps) == ps
  {
    hide Reported;
    if ps != [] {
      var front, p := ps[..|ps| - 1], ps[|ps| - 1];
      KeptMembers(ig, front);
      assert ps == front + [p];
      assert Kept(ig, ps) == Kept(ig, front) + if Reported(ig, p) then [p] else [];
    }
  }

  /** The answer loses nothing to the filter and is an outcome of its own second run. */
  lemma FilterIsStable(ig: Ignored, parts: seq<Partition>, out: seq<Partition>)
    requires Outcome(Kept(ig, parts), out)
    ensures Kept(ig, out) == out && Outcome(out, out)
  {
    KeptMembers(ig, parts);
    forall p | p in out
      ensures Reported(ig, p)
    {
      assert p in Kept(ig, parts);
    }
    KeptMembers(ig, out);
    assert forall i :: 0 <= i < |out| ==> Chosen(out, i);
  }

  /**
   * Filtering the answer again reports the same entries, in the same order for every run of the
   * second filter exactly when no two of them share a mountpoint.
   */
  lemma FilterTwice(ig: Ignored, parts: seq<Partition>, out: seq<Partition>)
    requires Outcome(Kept(ig, parts), out)
    ensures forall again :: Outcome(Kept(ig, out), again) ==> forall p :: p in again <==> p in out
    ensures (forall again :: Outcome(Kept(ig, out), again) ==> again == out) <==> DistinctMounts(out)
  {
    FilterIsStable(ig, parts, out);
    OrderDoesNotMatterIff(out, out);
  }
}
